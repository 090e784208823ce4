/** The fixed-block signalling: once per tick every block's occupancy and
    aspect are recomputed from one snapshot of the trains and of the
    blocks as they were before the tick. */
module Signaling {
  import opened RailTypes
  import opened Track
  import opened EventLog

  /** The train stands in the block, whose range includes its start and excludes its end. */
  predicate InBlock(c: Block, t: Train)
  {
    c.start <= t.position < c.end
  }

  /** Whether some train of the snapshot stands in the block. */
  function Occupied(c: Block, trains: seq<Train>): (r: bool)
    ensures r <==> exists i :: 0 <= i < |trains| && InBlock(c, trains[i])
  {
    FindFirst(trains, (t: Train) => InBlock(c, t)).Some?
  }

  /** The aspect of a block: red when occupied; otherwise yellow when the
      block following it in `prev` was occupied; otherwise green. */
  function AspectOf(occupied: bool, c: Block, prev: seq<Block>): Aspect
  {
    if occupied then Red
    else
      match FollowingBlock(prev, c.end)
      case Some(k) => if prev[k].occupied then Yellow else Green
      case None => Green
  }

  /** One block's recompute and the occupation message it logs. */
  function RecomputeBlock(c: Block, prev: seq<Block>, trains: seq<Train>): (r: (Block, seq<Event>))
  {
    var occupied := Occupied(c, trains);
    (c.(occupied := occupied, signal := AspectOf(occupied, c, prev)),
     if occupied && !c.occupied then [BlockOccupied(c.id)] else [])
  }

  /** The first `n` blocks of `prev` recomputed, and their messages in block order. */
  function RecomputePrefix(prev: seq<Block>, trains: seq<Train>, n: nat): (r: (seq<Block>, seq<Event>))
    requires n <= |prev|
    ensures |r.0| == n
    ensures forall i {:trigger r.0[i]} :: 0 <= i < n ==> r.0[i] == RecomputeBlock(prev[i], prev, trains).0
  {
    if n == 0 then ([], [])
    else
      var done := RecomputePrefix(prev, trains, n - 1);
      var last := RecomputeBlock(prev[n - 1], prev, trains);
      (done.0 + [last.0], done.1 + last.1)
  }

  /** All blocks recomputed from the pre-tick blocks `prev` and the train snapshot. */
  function RecomputeBlocks(prev: seq<Block>, trains: seq<Train>): (r: (seq<Block>, seq<Event>))
    ensures |r.0| == |prev|
  {
    RecomputePrefix(prev, trains, |prev|)
  }

  /** One more block recomputed extends the prefix's blocks and messages. */
  lemma PrefixStep(prev: seq<Block>, trains: seq<Train>, n: nat)
    requires n < |prev|
    ensures RecomputePrefix(prev, trains, n + 1).0 == RecomputePrefix(prev, trains, n).0 + [RecomputeBlock(prev[n], prev, trains).0]
    ensures RecomputePrefix(prev, trains, n + 1).1 == RecomputePrefix(prev, trains, n).1 + RecomputeBlock(prev[n], prev, trains).1
  {
  }

  /** Every block is red exactly when it is occupied. */
  predicate Consistent(blocks: seq<Block>)
  {
    forall i :: 0 <= i < |blocks| ==> (blocks[i].signal == Red <==> blocks[i].occupied)
  }

  // ---------------------------------------------------------------------
  // Properties of the recompute

  /** After the recompute a block keeps its identity and range, is occupied
      iff some snapshot train stands in it, is red iff occupied, and is
      yellow iff it is free and the first block of `prev` starting at its
      end was occupied before the tick. */
  lemma BlockRule(prev: seq<Block>, trains: seq<Train>, i: nat)
    requires i < |prev|
    ensures var b := RecomputeBlocks(prev, trains).0[i];
      b.id == prev[i].id && b.start == prev[i].start && b.end == prev[i].end
    ensures var b := RecomputeBlocks(prev, trains).0[i];
      b.occupied <==> exists j :: 0 <= j < |trains| && prev[i].start <= trains[j].position < prev[i].end
    ensures var b := RecomputeBlocks(prev, trains).0[i];
      b.signal == Red <==> b.occupied
    ensures var b := RecomputeBlocks(prev, trains).0[i];
      b.signal == Yellow <==>
        !b.occupied &&
        exists k :: 0 <= k < |prev| && prev[k].start == prev[i].end && prev[k].occupied &&
                    forall j :: 0 <= j < k ==> prev[j].start != prev[i].end
  {
    var b := RecomputeBlocks(prev, trains).0[i];
    assert b == RecomputeBlock(prev[i], prev, trains).0;
    if b.signal == Yellow {
      var k := FollowingBlock(prev, prev[i].end).value;
      assert prev[k].start == prev[i].end && prev[k].occupied;
    }
  }

  /** A block that no block of `prev` follows (the one ending at the end of
      the line) is never yellow. */
  lemma NoFollowerNeverYellow(prev: seq<Block>, trains: seq<Train>, i: nat)
    requires i < |prev|
    requires forall k :: 0 <= k < |prev| ==> prev[k].start != prev[i].end
    ensures RecomputeBlocks(prev, trains).0[i].signal != Yellow
  {
    BlockRule(prev, trains, i);
  }

  /** Two block lists with the same blocks (identities and ranges) in the same order. */
  predicate SameLayout(a: seq<Block>, b: seq<Block>)
  {
    |a| == |b| &&
    forall i :: 0 <= i < |a| ==> a[i].id == b[i].id && a[i].start == b[i].start && a[i].end == b[i].end
  }

  /** The recompute changes only occupancy and aspects. */
  lemma RecomputeKeepsLayout(prev: seq<Block>, trains: seq<Train>)
    ensures SameLayout(RecomputeBlocks(prev, trains).0, prev)
  {
  }

  /** The recompute always leaves the blocks consistent. */
  lemma RecomputeConsistent(prev: seq<Block>, trains: seq<Train>)
    ensures Consistent(RecomputeBlocks(prev, trains).0)
  {
  }

  /** Every message of the recompute is an occupation message. */
  lemma {:induction false} OnlyOccupiedMessages(prev: seq<Block>, trains: seq<Train>, n: nat)
    requires n <= |prev|
    ensures forall e :: e in RecomputePrefix(prev, trains, n).1 ==> e.BlockOccupied?
  {
    if n > 0 {
      OnlyOccupiedMessages(prev, trains, n - 1);
    }
  }

  /** An occupation message names a block that went from free to occupied. */
  lemma {:induction false} MessageMeansRisingEdge(prev: seq<Block>, trains: seq<Train>, n: nat, id: int)
    requires n <= |prev|
    ensures BlockOccupied(id) in RecomputePrefix(prev, trains, n).1 ==>
      exists i :: 0 <= i < n && prev[i].id == id && !prev[i].occupied && RecomputePrefix(prev, trains, n).0[i].occupied
  {
    if n > 0 {
      MessageMeansRisingEdge(prev, trains, n - 1, id);
    }
  }

  /** A block that goes from free to occupied gets its occupation message. */
  lemma {:induction false} RisingEdgeMeansMessage(prev: seq<Block>, trains: seq<Train>, n: nat, id: int)
    requires n <= |prev|
    ensures (exists i :: 0 <= i < n && prev[i].id == id && !prev[i].occupied && RecomputePrefix(prev, trains, n).0[i].occupied) ==>
      BlockOccupied(id) in RecomputePrefix(prev, trains, n).1
  {
    if n > 0 {
      RisingEdgeMeansMessage(prev, trains, n - 1, id);
    }
  }

  /** A block's occupation message is logged exactly when that block goes
      from free to occupied in this recompute, and no other message is. */
  lemma OccupiedLoggedOnRisingEdge(prev: seq<Block>, trains: seq<Train>, id: int)
    ensures var r := RecomputeBlocks(prev, trains);
      BlockOccupied(id) in r.1 <==>
        exists i :: 0 <= i < |prev| && prev[i].id == id && !prev[i].occupied && r.0[i].occupied
    ensures forall e :: e in RecomputeBlocks(prev, trains).1 ==> e.BlockOccupied?
  {
    MessageMeansRisingEdge(prev, trains, |prev|, id);
    RisingEdgeMeansMessage(prev, trains, |prev|, id);
    OnlyOccupiedMessages(prev, trains, |prev|);
  }
}
