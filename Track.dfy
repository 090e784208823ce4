/** Pure lookups on the track: the first balise near a train, the next
    block ahead of it and the block that follows a block. */
module Track {
  import opened RailTypes

  /** Length of the look-ahead window for the next block. */
  const Lookahead: real := 100.0
  /** A balise closer than this is "near" a train. */
  const NearRadius: real := 5.0
  /** A near balise closer than this is reported as detected. */
  const DetectRadius: real := 1.0

  /** The absolute distance between two positions. */
  function Dist(a: real, b: real): (d: real)
    ensures d >= 0.0
    ensures d == a - b || d == b - a
  {
    if a >= b then a - b else b - a
  }

  /** The index of the first element of `s` satisfying `p`, as the
      array method `find` selects it. */
  function FindFirst<T>(s: seq<T>, p: T -> bool): (r: Option<nat>)
    ensures r.Some? ==> r.value < |s| && p(s[r.value])
    ensures r.Some? ==> forall j :: 0 <= j < r.value ==> !p(s[j])
    ensures r.None? <==> forall j :: 0 <= j < |s| ==> !p(s[j])
  {
    if |s| == 0 then None
    else if p(s[0]) then Some(0)
    else
      match FindFirst(s[1..], p)
      case None => None
      case Some(k) => Some(k + 1)
  }

  predicate Near(b: Balise, position: real)
  {
    Dist(position, b.position) < NearRadius
  }

  /** The first balise (in list order) within 5 m of `position`. */
  function NearBalise(balises: seq<Balise>, position: real): (r: Option<nat>)
    ensures r.Some? ==> r.value < |balises| && Near(balises[r.value], position)
    ensures r.Some? ==> forall j :: 0 <= j < r.value ==> !Near(balises[j], position)
    ensures r.None? <==> forall j :: 0 <= j < |balises| ==> !Near(balises[j], position)
  {
    FindFirst(balises, (b: Balise) => Near(b, position))
  }

  /** A block is ahead when its start lies strictly inside the open window
      `(position, position + 100)`. */
  predicate Ahead(c: Block, position: real)
  {
    position < c.start < position + Lookahead
  }

  /** The first block (in list order) that is ahead of `position`. */
  function NextBlockAhead(blocks: seq<Block>, position: real): (r: Option<nat>)
    ensures r.Some? ==> r.value < |blocks| && Ahead(blocks[r.value], position)
    ensures r.Some? ==> forall j :: 0 <= j < r.value ==> !Ahead(blocks[j], position)
    ensures r.None? <==> forall j :: 0 <= j < |blocks| ==> !Ahead(blocks[j], position)
  {
    FindFirst(blocks, (c: Block) => Ahead(c, position))
  }

  /** The first block (in list order) whose start equals `end`. */
  function FollowingBlock(blocks: seq<Block>, end: real): (r: Option<nat>)
    ensures r.Some? ==> r.value < |blocks| && blocks[r.value].start == end
    ensures r.Some? ==> forall j :: 0 <= j < r.value ==> blocks[j].start != end
    ensures r.None? <==> forall j :: 0 <= j < |blocks| ==> blocks[j].start != end
  {
    FindFirst(blocks, (c: Block) => c.start == end)
  }

  /** Detection as the simulator logs it: the first near balise is reported
      only when the train is within 1 m of it. */
  predicate Detected(balises: seq<Balise>, position: real)
  {
    match NearBalise(balises, position)
    case None => false
    case Some(k) => Dist(position, balises[k].position) < DetectRadius
  }

  /** Balises at least 6 m apart. */
  predicate Spaced(balises: seq<Balise>)
  {
    forall i, j :: 0 <= i < j < |balises| ==> Dist(balises[i].position, balises[j].position) >= NearRadius + DetectRadius
  }

  /** On a layout whose balises are at least 6 m apart, the detection rule
      (first balise within 5 m, then within 1 m) reports exactly when some
      balise is within 1 m of the train. */
  lemma DetectionOnSpacedLayout(balises: seq<Balise>, position: real)
    requires Spaced(balises)
    ensures Detected(balises, position) <==>
      exists k :: 0 <= k < |balises| && Dist(position, balises[k].position) < DetectRadius
  {
  }
}
