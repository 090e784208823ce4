/** The simulator: the state the component holds (trains, blocks, log and
    the running flag), the preset scenarios, and the tick that the 100 ms
    interval runs while the simulation is running. */
module Simulation {
  import opened RailTypes
  import opened Track
  import opened EventLog
  import opened Protection
  import opened Signaling

  /** The trains the component starts with (also the default preset). */
  function InitialTrains(): seq<Train>
  {
    [Train(1, 50.0, 0, 120, 500.0), Train(2, 600.0, 0, 100, 1000.0)]
  }

  /** The four blocks that partition the 1200 m line, all free and green. */
  function InitialBlocks(): seq<Block>
  {
    [Block(1, 0.0, 300.0, false, Green), Block(2, 300.0, 600.0, false, Green),
     Block(3, 600.0, 900.0, false, Green), Block(4, 900.0, 1200.0, false, Green)]
  }

  /** The fixed balises of the line. */
  function LineBalises(): seq<Balise>
  {
    [Balise(150.0, 80), Balise(400.0, 120), Balise(750.0, 60), Balise(1050.0, 100)]
  }

  /** The trains each preset loads. */
  function ScenarioTrains(s: Scenario): seq<Train>
  {
    match s
    case Collision => [Train(1, 100.0, 80, 120, 800.0), Train(2, 500.0, 60, 100, 600.0)]
    case CatchUp => [Train(1, 50.0, 100, 120, 1000.0), Train(2, 400.0, 40, 60, 800.0)]
    case BaliseTest => [Train(1, 700.0, 100, 120, 500.0), Train(2, 50.0, 0, 100, 1000.0)]
    case MaLimit => [Train(1, 400.0, 80, 120, 200.0), Train(2, 50.0, 0, 100, 1000.0)]
    case Reset => InitialTrains()
  }

  predicate TrainsInRange(ts: seq<Train>)
  {
    forall i :: 0 <= i < |ts| ==> InRange(ts[i])
  }

  /** Every event of one tick in the order it is logged: the trains' events
      train by train, then the blocks' events block by block. */
  function TickEvents(trains: seq<Train>, blocks: seq<Block>, balises: seq<Balise>): seq<Event>
  {
    UpdateTrains(trains, blocks, balises).1 + RecomputeBlocks(blocks, trains).1
  }

  // ---------------------------------------------------------------------
  // Facts about the presets and the line, and a few single-tick vectors

  /** Every preset starts every train within its speed range and on the line. */
  lemma ScenariosInRange(s: Scenario)
    ensures TrainsInRange(ScenarioTrains(s))
  {
  }

  /** No preset, the movement-authority one included, starts a train with
      an authority below 50 m, and the update never changes a train's
      authority: the movement-authority rule fires for no preset train. */
  lemma PresetsNeverReachAuthorityLimit(s: Scenario, blocks: seq<Block>, balises: seq<Balise>)
    ensures forall i :: 0 <= i < |ScenarioTrains(s)| ==> !MaTriggered(ScenarioTrains(s)[i])
    ensures forall i :: 0 <= i < |ScenarioTrains(s)| ==>
      !MaTriggered(UpdateTrains(ScenarioTrains(s), blocks, balises).0[i])
  {
  }

  /** The line's balises are at least 6 m apart, so on this line the
      detection rule reports exactly when a balise lies within 1 m. */
  lemma LineBalisesSpaced()
    ensures Spaced(LineBalises())
  {
  }

  /** On the line's layout the last block, which ends at 1200 m where no
      block starts, is never yellow after a recompute, whatever the trains. */
  lemma LastBlockNeverYellow(prev: seq<Block>, trains: seq<Train>)
    requires SameLayout(prev, InitialBlocks())
    ensures RecomputeBlocks(prev, trains).0[3].signal != Yellow
  {
    NoFollowerNeverYellow(prev, trains, 3);
  }

  /** The invariant of the simulator's state: speeds within bounds, trains
      on the line, blocks red exactly when occupied and laid out as the
      line's four blocks, and the log within its capacity. */
  predicate StateInvariant(trains: seq<Train>, blocks: seq<Block>, log: seq<Event>)
  {
    TrainsInRange(trains) && Consistent(blocks) && SameLayout(blocks, InitialBlocks()) && |log| <= Capacity
  }

  /** The invariant survives a tick. */
  lemma TickKeepsInvariant(trains: seq<Train>, blocks: seq<Block>, balises: seq<Balise>, log: seq<Event>)
    requires StateInvariant(trains, blocks, log)
    ensures StateInvariant(UpdateTrains(trains, blocks, balises).0, RecomputeBlocks(blocks, trains).0,
                           Logged(log, TickEvents(trains, blocks, balises)))
  {
    UpdateTrainsKeepRange(trains, blocks, balises);
    RecomputeConsistent(blocks, trains);
    RecomputeKeepsLayout(blocks, trains);
    LoggedBounded(log, TickEvents(trains, blocks, balises));
  }

  function CollisionAfterOneTick(): seq<Train>
  {
    [Train(1, 100.0 + 82.0 / 36.0, 82, 120, 800.0), Train(2, 500.0 + 62.0 / 36.0, 62, 100, 600.0)]
  }

  /** The first tick of the collision preset, leading train: no block
      starts within 100 m ahead of 100 m and no balise is near, so it gains
      2 km/h, moves 82/36 m and logs nothing. */
  lemma CollisionLeaderFirstTick()
    ensures UpdateTrain(ScenarioTrains(Collision)[0], InitialBlocks(), LineBalises()) == (CollisionAfterOneTick()[0], [])
  {
    var t := ScenarioTrains(Collision)[0];
    var bs := InitialBlocks();
    assert AheadAspect(bs, 100.0) == None;
    assert NearBalise(LineBalises(), 100.0) == None;
    assert AtpSpeed(t, None) == 82;
    assert Advance(100.0, 82) == (100.0 + 82.0 / 36.0, false);
    assert DetectionEvents(t, LineBalises()) == [];
    assert SignalEvents(t, None) == [] && MaEvents(t, 82) == [];
    assert UpdateTrain(t, bs, LineBalises()).0.speed == 82;
    assert UpdateTrain(t, bs, LineBalises()).0.position == 100.0 + 82.0 / 36.0;
    assert UpdateTrain(t, bs, LineBalises()).1 == [];
  }

  /** The first tick of the collision preset, second train: likewise from
      500 m it gains 2 km/h and logs nothing. */
  lemma CollisionFollowerFirstTick()
    ensures UpdateTrain(ScenarioTrains(Collision)[1], InitialBlocks(), LineBalises()) == (CollisionAfterOneTick()[1], [])
  {
    var t := ScenarioTrains(Collision)[1];
    var bs := InitialBlocks();
    assert AheadAspect(bs, 500.0) == None;
    assert NearBalise(LineBalises(), 500.0) == None;
    assert AtpSpeed(t, None) == 62;
    assert Advance(500.0, 62) == (500.0 + 62.0 / 36.0, false);
    assert DetectionEvents(t, LineBalises()) == [];
    assert SignalEvents(t, None) == [] && MaEvents(t, 62) == [];
    assert UpdateTrain(t, bs, LineBalises()).0.speed == 62;
    assert UpdateTrain(t, bs, LineBalises()).0.position == 500.0 + 62.0 / 36.0;
    assert UpdateTrain(t, bs, LineBalises()).1 == [];
  }

  /** The whole train update of the collision preset's first tick. */
  lemma CollisionTrainsFirstTick()
    ensures UpdateTrains(ScenarioTrains(Collision), InitialBlocks(), LineBalises()) == (CollisionAfterOneTick(), [])
  {
    CollisionLeaderFirstTick();
    CollisionFollowerFirstTick();
    TwoTrains(ScenarioTrains(Collision), InitialBlocks(), LineBalises());
    var none: seq<Event> := [];
    assert none + none == none;
  }

  /** An update of two trains spelled out train by train. */
  lemma TwoTrains(ts: seq<Train>, blocks: seq<Block>, balises: seq<Balise>)
    requires |ts| == 2
    ensures UpdateTrains(ts, blocks, balises).0 == [UpdateTrain(ts[0], blocks, balises).0, UpdateTrain(ts[1], blocks, balises).0]
    ensures UpdateTrains(ts, blocks, balises).1 == UpdateTrain(ts[0], blocks, balises).1 + UpdateTrain(ts[1], blocks, balises).1
  {
    var x0 := UpdateTrain(ts[0], blocks, balises);
    var x1 := UpdateTrain(ts[1], blocks, balises);
    var first := ts[..1];
    assert first[..0] == [] && first[0] == ts[0];
    assert UpdateTrains(first[..0], blocks, balises) == ([], []);
    assert UpdateTrains(first, blocks, balises) == ([] + [x0.0], [] + x0.1);
    assert [] + [x0.0] == [x0.0] && [] + x0.1 == x0.1;
    assert ts[..|ts| - 1] == first && ts[|ts| - 1] == ts[1];
    assert [x0.0] + [x1.0] == [x0.0, x1.0];
  }

  /** Each block of the collision preset's first tick on its own: blocks 1
      and 2 hold a train and become red with a message, blocks 3 and 4 stay
      free and green (the following blocks were free before the tick). */
  lemma CollisionEachBlockFirstTick()
    ensures RecomputeBlock(InitialBlocks()[0], InitialBlocks(), ScenarioTrains(Collision)) == (Block(1, 0.0, 300.0, true, Red), [BlockOccupied(1)])
    ensures RecomputeBlock(InitialBlocks()[1], InitialBlocks(), ScenarioTrains(Collision)) == (Block(2, 300.0, 600.0, true, Red), [BlockOccupied(2)])
    ensures RecomputeBlock(InitialBlocks()[2], InitialBlocks(), ScenarioTrains(Collision)) == (Block(3, 600.0, 900.0, false, Green), [])
    ensures RecomputeBlock(InitialBlocks()[3], InitialBlocks(), ScenarioTrains(Collision)) == (Block(4, 900.0, 1200.0, false, Green), [])
  {
    var ts := ScenarioTrains(Collision);
    var bs := InitialBlocks();
    assert Occupied(bs[0], ts) && Occupied(bs[1], ts);
    assert !Occupied(bs[2], ts) && !Occupied(bs[3], ts);
    assert FollowingBlock(bs, 900.0) == Some(3);
    assert FollowingBlock(bs, 1200.0) == None;
  }

  /** The block recompute of the collision preset's first tick: blocks 1 and
      2 become occupied, red and logged; blocks 3 and 4 stay free and green. */
  lemma CollisionBlocksFirstTick()
    ensures RecomputeBlocks(InitialBlocks(), ScenarioTrains(Collision)) ==
      ([Block(1, 0.0, 300.0, true, Red), Block(2, 300.0, 600.0, true, Red),
        Block(3, 600.0, 900.0, false, Green), Block(4, 900.0, 1200.0, false, Green)],
       [BlockOccupied(1), BlockOccupied(2)])
  {
    CollisionEachBlockFirstTick();
    FourBlocks(InitialBlocks(), ScenarioTrains(Collision));
    assert [BlockOccupied(1)] + [BlockOccupied(2)] + [] + [] == [BlockOccupied(1), BlockOccupied(2)];
  }

  /** A recompute of four blocks spelled out block by block. */
  lemma FourBlocks(prev: seq<Block>, trains: seq<Train>)
    requires |prev| == 4
    ensures RecomputeBlocks(prev, trains).0 ==
      [RecomputeBlock(prev[0], prev, trains).0, RecomputeBlock(prev[1], prev, trains).0,
       RecomputeBlock(prev[2], prev, trains).0, RecomputeBlock(prev[3], prev, trains).0]
    ensures RecomputeBlocks(prev, trains).1 ==
      RecomputeBlock(prev[0], prev, trains).1 + RecomputeBlock(prev[1], prev, trains).1 +
      RecomputeBlock(prev[2], prev, trains).1 + RecomputeBlock(prev[3], prev, trains).1
  {
    var x0 := RecomputeBlock(prev[0], prev, trains);
    var x1 := RecomputeBlock(prev[1], prev, trains);
    var x2 := RecomputeBlock(prev[2], prev, trains);
    var x3 := RecomputeBlock(prev[3], prev, trains);
    var p0 := RecomputePrefix(prev, trains, 0);
    var p1 := RecomputePrefix(prev, trains, 1);
    var p2 := RecomputePrefix(prev, trains, 2);
    var p3 := RecomputePrefix(prev, trains, 3);
    var p4 := RecomputePrefix(prev, trains, 4);
    assert p0 == ([], []);
    PrefixStep(prev, trains, 0);
    assert p1.0 == [x0.0] && p1.1 == x0.1;
    PrefixStep(prev, trains, 1);
    assert p2.0 == [x0.0, x1.0] && p2.1 == x0.1 + x1.1;
    PrefixStep(prev, trains, 2);
    assert p3.0 == [x0.0, x1.0, x2.0] && p3.1 == x0.1 + x1.1 + x2.1;
    PrefixStep(prev, trains, 3);
    assert p4.0 == [x0.0, x1.0, x2.0, x3.0];
  }

  /** A train 1 m before the end of the line at 100 km/h goes past 1200 m in
      one tick, restarts at 50 m and logs the lap restart. */
  lemma WrapNearLineEnd()
    ensures var r := UpdateTrain(Train(1, 1199.0, 100, 120, 1000.0), InitialBlocks(), LineBalises());
      r.0.position == 50.0 && r.0.speed == 102 && LapRestart(1) in r.1
  {
  }

  /** On the line's balises the 60 km/h balise at 750 m is reported to a
      train within 1 m of it. */
  lemma BaliseSeenWithinOneMetre()
    ensures BaliseSeen(1, 60) in UpdateTrain(Train(1, 749.5, 100, 120, 500.0), InitialBlocks(), LineBalises()).1
  {
    var t := Train(1, 749.5, 100, 120, 500.0);
    assert NearBalise(LineBalises(), 749.5) == Some(2);
    assert DetectionEvents(t, LineBalises()) == [BaliseSeen(1, 60)];
    BaliseOnlyLogs(t, InitialBlocks(), LineBalises());
  }

  /** A train 4 m from the 750 m balise is within its 5 m search radius but
      is not told about it. */
  lemma BaliseNotSeenFourMetresAway()
    ensures forall e :: e in UpdateTrain(Train(1, 746.0, 100, 120, 500.0), InitialBlocks(), LineBalises()).1 ==> !e.BaliseSeen?
  {
    var t := Train(1, 746.0, 100, 120, 500.0);
    assert NearBalise(LineBalises(), 746.0) == Some(2);
    assert !Detected(LineBalises(), 746.0);
    DetectionLogged(t, InitialBlocks(), LineBalises());
  }

  /** Aspects lag occupancy by one tick: starting from free blocks, a train
      in block 3 makes block 3 red, yet block 2 before it stays green,
      because yellow is decided from the blocks as they were before the tick. */
  lemma AspectLagsOneTick()
    ensures var bs := RecomputeBlocks(InitialBlocks(), [Train(1, 650.0, 0, 100, 1000.0)]).0;
      bs[2].occupied && bs[2].signal == Red && bs[1].signal == Green
  {
  }

  class Simulator {
    var running: bool
    var trains: seq<Train>
    var blocks: seq<Block>
    var log: seq<Event>
    const balises: seq<Balise>

    ghost predicate Valid()
      reads this
    {
      StateInvariant(trains, blocks, log)
    }

    constructor ()
      ensures Valid() && !running
      ensures trains == InitialTrains() && blocks == InitialBlocks() && log == []
      ensures balises == LineBalises()
    {
      running := false;
      trains := InitialTrains();
      blocks := InitialBlocks();
      log := [];
      balises := LineBalises();
    }

    /** The start/pause button. */
    method ToggleRunning()
      modifies this`running
      ensures running == !old(running)
    {
      running := !running;
    }

    /** `addLog`: the new entry goes first and the log keeps the 15 newest. */
    method AddLog(e: Event)
      modifies this`log
      ensures log == Prepend(old(log), e)
    {
      log := ([e] + log)[..Min(Capacity, |log| + 1)];
    }

    /** `loadScenario`: pause, clear the log, load the preset's trains and log
        the load. The blocks are left as they are. */
    method LoadScenario(s: Scenario)
      requires Valid()
      modifies this
      ensures Valid() && !running
      ensures trains == ScenarioTrains(s) && blocks == old(blocks)
      ensures log == [ScenarioLoaded(s)]
    {
      running := false;
      log := [];
      trains := ScenarioTrains(s);
      AddLog(ScenarioLoaded(s));
    }

    /** One train's update against the current (pre-tick) blocks. The
        new speed is decided rule by rule (signal, then movement authority),
        then the train is moved; each rule logs its events as it goes. */
    method StepTrain(t: Train) returns (u: Train)
      modifies this`log
      ensures u == UpdateTrain(t, blocks, balises).0
      ensures log == Logged(old(log), UpdateTrain(t, blocks, balises).1)
    {
      ReportBalise(t, old(log), []);
      ghost var es := [] + DetectionEvents(t, balises);
      var ahead := AheadAspect(blocks, t.position);
      var newSpeed := SignalRule(t, ahead, old(log), es);
      es := es + SignalEvents(t, ahead);
      newSpeed := AuthorityRule(t, newSpeed, old(log), es);
      es := es + MaEvents(t, newSpeed);
      var newPosition := Move(t, newSpeed, old(log), es);
      es := es + (if Advance(t.position, newSpeed).1 then [LapRestart(t.id)] else []);
      u := t.(speed := newSpeed, position := newPosition);
      assert es == UpdateTrain(t, blocks, balises).1;
    }

    /** The balise check: the first balise within 5 m is reported when the
        train is within 1 m of it. */
    method ReportBalise(t: Train, ghost base: seq<Event>, ghost es: seq<Event>)
      requires log == Logged(base, es)
      modifies this`log
      ensures log == Logged(base, es + DetectionEvents(t, balises))
    {
      match NearBalise(balises, t.position) {
        case Some(k) =>
          if Dist(t.position, balises[k].position) < DetectRadius {
            Log(BaliseSeen(t.id, balises[k].speedLimit), base, es);
          } else {
            assert es + [] == es;
          }
        case None =>
          assert es + [] == es;
      }
    }

    /** The signal rule on the aspect ahead, with its warnings. */
    method SignalRule(t: Train, ahead: Option<Aspect>, ghost base: seq<Event>, ghost es: seq<Event>)
      returns (newSpeed: int)
      requires log == Logged(base, es)
      modifies this`log
      ensures newSpeed == SignalSpeed(t.speed, t.maxSpeed, ahead)
      ensures log == Logged(base, es + SignalEvents(t, ahead))
    {
      newSpeed := t.speed;
      assert es + [] == es;
      if ahead == Some(Red) {
        newSpeed := Max(0, newSpeed - RedDeceleration);
        if newSpeed == 0 && t.speed > 0 {
          Log(RedStop(t.id), base, es);
        }
      } else if ahead == Some(Yellow) {
        newSpeed := Min(YellowCap, newSpeed);
        if t.speed > YellowCap {
          Log(YellowReduction(t.id), base, es);
        }
      } else if newSpeed < t.maxSpeed {
        newSpeed := Min(t.maxSpeed, newSpeed + Acceleration);
      }
    }

    /** The movement-authority rule applied to the speed the signal rule gave. */
    method AuthorityRule(t: Train, speed: int, ghost base: seq<Event>, ghost es: seq<Event>)
      returns (newSpeed: int)
      requires log == Logged(base, es)
      modifies this`log
      ensures newSpeed == MaSpeed(t, speed)
      ensures log == Logged(base, es + MaEvents(t, newSpeed))
    {
      newSpeed := speed;
      assert es + [] == es;
      if t.position + MaLookahead > t.position + t.ma {
        newSpeed := Max(0, newSpeed - MaDeceleration);
        if newSpeed == 0 && t.speed > 5 {
          Log(MaStop(t.id), base, es);
        } else if t.speed > 10 && newSpeed < t.speed - 2 {
          Log(MaBraking(t.id), base, es);
        }
      }
    }

    /** The new position, wrapped back to the start past the end of the line. */
    method Move(t: Train, speed: int, ghost base: seq<Event>, ghost es: seq<Event>)
      returns (newPosition: real)
      requires log == Logged(base, es)
      modifies this`log
      ensures newPosition == Advance(t.position, speed).0
      ensures log == Logged(base, es + if Advance(t.position, speed).1 then [LapRestart(t.id)] else [])
    {
      assert es + [] == es;
      newPosition := t.position + (speed as real / 3600.0) * 100.0;
      if newPosition > LineEnd {
        newPosition := RestartPosition;
        Log(LapRestart(t.id), base, es);
      }
    }

    /** `AddLog` on a log that holds the events `es` logged onto `base`. */
    method Log(e: Event, ghost base: seq<Event>, ghost es: seq<Event>)
      requires log == Logged(base, es)
      modifies this`log
      ensures log == Logged(base, es + [e])
    {
      AddLog(e);
      LoggedSnoc(base, es, e);
    }

    /** One interval of the simulation. While paused nothing changes. While
        running, every train is updated against the blocks as they were
        before the tick; then every block is recomputed from the trains as
        they were before the tick and from the pre-tick blocks. */
    method Tick()
      requires Valid()
      modifies this
      ensures Valid() && running == old(running)
      ensures !old(running) ==> trains == old(trains) && blocks == old(blocks) && log == old(log)
      ensures old(running) ==> trains == UpdateTrains(old(trains), old(blocks), balises).0
      ensures old(running) ==> blocks == RecomputeBlocks(old(blocks), old(trains)).0
      ensures old(running) ==> log == Logged(old(log), TickEvents(old(trains), old(blocks), balises))
    {
      if running {
        Step();
      }
    }

    /** A tick while running: the trains, then the blocks. */
    method Step()
      requires Valid()
      modifies this`trains, this`blocks, this`log
      ensures Valid()
      ensures trains == UpdateTrains(old(trains), old(blocks), balises).0
      ensures blocks == RecomputeBlocks(old(blocks), old(trains)).0
      ensures log == Logged(old(log), TickEvents(old(trains), old(blocks), balises))
    {
      var snapshot := trains;
      var before := blocks;
      ghost var base := log;
      var newTrains := UpdateAllTrains();
      ghost var trainEvents := UpdateTrains(snapshot, before, balises).1;
      var newBlocks := RecomputeAllBlocks(before, snapshot, base, trainEvents);
      assert TickEvents(snapshot, before, balises) == trainEvents + RecomputeBlocks(before, snapshot).1;
      TickKeepsInvariant(snapshot, before, balises, base);
      trains := newTrains;
      blocks := newBlocks;
    }

    /** The train half of a tick: every train updated against the current
        blocks, in list order, each logging its events. */
    method UpdateAllTrains() returns (newTrains: seq<Train>)
      modifies this`log
      ensures newTrains == UpdateTrains(trains, blocks, balises).0
      ensures log == Logged(old(log), UpdateTrains(trains, blocks, balises).1)
    {
      newTrains := [];
      for i := 0 to |trains|
        invariant newTrains == UpdateTrains(trains[..i], blocks, balises).0
        invariant log == Logged(old(log), UpdateTrains(trains[..i], blocks, balises).1)
      {
        assert trains[..i + 1][..i] == trains[..i];
        var u := StepTrain(trains[i]);
        LoggedAppend(old(log), UpdateTrains(trains[..i], blocks, balises).1, UpdateTrain(trains[i], blocks, balises).1);
        newTrains := newTrains + [u];
      }
      assert trains[..|trains|] == trains;
    }

    /** The block half of a tick: every block of `prev` recomputed from
        the train snapshot and `prev`, in list order. `es` are the events
        logged onto `base` so far. */
    method RecomputeAllBlocks(prev: seq<Block>, snapshot: seq<Train>, ghost base: seq<Event>, ghost es: seq<Event>)
      returns (newBlocks: seq<Block>)
      requires log == Logged(base, es)
      modifies this`log
      ensures newBlocks == RecomputeBlocks(prev, snapshot).0
      ensures log == Logged(base, es + RecomputeBlocks(prev, snapshot).1)
    {
      newBlocks := [];
      ghost var done: seq<Event> := [];
      assert es + [] == es;
      for i := 0 to |prev|
        invariant newBlocks == RecomputePrefix(prev, snapshot, i).0
        invariant done == RecomputePrefix(prev, snapshot, i).1
        invariant log == Logged(base, es + done)
      {
        var b := UpdateBlock(prev[i], prev, snapshot, base, es + done);
        ghost var step := RecomputeBlock(prev[i], prev, snapshot).1;
        PrefixStep(prev, snapshot, i);
        assert es + done + step == es + (done + step);
        done := done + step;
        newBlocks := newBlocks + [b];
      }
    }

    /** One block's recompute: occupied when a snapshot train stands in it,
        logged when it was free before; its aspect from the blocks `prev`. */
    method UpdateBlock(c: Block, prev: seq<Block>, snapshot: seq<Train>, ghost base: seq<Event>, ghost es: seq<Event>)
      returns (b: Block)
      requires log == Logged(base, es)
      modifies this`log
      ensures b == RecomputeBlock(c, prev, snapshot).0
      ensures log == Logged(base, es + RecomputeBlock(c, prev, snapshot).1)
    {
      var wasOccupied := c.occupied;
      var occupied := Occupied(c, snapshot);
      if occupied && !wasOccupied {
        Log(BlockOccupied(c.id), base, es);
      } else {
        assert es + [] == es;
      }
      b := c.(occupied := occupied, signal := AspectOf(occupied, c, prev));
    }
  }
}
