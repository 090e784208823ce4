/** Automatic train protection and kinematics: the per-train part of one
    tick. A train's new speed is decided from the aspect of the next block
    ahead, then refined by the movement-authority rule; the train then
    advances and wraps back to the start past the end of the line. */
module Protection {
  import opened RailTypes
  import opened Track
  import opened EventLog

  const RedDeceleration: int := 5
  const YellowCap: int := 60
  const Acceleration: int := 2
  const MaDeceleration: int := 3
  /** The fixed distance the movement-authority check looks ahead. */
  const MaLookahead: real := 50.0
  /** The end of the line and the position a train restarts from. */
  const LineEnd: real := 1200.0
  const RestartPosition: real := 50.0

  function Max(a: int, b: int): int { if a >= b then a else b }

  /** The aspect of the first block ahead of `position`, if there is one. */
  function AheadAspect(blocks: seq<Block>, position: real): (r: Option<Aspect>)
    ensures r.None? <==> forall j :: 0 <= j < |blocks| ==> !Ahead(blocks[j], position)
    ensures r.Some? ==>
      exists k :: 0 <= k < |blocks| && Ahead(blocks[k], position) && blocks[k].signal == r.value &&
                  forall j :: 0 <= j < k ==> !Ahead(blocks[j], position)
  {
    match NextBlockAhead(blocks, position)
    case None => None
    case Some(k) => Some(blocks[k].signal)
  }

  /** The speed after the signal rule: brake at a red aspect ahead, cap at a
      yellow one, accelerate otherwise. */
  function SignalSpeed(speed: int, maxSpeed: int, ahead: Option<Aspect>): int
  {
    if ahead == Some(Red) then Max(0, speed - RedDeceleration)
    else if ahead == Some(Yellow) then Min(YellowCap, speed)
    else if speed < maxSpeed then Min(maxSpeed, speed + Acceleration)
    else speed
  }

  /** The signal rule's warning, raised on its edge condition. */
  function SignalEvents(t: Train, ahead: Option<Aspect>): seq<Event>
  {
    if ahead == Some(Red) then
      (if SignalSpeed(t.speed, t.maxSpeed, ahead) == 0 && t.speed > 0 then [RedStop(t.id)] else [])
    else if ahead == Some(Yellow) then
      (if t.speed > YellowCap then [YellowReduction(t.id)] else [])
    else []
  }

  /** The movement-authority check as written: it compares the point 50 m
      ahead with the end of authority, both measured from the train's own
      position, so the position cancels out. */
  function MaTriggered(t: Train): (r: bool)
    ensures r <==> t.ma < MaLookahead
  {
    t.position + MaLookahead > t.position + t.ma
  }

  /** The speed after the movement-authority rule, given the speed `s` the
      signal rule produced. */
  function MaSpeed(t: Train, s: int): int
  {
    if MaTriggered(t) then Max(0, s - MaDeceleration) else s
  }

  /** The movement-authority warnings, given the final speed `s`. */
  function MaEvents(t: Train, s: int): seq<Event>
  {
    if !MaTriggered(t) then []
    else if s == 0 && t.speed > 5 then [MaStop(t.id)]
    else if t.speed > 10 && s < t.speed - 2 then [MaBraking(t.id)]
    else []
  }

  /** The speed the protection enforces for this tick. */
  function AtpSpeed(t: Train, ahead: Option<Aspect>): int
  {
    MaSpeed(t, SignalSpeed(t.speed, t.maxSpeed, ahead))
  }

  /** The position after one 100 ms tick at `speed` km/h, and whether the
      train went past the end of the line and was put back at the start. */
  function Advance(position: real, speed: int): (r: (real, bool))
  {
    var p := position + (speed as real / 3600.0) * 100.0;
    if p > LineEnd then (RestartPosition, true) else (p, false)
  }

  /** The detection message, if the first near balise is within 1 m. */
  function DetectionEvents(t: Train, balises: seq<Balise>): seq<Event>
  {
    match NearBalise(balises, t.position)
    case None => []
    case Some(k) =>
      if Dist(t.position, balises[k].position) < DetectRadius then [BaliseSeen(t.id, balises[k].speedLimit)] else []
  }

  /** One train's update: the new train and the events it logs, in the order
      they are logged (detection, signal rule, movement authority, lap). The
      blocks are the ones before this tick. */
  function UpdateTrain(t: Train, blocks: seq<Block>, balises: seq<Balise>): (r: (Train, seq<Event>))
  {
    var ahead := AheadAspect(blocks, t.position);
    var s := AtpSpeed(t, ahead);
    var moved := Advance(t.position, s);
    (t.(speed := s, position := moved.0),
     DetectionEvents(t, balises) + SignalEvents(t, ahead) + MaEvents(t, s) + (if moved.1 then [LapRestart(t.id)] else []))
  }

  /** The update of every train against the same pre-tick blocks, and all
      their events, train by train. */
  function UpdateTrains(ts: seq<Train>, blocks: seq<Block>, balises: seq<Balise>): (r: (seq<Train>, seq<Event>))
    ensures |r.0| == |ts|
    ensures forall i :: 0 <= i < |ts| ==> r.0[i] == UpdateTrain(ts[i], blocks, balises).0
  {
    if ts == [] then ([], [])
    else
      var done := UpdateTrains(ts[..|ts| - 1], blocks, balises);
      var last := UpdateTrain(ts[|ts| - 1], blocks, balises);
      (done.0 + [last.0], done.1 + last.1)
  }

  /** A train whose speed is within `[0, maxSpeed]` and whose position is on the line. */
  predicate InRange(t: Train)
  {
    0 <= t.speed <= t.maxSpeed && 0.0 <= t.position <= LineEnd
  }

  // ---------------------------------------------------------------------
  // Properties of one train's update

  /** Each kind of message comes from one part of the update: detection,
      signal rule, movement authority or lap restart. */
  lemma UpdateTrainParts(t: Train, blocks: seq<Block>, balises: seq<Balise>)
    ensures var ahead := AheadAspect(blocks, t.position);
      var r := UpdateTrain(t, blocks, balises);
      && r.0.speed == AtpSpeed(t, ahead)
      && (RedStop(t.id) in r.1 <==> RedStop(t.id) in SignalEvents(t, ahead))
      && (YellowReduction(t.id) in r.1 <==> YellowReduction(t.id) in SignalEvents(t, ahead))
      && (MaStop(t.id) in r.1 <==> MaStop(t.id) in MaEvents(t, r.0.speed))
      && (MaBraking(t.id) in r.1 <==> MaBraking(t.id) in MaEvents(t, r.0.speed))
      && (LapRestart(t.id) in r.1 <==> Advance(t.position, r.0.speed).1)
  {
    var ahead := AheadAspect(blocks, t.position);
    var s := AtpSpeed(t, ahead);
    var l := if Advance(t.position, s).1 then [LapRestart(t.id)] else [];
    assert UpdateTrain(t, blocks, balises).1 == DetectionEvents(t, balises) + SignalEvents(t, ahead) + MaEvents(t, s) + l;
    DetectionKinds(t, balises);
    SignalKinds(t, ahead);
    MaKinds(t, s);
    SplitMembership(DetectionEvents(t, balises), SignalEvents(t, ahead), MaEvents(t, s), l, t.id);
  }

  lemma DetectionKinds(t: Train, balises: seq<Balise>)
    ensures forall e :: e in DetectionEvents(t, balises) ==> e.BaliseSeen?
  {
  }

  lemma SignalKinds(t: Train, ahead: Option<Aspect>)
    ensures forall e :: e in SignalEvents(t, ahead) ==> e.RedStop? || e.YellowReduction?
  {
  }

  lemma MaKinds(t: Train, s: int)
    ensures forall e :: e in MaEvents(t, s) ==> e.MaStop? || e.MaBraking?
  {
  }

  /** Membership in the four parts of a train's messages, kind by kind. */
  lemma SplitMembership(d: seq<Event>, g: seq<Event>, m: seq<Event>, l: seq<Event>, id: int)
    requires forall e :: e in d ==> e.BaliseSeen?
    requires forall e :: e in g ==> e.RedStop? || e.YellowReduction?
    requires forall e :: e in m ==> e.MaStop? || e.MaBraking?
    requires l == [] || l == [LapRestart(id)]
    ensures RedStop(id) in d + g + m + l <==> RedStop(id) in g
    ensures YellowReduction(id) in d + g + m + l <==> YellowReduction(id) in g
    ensures MaStop(id) in d + g + m + l <==> MaStop(id) in m
    ensures MaBraking(id) in d + g + m + l <==> MaBraking(id) in m
    ensures LapRestart(id) in d + g + m + l <==> l != []
  {
  }

  /** The protection keeps the speed within `[0, maxSpeed]` and the train on the line. */
  lemma UpdateKeepsRange(t: Train, blocks: seq<Block>, balises: seq<Balise>)
    requires 0 <= t.speed <= t.maxSpeed
    requires 0.0 <= t.position
    ensures InRange(UpdateTrain(t, blocks, balises).0)
  {
  }

  /** Balises never change the train: its new speed and position are the
      same whatever balises lie on the line. */
  lemma BaliseNeverChangesTrain(t: Train, blocks: seq<Block>, b1: seq<Balise>, b2: seq<Balise>)
    ensures UpdateTrain(t, blocks, b1).0 == UpdateTrain(t, blocks, b2).0
  {
  }

  /** Balises only add a log entry: the messages are the detection message,
      if any, followed by the messages the update logs with no balises at all. */
  lemma BaliseOnlyLogs(t: Train, blocks: seq<Block>, balises: seq<Balise>)
    ensures UpdateTrain(t, blocks, balises).1 == DetectionEvents(t, balises) + UpdateTrain(t, blocks, []).1
  {
  }

  /** The detection message is logged exactly when the first near balise is
      within 1 m, and it carries that balise's limit. */
  lemma DetectionLogged(t: Train, blocks: seq<Block>, balises: seq<Balise>)
    ensures var r := UpdateTrain(t, blocks, balises);
      Detected(balises, t.position) ==>
        BaliseSeen(t.id, balises[NearBalise(balises, t.position).value].speedLimit) in r.1
    ensures var r := UpdateTrain(t, blocks, balises);
      !Detected(balises, t.position) ==> forall e :: e in r.1 ==> !e.BaliseSeen?
  {
  }

  /** A red aspect ahead takes 5 km/h off, floored at 0 (the
      movement-authority rule may take more); the stop warning fires exactly when that
      brings a moving train to 0. */
  lemma RedAspectBrakes(t: Train, blocks: seq<Block>, balises: seq<Balise>)
    requires AheadAspect(blocks, t.position) == Some(Red)
    ensures t.ma >= 50.0 ==> UpdateTrain(t, blocks, balises).0.speed == Max(0, t.speed - 5)
    ensures var r := UpdateTrain(t, blocks, balises);
      RedStop(t.id) in r.1 <==> Max(0, t.speed - 5) == 0 && t.speed > 0
    ensures YellowReduction(t.id) !in UpdateTrain(t, blocks, balises).1
  {
    UpdateTrainParts(t, blocks, balises);
  }

  /** A yellow aspect ahead caps the speed at 60 (the movement-authority
      rule may take more); the warning fires exactly when the speed was above 60. */
  lemma YellowAspectCaps(t: Train, blocks: seq<Block>, balises: seq<Balise>)
    requires AheadAspect(blocks, t.position) == Some(Yellow)
    ensures t.ma >= 50.0 ==> UpdateTrain(t, blocks, balises).0.speed == Min(60, t.speed)
    ensures YellowReduction(t.id) in UpdateTrain(t, blocks, balises).1 <==> t.speed > 60
    ensures RedStop(t.id) !in UpdateTrain(t, blocks, balises).1
  {
    UpdateTrainParts(t, blocks, balises);
  }

  /** With a green block ahead, or none, the train gains 2 km/h up to its
      maximum; a train at or above its maximum keeps its speed. */
  lemma ClearAspectAccelerates(t: Train, blocks: seq<Block>, balises: seq<Balise>)
    requires AheadAspect(blocks, t.position) !in {Some(Red), Some(Yellow)}
    ensures t.ma >= 50.0 ==>
              UpdateTrain(t, blocks, balises).0.speed == if t.speed < t.maxSpeed then Min(t.maxSpeed, t.speed + 2) else t.speed
    ensures RedStop(t.id) !in UpdateTrain(t, blocks, balises).1
    ensures YellowReduction(t.id) !in UpdateTrain(t, blocks, balises).1
  {
    UpdateTrainParts(t, blocks, balises);
  }

  /** The movement-authority rule fires iff `ma < 50`, wherever the train is;
      it takes a further 3 km/h off, floored at 0. Its stop warning fires when
      the result is 0 and the train was above 5 km/h; otherwise its braking
      warning fires when the train was above 10 km/h and lost more than 2. */
  lemma MovementAuthorityRule(t: Train, blocks: seq<Block>, balises: seq<Balise>)
    ensures var s := SignalSpeed(t.speed, t.maxSpeed, AheadAspect(blocks, t.position));
      UpdateTrain(t, blocks, balises).0.speed == if t.ma < 50.0 then Max(0, s - 3) else s
    ensures var v := UpdateTrain(t, blocks, balises).0.speed;
      MaStop(t.id) in UpdateTrain(t, blocks, balises).1 <==> t.ma < 50.0 && v == 0 && t.speed > 5
    ensures var v := UpdateTrain(t, blocks, balises).0.speed;
      MaBraking(t.id) in UpdateTrain(t, blocks, balises).1 <==>
        t.ma < 50.0 && !(v == 0 && t.speed > 5) && t.speed > 10 && v < t.speed - 2
  {
    UpdateTrainParts(t, blocks, balises);
  }

  /** After the update the train is either `speed/36` metres further on and
      at most at the end of the line, or back at exactly 50 m with a lap
      restart logged. Identity, maximum speed and authority do not change. */
  lemma AdvanceOrWrap(t: Train, blocks: seq<Block>, balises: seq<Balise>)
    ensures var r := UpdateTrain(t, blocks, balises);
      r.0.id == t.id && r.0.maxSpeed == t.maxSpeed && r.0.ma == t.ma
    ensures var r := UpdateTrain(t, blocks, balises);
      r.0.position <= LineEnd
    ensures var r := UpdateTrain(t, blocks, balises);
      var moved := t.position + r.0.speed as real / 36.0;
      (LapRestart(t.id) in r.1 <==> moved > LineEnd) &&
      (if moved > LineEnd then r.0.position == RestartPosition else r.0.position == moved)
  {
    UpdateTrainParts(t, blocks, balises);
  }

  /** Every train is updated against the same pre-tick blocks; the range
      invariant holds for all trains after the tick. */
  lemma {:induction false} UpdateTrainsKeepRange(ts: seq<Train>, blocks: seq<Block>, balises: seq<Balise>)
    requires forall i :: 0 <= i < |ts| ==> InRange(ts[i])
    ensures forall i :: 0 <= i < |ts| ==> InRange(UpdateTrains(ts, blocks, balises).0[i])
  {
    forall i | 0 <= i < |ts|
      ensures InRange(UpdateTrains(ts, blocks, balises).0[i])
    {
      UpdateKeepsRange(ts[i], blocks, balises);
    }
  }
}
