/** The events the engine emits and the bounded log they are written to. */
module EventLog {
  import opened RailTypes

  /** One log entry. Messages are tagged by kind; train events carry the
      train's id, block events the block's id. Timestamps are not modelled. */
  datatype Event =
    | BaliseSeen(train: int, speedLimit: int)   // a balise within 1 m
    | RedStop(train: int)                       // ATP stop at a red signal
    | YellowReduction(train: int)               // ATP speed reduction at a yellow signal
    | MaStop(train: int)                        // stop at the movement-authority limit
    | MaBraking(train: int)                     // braking approaching the movement-authority limit
    | LapRestart(train: int)                    // the train went past the end of the line
    | BlockOccupied(block: int)                 // a block went from free to occupied
    | ScenarioLoaded(scenario: Scenario)        // a preset was loaded

  datatype Severity = Info | Warning

  /** The entry type each message is logged with. */
  function SeverityOf(e: Event): (s: Severity)
    ensures s == Warning <==> e.RedStop? || e.YellowReduction? || e.MaStop? || e.MaBraking?
  {
    match e
    case RedStop(_) => Warning
    case YellowReduction(_) => Warning
    case MaStop(_) => Warning
    case MaBraking(_) => Warning
    case _ => Info
  }

  /** The log keeps at most this many entries. */
  const Capacity: nat := 15

  function Min(a: int, b: int): int { if a <= b then a else b }

  /** The log after one `addLog`: the new entry first, then the previous
      entries, newest first, cut to the capacity. */
  function Prepend(log: seq<Event>, e: Event): (r: seq<Event>)
    ensures |r| == Min(Capacity, |log| + 1)
    ensures r[0] == e
    ensures r[1..] == log[..|r| - 1]
  {
    ([e] + log)[..Min(Capacity, |log| + 1)]
  }

  /** The log after adding the events `es` one at a time, in order. */
  function Logged(log: seq<Event>, es: seq<Event>): seq<Event>
  {
    if es == [] then log
    else Prepend(Logged(log, es[..|es| - 1]), es[|es| - 1])
  }

  function Reversed(s: seq<Event>): (r: seq<Event>)
    ensures |r| == |s|
    ensures forall i :: 0 <= i < |s| ==> r[i] == s[|s| - 1 - i]
  {
    if s == [] then [] else [s[|s| - 1]] + Reversed(s[..|s| - 1])
  }

  /** Adding one more event is one more `addLog`. */
  lemma LoggedSnoc(log: seq<Event>, es: seq<Event>, e: Event)
    ensures Logged(log, es + [e]) == Prepend(Logged(log, es), e)
  {
    assert (es + [e])[..|es|] == es;
  }

  /** Adding one batch of events and then another is adding both in order. */
  lemma {:induction false} LoggedAppend(log: seq<Event>, es: seq<Event>, fs: seq<Event>)
    ensures Logged(log, es + fs) == Logged(Logged(log, es), fs)
  {
    if fs == [] {
      assert es + fs == es;
    } else {
      assert (es + fs)[..|es + fs| - 1] == es + fs[..|fs| - 1];
      LoggedAppend(log, es, fs[..|fs| - 1]);
    }
  }

  /** The log holds the newest events first, at most `Capacity` of them,
      and beyond the batch its entries are the previous log in order.
      (A log of at most `Capacity` entries is all `addLog` ever builds.) */
  lemma {:induction false} LoggedNewestFirst(log: seq<Event>, es: seq<Event>)
    requires |log| <= Capacity
    ensures Logged(log, es) == (Reversed(es) + log)[..Min(Capacity, |es| + |log|)]
  {
    if es != [] {
      var init := es[..|es| - 1];
      var e := es[|es| - 1];
      LoggedNewestFirst(log, init);
      var before := (Reversed(init) + log)[..Min(Capacity, |init| + |log|)];
      assert Reversed(es) == [e] + Reversed(init);
      var whole := [e] + Reversed(init) + log;
      var m := Min(Capacity, |es| + |log|);
      assert [e] + before == whole[..Min(Capacity, |init| + |log|) + 1];
      assert Logged(log, es) == ([e] + before)[..m];
      assert ([e] + before)[..m] == whole[..m];
      assert whole == Reversed(es) + log;
    }
  }

  /** Consequences for the displayed log: it never exceeds the capacity and
      the most recent event is always its first entry. */
  lemma LoggedBounded(log: seq<Event>, es: seq<Event>)
    requires |log| <= Capacity
    ensures |Logged(log, es)| <= Capacity
    ensures es != [] ==> Logged(log, es)[0] == es[|es| - 1]
  {
    LoggedNewestFirst(log, es);
  }
}
