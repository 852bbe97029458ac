/** The base-runner tracker of the analyzer: a map from runner name to base
    (1, 2, 3, or 4 for home) that `updateRunnersWithTracking` updates in place,
    line by line, while counting the outs of one at-bat; and `isRISP`, the test
    for a runner on second or third.

    Each log line is first read by `Scan` into what the five patterns and the out
    keywords find in it; the tracker itself is a state machine over those events. */
module Runners {
  import opened Text
  import opened Patterns
  import opened Outcome

  /** `baseToNumber`: anything that is not "1st", "2nd" or "3rd" (in practice
      "home") counts as 4. */
  function BaseToNumber(base: string): (n: int)
    ensures 1 <= n <= 4
  {
    if base == "1st" then 1 else if base == "2nd" then 2 else if base == "3rd" then 3 else 4
  }

  /** The base word the patterns use for each base number. */
  function BaseWord(n: int): string
    requires 1 <= n <= 4
  {
    if n == 1 then "1st" else if n == 2 then "2nd" else if n == 3 then "3rd" else "home"
  }

  /** `baseToNumber` inverts the spelling of the base words. */
  lemma BaseNumberRoundTrip(n: int)
    requires 1 <= n <= 4
    ensures BaseToNumber(BaseWord(n)) == n
  {
  }

  /** Every stored base is one of 1, 2, 3, 4. */
  ghost predicate ValidBases(m: map<string, int>) {
    forall name :: name in m ==> 1 <= m[name] <= 4
  }

  /** A runner on second or third: the situation `isRISP` looks for. */
  ghost predicate InScoringPosition(m: map<string, int>) {
    exists name :: name in m && (m[name] == 2 || m[name] == 3)
  }

  /** The keywords after which a log line counts as an out. */
  predicate OutKeyword(line: string) {
    || Contains(line, "flied out")
    || Contains(line, "lined out")
    || Contains(line, "popped out")
    || Contains(line, "grounded into a double play")
    || Contains(line, "grounded out")
    || Contains(line, "strikes")
    || Contains(line, "was called out")
    || Contains(line, "sacrificed to")
    || Contains(line, "sacrifice fly")
    || Contains(line, "struck out")
  }

  // ----- the events of one line -----

  /** A runner sent to a base. */
  datatype Move = Move(runner: string, base: int)

  /** What the tracker's patterns find in one log line. */
  datatype LineEvent = LineEvent(
    advance: Option<Move>,        // `<name> advances to <base>`
    scored: Option<string>,       // `<name> scores`
    out: Option<string>,          // `<name> out`
    pinchRunner: Option<string>,  // `<name> pinch runs for ...`
    steal: Option<Move>,          // `<name> stole <base>`
    outKeyword: bool)             // one of the out keywords occurs

  /** A line records an out for the at-bat. */
  predicate CountsOut(e: LineEvent) {
    e.out.Some? || e.outKeyword
  }

  /** `<name> advances to <base>`: the runner and the base as a number. */
  function AdvanceIn(line: string): (r: Option<Move>)
    ensures r.Some? ==> 1 <= r.value.base <= 4
  {
    var m := Match(Advances, line);
    if m.Some? then Some(Move(m.value.name, BaseToNumber(CapturedBase(Advances, line, m.value.end)))) else None
  }

  /** `<name> scores` */
  function ScoredIn(line: string): Option<string> {
    var m := Match(Scores, line);
    if m.Some? then Some(m.value.name) else None
  }

  /** `<name> out` */
  function OutIn(line: string): Option<string> {
    var m := Match(OutAt, line);
    if m.Some? then Some(m.value.name) else None
  }

  /** `<name> pinch runs for ...`: the pinch runner's name. */
  function PinchRunnerIn(line: string): Option<string> {
    var m := Match(PinchRuns, line);
    if m.Some? then Some(m.value.name) else None
  }

  /** `<name> stole <base>`: a steal is never to first base. */
  function StealIn(line: string): (r: Option<Move>)
    ensures r.Some? ==> 2 <= r.value.base <= 4
  {
    var m := Match(Stole, line);
    if m.Some? then Some(Move(m.value.name, BaseToNumber(CapturedBase(Stole, line, m.value.end)))) else None
  }

  /** The events of one line, each pattern matched on its own. */
  function Scan(line: string): (e: LineEvent)
    ensures e.advance.Some? ==> 1 <= e.advance.value.base <= 4
    ensures e.steal.Some? ==> 2 <= e.steal.value.base <= 4
    ensures e.outKeyword <==> OutKeyword(line)
  {
    LineEvent(AdvanceIn(line), ScoredIn(line), OutIn(line), PinchRunnerIn(line), StealIn(line), OutKeyword(line))
  }

  /** The events of every line of a log, in order. */
  function ScanAll(log: seq<string>): (es: seq<LineEvent>)
    ensures |es| == |log|
  {
    seq(|log|, i requires 0 <= i < |log| => Scan(log[i]))
  }

  /** Every base the events name is 1 to 4. */
  ghost predicate EventsValid(es: seq<LineEvent>) {
    forall i :: 0 <= i < |es| ==>
      && (es[i].advance.Some? ==> 1 <= es[i].advance.value.base <= 4)
      && (es[i].steal.Some? ==> 1 <= es[i].steal.value.base <= 4)
  }

  // ----- the tracker as a state machine over events -----

  /** The tracker's state while it reads the lines of one at-bat. */
  datatype Tracking = Tracking(runners: map<string, int>, batter: string, outs: nat)

  /** One pass of the line loop of `updateRunnersWithTracking`: advance, score,
      out, pinch runner and steal, in the order the code applies them; one more
      out when the line records one. */
  function TrackEvent(st: Tracking, e: LineEvent): Tracking {
    var r1 := if e.advance.Some? then st.runners[e.advance.value.runner := e.advance.value.base] else st.runners;
    var r2 := if e.scored.Some? then r1 - {e.scored.value} else r1;
    var r3 := if e.out.Some? then r2 - {e.out.value} else r2;
    var batter := if e.pinchRunner.Some? then e.pinchRunner.value else st.batter;
    var r4 := if e.steal.Some? then r3[e.steal.value.runner := e.steal.value.base] else r3;
    Tracking(r4, batter, st.outs + if CountsOut(e) then 1 else 0)
  }

  /** The line loop over a whole log, left to right. */
  function TrackEvents(st: Tracking, es: seq<LineEvent>): Tracking {
    if es == [] then st else TrackEvent(TrackEvents(st, es[..|es| - 1]), es[|es| - 1])
  }

  /** After the loop, the batter (normalised, and renamed by a pinch runner) is
      put on base unless already on it: first for a single or a walk, second for
      a double, third for a triple. */
  function PlaceBatter(m: map<string, int>, batter: string, result: AtBatResult): map<string, int> {
    if batter in m then m
    else if result == Single || result == Walk then m[batter := 1]
    else if result == Double then m[batter := 2]
    else if result == Triple then m[batter := 3]
    else m
  }

  /** The runner map and the outs that `updateRunnersWithTracking` leaves; the
      first line's outcome decides the batter's base. */
  function TrackAtBat(runners: map<string, int>, log: seq<string>, batter: string): (map<string, int>, nat)
    requires |log| >= 1
  {
    var t := TrackEvents(Tracking(runners, batter, 0), ScanAll(log));
    (PlaceBatter(t.runners, Normalize(t.batter), InferResult(log[0])), t.outs)
  }

  // ----- the runner map object -----

  /** The mutable `Map<string, number>` the analyzer threads through a game. */
  class RunnerMap {
    var bases: map<string, int>

    constructor ()
      ensures bases == map[]
    {
      bases := map[];
    }

    /** `runnerMap.set(name, base)` */
    method Set(name: string, base: int)
      modifies this
      ensures bases == old(bases)[name := base]
    {
      bases := bases[name := base];
    }

    /** `runnerMap.delete(name)` */
    method Delete(name: string)
      modifies this
      ensures bases == old(bases) - {name}
    {
      bases := bases - {name};
    }

    /** The placement after the line loop: a batter not yet on base goes to the
        base the first line's outcome gives. */
    method PutBatterOn(batter: string, hitResult: AtBatResult)
      modifies this
      ensures bases == PlaceBatter(old(bases), batter, hitResult)
    {
      if batter !in bases {
        if hitResult == Single {
          Set(batter, 1);
        } else if hitResult == Double {
          Set(batter, 2);
        } else if hitResult == Triple {
          Set(batter, 3);
        } else if hitResult == Walk {
          Set(batter, 1);
        }
      }
    }

    /** `runnerMap.clear()` */
    method Clear()
      modifies this
      ensures bases == map[]
    {
      bases := map[];
    }
  }

  /** The body of the line loop for one line's events: the map is updated in
      place, the tracked batter may be renamed, and an out is counted when the
      line records one. */
  method TrackLine(e: LineEvent, runnerMap: RunnerMap, batter: string, outs: nat)
    returns (batter': string, outs': nat)
    modifies runnerMap
    ensures Tracking(runnerMap.bases, batter', outs') == TrackEvent(Tracking(old(runnerMap.bases), batter, outs), e)
  {
    var isOut := false;
    if e.advance.Some? {
      runnerMap.Set(e.advance.value.runner, e.advance.value.base);
    }
    if e.scored.Some? {
      runnerMap.Delete(e.scored.value);
    }
    if e.out.Some? {
      runnerMap.Delete(e.out.value);
      isOut := true;
    }
    batter' := batter;
    if e.pinchRunner.Some? {
      batter' := e.pinchRunner.value;
    }
    if e.steal.Some? {
      runnerMap.Set(e.steal.value.runner, e.steal.value.base);
    }
    if e.outKeyword {
      isOut := true;
    }
    outs' := if isOut then outs + 1 else outs;
  }

  /** The line loop of `updateRunnersWithTracking` over the events of the
      at-bat's lines: the map is updated in place; the tracked batter and the
      outs counted are returned. */
  method TrackLines(es: seq<LineEvent>, batter: string, runnerMap: RunnerMap)
    returns (current: string, outs: nat)
    modifies runnerMap
    ensures Tracking(runnerMap.bases, current, outs) == TrackEvents(Tracking(old(runnerMap.bases), batter, 0), es)
  {
    outs := 0;
    current := batter;
    ghost var start := Tracking(runnerMap.bases, batter, 0);
    var i := 0;
    while i < |es|
      invariant 0 <= i <= |es|
      invariant Tracking(runnerMap.bases, current, outs) == TrackEvents(start, es[..i])
    {
      current, outs := TrackLine(es[i], runnerMap, current, outs);
      assert es[..i + 1][..i] == es[..i];
      i := i + 1;
    }
    assert es[..i] == es;
  }

  /** `updateRunnersWithTracking(atBatLog, batter, runnerMap)`: updates the map in
      place and returns the outs of this at-bat. */
  method UpdateRunnersWithTracking(log: seq<string>, batter: string, runnerMap: RunnerMap)
    returns (outsThisAtBat: nat)
    requires |log| >= 1
    modifies runnerMap
    ensures (runnerMap.bases, outsThisAtBat) == TrackAtBat(old(runnerMap.bases), log, batter)
  {
    var current;
    current, outsThisAtBat := TrackLines(ScanAll(log), batter, runnerMap);
    runnerMap.PutBatterOn(Normalize(current), InferResult(log[0]));
  }

  /** `isRISP(runnerMap)`: scans the entries and stops at the first runner on
      second or third. */
  method IsRISP(runners: map<string, int>) returns (risp: bool)
    ensures risp <==> InScoringPosition(runners)
  {
    var unseen := runners.Keys;
    while unseen != {}
      invariant unseen <= runners.Keys
      invariant forall name :: name in runners && name !in unseen ==> runners[name] != 2 && runners[name] != 3
      decreases unseen
    {
      var name :| name in unseen;
      if runners[name] == 2 || runners[name] == 3 {
        return true;
      }
      unseen := unseen - {name};
    }
    return false;
  }

  // ----- properties of the tracker -----

  /** The number of lines that record an out, counted apart from the tracker. */
  function CountOuts(es: seq<LineEvent>): (n: nat)
    ensures n <= |es|
  {
    if es == [] then 0 else CountOuts(es[..|es| - 1]) + (if CountsOut(es[|es| - 1]) then 1 else 0)
  }

  /** Each line adds at most one out: the outs are exactly the lines that record one. */
  lemma {:induction false} TrackEventsCountsOuts(st: Tracking, es: seq<LineEvent>)
    ensures TrackEvents(st, es).outs == st.outs + CountOuts(es)
  {
    if es != [] {
      TrackEventsCountsOuts(st, es[..|es| - 1]);
    }
  }

  /** `updateRunnersWithTracking` returns the number of lines that record an out,
      so never more outs than the at-bat has lines. */
  lemma OutsAtMostLines(runners: map<string, int>, log: seq<string>, batter: string)
    requires |log| >= 1
    ensures TrackAtBat(runners, log, batter).1 == CountOuts(ScanAll(log)) <= |log|
  {
    TrackEventsCountsOuts(Tracking(runners, batter, 0), ScanAll(log));
  }

  /** The line loop only stores the bases the events name. */
  lemma {:induction false} TrackEventsKeepsBases(st: Tracking, es: seq<LineEvent>)
    requires ValidBases(st.runners) && EventsValid(es)
    ensures ValidBases(TrackEvents(st, es).runners)
  {
    if es != [] {
      assert EventsValid(es[..|es| - 1]);
      TrackEventsKeepsBases(st, es[..|es| - 1]);
    }
  }

  /** The batter is only ever placed on first, second or third. */
  lemma PlaceBatterKeepsBases(m: map<string, int>, batter: string, r: AtBatResult)
    requires ValidBases(m)
    ensures ValidBases(PlaceBatter(m, batter, r))
  {
  }

  /** Every base a line names is 1 to 4. */
  lemma ScanAllValid(log: seq<string>)
    ensures EventsValid(ScanAll(log))
  {
    var es := ScanAll(log);
    forall i | 0 <= i < |es|
      ensures es[i].advance.Some? ==> 1 <= es[i].advance.value.base <= 4
      ensures es[i].steal.Some? ==> 1 <= es[i].steal.value.base <= 4
    {
      assert es[i] == Scan(log[i]);
    }
  }

  /** Every base the tracker stores is in {1, 2, 3, 4}. */
  lemma TrackAtBatKeepsBases(runners: map<string, int>, log: seq<string>, batter: string)
    requires |log| >= 1
    requires ValidBases(runners)
    ensures ValidBases(TrackAtBat(runners, log, batter).0)
  {
    var es := ScanAll(log);
    var t := TrackEvents(Tracking(runners, batter, 0), es);
    ScanAllValid(log);
    TrackEventsKeepsBases(Tracking(runners, batter, 0), es);
    PlaceBatterKeepsBases(t.runners, Normalize(t.batter), InferResult(log[0]));
  }

  /** The final batter placement: a batter already on base keeps the base the log
      gave them; otherwise a single or walk puts them on first, a double on second,
      a triple on third, and any other result adds no one. No other runner moves. */
  lemma BatterPlacement(m: map<string, int>, batter: string, r: AtBatResult)
    ensures var m' := PlaceBatter(m, batter, r);
            && m'.Keys == m.Keys + (if batter !in m && r in {Single, Double, Triple, Walk} then {batter} else {})
            && (forall name :: name in m ==> m'[name] == m[name])
            && (batter !in m && r in {Single, Walk} ==> m'[batter] == 1)
            && (batter !in m && r == Double ==> m'[batter] == 2)
            && (batter !in m && r == Triple ==> m'[batter] == 3)
  {
  }

  /** The batter the placement puts on base is the one named by the last
      "pinch runs for" line, or the original batter when there is none. */
  lemma {:induction false} TrackedBatter(st: Tracking, es: seq<LineEvent>)
    ensures var b := TrackEvents(st, es).batter;
            || (b == st.batter && forall i :: 0 <= i < |es| ==> es[i].pinchRunner.None?)
            || (exists i :: 0 <= i < |es| && es[i].pinchRunner == Some(b)
                  && forall j :: i < j < |es| ==> es[j].pinchRunner.None?)
  {
    if es != [] {
      var init := es[..|es| - 1];
      TrackedBatter(st, init);
      var b := TrackEvents(st, es).batter;
      if es[|es| - 1].pinchRunner.None? && !(b == st.batter && forall i :: 0 <= i < |es| ==> es[i].pinchRunner.None?) {
        var i :| 0 <= i < |init| && init[i].pinchRunner == Some(b)
                 && forall j :: i < j < |init| ==> init[j].pinchRunner.None?;
        assert es[i] == init[i];
      }
    }
  }

  /** The batter the line loop ends with: the last pinch runner named, else
      the batter it started with. */
  function FinalBatter(batter: string, es: seq<LineEvent>): string {
    if es == [] then batter
    else if es[|es| - 1].pinchRunner.Some? then es[|es| - 1].pinchRunner.value
    else FinalBatter(batter, es[..|es| - 1])
  }

  /** The tracked batter depends only on the lines, not on the runners. */
  lemma {:induction false} TrackEventsBatter(st: Tracking, es: seq<LineEvent>)
    ensures TrackEvents(st, es).batter == FinalBatter(st.batter, es)
  {
    if es != [] {
      TrackEventsBatter(st, es[..|es| - 1]);
    }
  }

  /** Runners the at-bat's lines never mention keep their base through the loop. */
  lemma {:induction false} UnmentionedRunnerStays(st: Tracking, es: seq<LineEvent>, name: string)
    requires forall i :: 0 <= i < |es| ==> !Mentions(es[i], name)
    ensures name in TrackEvents(st, es).runners <==> name in st.runners
    ensures name in st.runners ==> TrackEvents(st, es).runners[name] == st.runners[name]
  {
    if es != [] {
      UnmentionedRunnerStays(st, es[..|es| - 1], name);
    }
  }

  /** The line names `name` as a runner who advances, scores, is out or steals. */
  predicate Mentions(e: LineEvent, name: string) {
    || (e.advance.Some? && e.advance.value.runner == name)
    || e.scored == Some(name)
    || e.out == Some(name)
    || (e.steal.Some? && e.steal.value.runner == name)
  }

  /** A runner who scores or is put out is off the bases after that line, unless
      a later pattern of the same line (a steal) puts them back. */
  lemma ScoredRunnerLeaves(st: Tracking, e: LineEvent)
    requires e.scored.Some? || e.out.Some?
    requires e.steal.None?
    ensures e.scored.Some? ==> e.scored.value !in TrackEvent(st, e).runners
    ensures e.out.Some? ==> e.out.value !in TrackEvent(st, e).runners
  {
  }
}
