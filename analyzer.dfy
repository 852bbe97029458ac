/** The analysis of one game as `analyze` runs it: each raw at-bat is analysed
    against a snapshot of the runners (`analyzeAtBat`, `countRBI`), the runner map
    and the out counter are carried from at-bat to at-bat (three outs end the
    half-inning and clear the bases), the at-bats are dealt to the two players
    and tagged with their owner, each player's counters are aggregated, and the
    hit and run totals are checked against the line score. */
module Analyzer {
  import opened Text
  import opened Outcome
  import opened Records
  import opened Patterns
  import opened Runners
  import opened Segmenter
  import opened Ownership
  import opened Stats

  // ------------------------------------------------------------ one at-bat

  /** The number of lines among the first `m` of the log that contain "scores". */
  function ScoringLines(log: seq<string>, m: nat): (n: nat)
    requires m <= |log|
    ensures n <= m
  {
    if m == 0 then 0 else ScoringLines(log, m - 1) + (if Contains(log[m - 1], "scores") then 1 else 0)
  }

  /** `countRBI(atBatLog)`: the lines of the at-bat that contain "scores". */
  function CountRBI(log: seq<string>): (n: nat)
    ensures n <= |log|
  {
    ScoringLines(log, |log|)
  }

  /** No run is counted exactly when no line mentions a runner scoring. */
  lemma {:induction false} ScoringLinesNone(log: seq<string>, m: nat)
    requires m <= |log|
    ensures ScoringLines(log, m) == 0 <==> forall i :: 0 <= i < m ==> !Contains(log[i], "scores")
  {
    if m > 0 {
      ScoringLinesNone(log, m - 1);
    }
  }

  /** Every line is counted exactly when every line mentions a runner scoring. */
  lemma {:induction false} ScoringLinesAll(log: seq<string>, m: nat)
    requires m <= |log|
    ensures ScoringLines(log, m) == m <==> forall i :: 0 <= i < m ==> Contains(log[i], "scores")
  {
    if m > 0 {
      ScoringLinesAll(log, m - 1);
    }
  }

  /** What `analyzeAtBat` returns besides the raw at-bat's own fields. */
  datatype AtBatAnalysis = AtBatAnalysis(result: AtBatResult, rbi: nat, risp: bool, runnersBefore: map<string, int>)

  /** `analyzeAtBat(batter, atBatLog, runnerMap)`: the outcome of the first line,
      the runs batted in (one more for a home run, the batter's own run), and
      whether the snapshot of the runners it is given has a runner on second or
      third. The snapshot is returned unchanged as the runners before the at-bat. */
  method AnalyzeAtBat(batter: string, log: seq<string>, runnerMap: map<string, int>) returns (a: AtBatAnalysis)
    requires |log| >= 1
    ensures a.result == InferResult(log[0])
    ensures a.rbi == CountRBI(log) + (if a.result == HomeRun then 1 else 0)
    ensures a.risp <==> InScoringPosition(runnerMap)
    ensures a.runnersBefore == runnerMap
  {
    var result := InferResult(log[0]);
    var rbi := if result == HomeRun then CountRBI(log) + 1 else CountRBI(log);
    var runnersBeforeMap := runnerMap;
    var risp := IsRISP(runnersBeforeMap);
    a := AtBatAnalysis(result, rbi, risp, runnersBeforeMap);
  }

  /** The runs batted in of an at-bat: none exactly when it is not a home run
      and no line has a runner scoring; a home run always drives in at least
      the batter; never more than one per line plus the batter. */
  lemma RbiBounds(log: seq<string>, result: AtBatResult)
    ensures var rbi := CountRBI(log) + (if result == HomeRun then 1 else 0);
            && rbi <= |log| + 1
            && (result == HomeRun ==> rbi >= 1)
            && (rbi == 0 <==> result != HomeRun && forall i :: 0 <= i < |log| ==> !Contains(log[i], "scores"))
  {
    ScoringLinesNone(log, |log|);
  }

  // ------------------------------------------------------ the at-bat loop

  /** The runner map and the out counter carried between at-bats. */
  datatype GameState = GameState(runners: map<string, int>, outs: nat)

  /** Every raw at-bat has a first line to classify. */
  ghost predicate Logged(raws: seq<RawAtBat>) {
    forall i :: 0 <= i < |raws| ==> |raws[i].log| >= 1
  }

  /** A raw at-bat with its lines read once: the outcome of the first line, the
      runs batted in (one more for a home run), the event of every line, and the
      name the batter is put on base under at the end (the last pinch runner the
      lines name, else the batter, with its spaces normalised). */
  datatype AtBatToken = AtBatToken(raw: RawAtBat, result: AtBatResult, rbi: nat, events: seq<LineEvent>, placed: string)

  function Tokenize(raw: RawAtBat): (t: AtBatToken)
    requires |raw.log| >= 1
    ensures t.raw == raw && |t.events| == |raw.log|
  {
    var result := InferResult(raw.log[0]);
    var events := ScanAll(raw.log);
    AtBatToken(raw, result, CountRBI(raw.log) + (if result == HomeRun then 1 else 0), events,
               Normalize(FinalBatter(raw.batter, events)))
  }

  /** The raw at-bats of the game, read. */
  function Tokens(raws: seq<RawAtBat>): (ts: seq<AtBatToken>)
    requires Logged(raws)
    ensures |ts| == |raws|
  {
    seq(|raws|, i requires 0 <= i < |raws| => Tokenize(raws[i]))
  }

  /** What the tracker makes of an at-bat's lines: the map after them, with the
      batter (or the last pinch runner) placed, and the outs they record. */
  function Track(runners: map<string, int>, t: AtBatToken): (map<string, int>, nat) {
    var tr := TrackEvents(Tracking(runners, t.raw.batter, 0), t.events);
    (PlaceBatter(tr.runners, t.placed, t.result), tr.outs)
  }

  /** Reading the lines first tracks them as the tracker does. */
  lemma TrackToken(runners: map<string, int>, raw: RawAtBat)
    requires |raw.log| >= 1
    ensures Track(runners, Tokenize(raw)) == TrackAtBat(runners, raw.log, raw.batter)
  {
    TrackEventsBatter(Tracking(runners, raw.batter, 0), ScanAll(raw.log));
  }

  /** The analysed at-bat: the raw fields, the outcome and runs batted in, the
      snapshot of the runners, and the outs before it. */
  ghost function Event(t: AtBatToken, st: GameState): (e: AtBatEvent)
    ensures e.batter == t.raw.batter && e.inning == t.raw.inning && e.isTopInning == t.raw.isTopInning
    ensures e.log == t.raw.log && e.result == t.result && e.rbi == t.rbi
    ensures e.runnersBefore == st.runners && e.outsBefore == st.outs
    ensures e.risp <==> InScoringPosition(st.runners)
  {
    AtBatEvent(t.raw.batter, t.raw.inning, t.raw.isTopInning, t.raw.log, t.result, t.rbi,
               InScoringPosition(st.runners), st.runners, st.outs)
  }

  /** The state after an at-bat: the tracker's map and the outs so far, or an
      empty map and no outs once three outs are reached. */
  function After(t: AtBatToken, st: GameState): GameState {
    var (runners, outsThisAB) := Track(st.runners, t);
    var outs := st.outs + outsThisAB;
    if outs >= 3 then GameState(map[], 0) else GameState(runners, outs)
  }

  /** The state the loop of `analyze` reaches after the first `n` at-bats, from
      an empty map and no outs. */
  function StateAfter(ts: seq<AtBatToken>, n: nat): GameState
    requires n <= |ts|
  {
    if n == 0 then GameState(map[], 0) else After(ts[n - 1], StateAfter(ts, n - 1))
  }

  /** The first `n` analysed at-bats: each one analysed against the state the
      loop reached after the at-bats before it. */
  ghost function EventsTo(ts: seq<AtBatToken>, n: nat): (e: seq<AtBatEvent>)
    requires n <= |ts|
    ensures |e| == n
  {
    if n == 0 then [] else EventsTo(ts, n - 1) + [Event(ts[n - 1], StateAfter(ts, n - 1))]
  }

  /** The analysed at-bats of the whole game. */
  ghost function Replay(ts: seq<AtBatToken>): (e: seq<AtBatEvent>)
    ensures |e| == |ts|
  {
    EventsTo(ts, |ts|)
  }

  /** The `i`-th analysed at-bat is the `i`-th token analysed against the state
      reached after the at-bats before it, however many follow it. */
  lemma {:induction false} EventsToAt(ts: seq<AtBatToken>, n: nat, i: nat)
    requires i < n <= |ts|
    ensures EventsTo(ts, n)[i] == Event(ts[i], StateAfter(ts, i))
  {
    if i < n - 1 {
      EventsToAt(ts, n - 1, i);
    }
  }

  /** The loop of `analyze`: a snapshot of the map is analysed, then the tracker
      updates the map in place and the outs are added; at three outs the counter
      is reset and the map cleared. */
  method AnalyzeAtBats(ts: seq<AtBatToken>) returns (atBats: seq<AtBatEvent>)
    ensures atBats == Replay(ts)
  {
    var runnerMap := new RunnerMap();
    var outs := 0;
    atBats := [];
    for i := 0 to |ts|
      invariant atBats == EventsTo(ts, i)
      invariant GameState(runnerMap.bases, outs) == StateAfter(ts, i)
    {
      var t := ts[i];
      var runnersBefore := runnerMap.bases;
      var risp := IsRISP(runnersBefore);
      var outsBefore := outs;
      var _, outsThisAB := TrackLines(t.events, t.raw.batter, runnerMap);
      runnerMap.PutBatterOn(t.placed, t.result);
      outs := outs + outsThisAB;
      if outs >= 3 {
        outs := 0;
        runnerMap.Clear();
      }
      var combined := AtBatEvent(t.raw.batter, t.raw.inning, t.raw.isTopInning, t.raw.log,
                                 t.result, t.rbi, risp, runnersBefore, outsBefore);
      atBats := atBats + [combined];
    }
  }

  /** The out counter stays in 0..2 between at-bats. */
  lemma {:induction false} OutsBelowThree(ts: seq<AtBatToken>, n: nat)
    requires n <= |ts|
    ensures StateAfter(ts, n).outs < 3
  {
    if n > 0 {
      OutsBelowThree(ts, n - 1);
    }
  }

  /** Every base the lines of every token name is 1 to 4. */
  ghost predicate Scanned(ts: seq<AtBatToken>) {
    forall i :: 0 <= i < |ts| ==> EventsValid(ts[i].events)
  }

  /** Reading the raw at-bats names only bases 1 to 4. */
  lemma TokensScanned(raws: seq<RawAtBat>)
    requires Logged(raws)
    ensures Scanned(Tokens(raws))
  {
    var ts := Tokens(raws);
    forall i | 0 <= i < |ts|
      ensures EventsValid(ts[i].events)
    {
      assert ts[i] == Tokenize(raws[i]);
      ScanAllValid(raws[i].log);
    }
  }

  /** Every base in the carried map is 1, 2, 3 or 4. */
  lemma {:induction false} StateKeepsBases(ts: seq<AtBatToken>, n: nat)
    requires n <= |ts| && Scanned(ts)
    ensures ValidBases(StateAfter(ts, n).runners)
  {
    if n > 0 {
      var st := StateAfter(ts, n - 1);
      var t := ts[n - 1];
      StateKeepsBases(ts, n - 1);
      var tr := TrackEvents(Tracking(st.runners, t.raw.batter, 0), t.events);
      TrackEventsKeepsBases(Tracking(st.runners, t.raw.batter, 0), t.events);
      PlaceBatterKeepsBases(tr.runners, t.placed, t.result);
    }
  }

  /** Each analysed at-bat keeps its raw fields and its outcome, sees fewer than
      three outs and a map of valid bases before it, and has a runner in scoring
      position exactly when that snapshot does. */
  lemma AnalyzedAtBat(raws: seq<RawAtBat>, i: nat)
    requires i < |raws| && Logged(raws)
    ensures var e := Replay(Tokens(raws))[i];
            && e.batter == raws[i].batter && e.log == raws[i].log && e.inning == raws[i].inning
            && e.isTopInning == raws[i].isTopInning
            && e.result == InferResult(raws[i].log[0])
            && e.rbi == CountRBI(raws[i].log) + (if e.result == HomeRun then 1 else 0)
            && e.outsBefore < 3
            && ValidBases(e.runnersBefore)
            && (e.risp <==> InScoringPosition(e.runnersBefore))
  {
    var ts := Tokens(raws);
    assert ts[i] == Tokenize(raws[i]);
    EventsToAt(ts, |ts|, i);
    OutsBelowThree(ts, i);
    TokensScanned(raws);
    StateKeepsBases(ts, i);
  }

  /** The outs of the next at-bat: the outs before plus the lines of this one
      that record an out; once that reaches three the next at-bat starts with
      no outs and no runners, otherwise with the tracker's map. */
  lemma OutsCarried(raws: seq<RawAtBat>, i: nat)
    requires i + 1 < |raws| && Logged(raws)
    ensures var e := Replay(Tokens(raws));
            var k := CountOuts(ScanAll(raws[i].log));
            && k <= |raws[i].log|
            && (e[i].outsBefore + k >= 3 ==> e[i + 1].outsBefore == 0 && e[i + 1].runnersBefore == map[])
            && (e[i].outsBefore + k < 3 ==>
                  e[i + 1].outsBefore == e[i].outsBefore + k &&
                  e[i + 1].runnersBefore == TrackAtBat(e[i].runnersBefore, raws[i].log, raws[i].batter).0)
  {
    var ts := Tokens(raws);
    var st := StateAfter(ts, i);
    assert ts[i] == Tokenize(raws[i]);
    EventsToAt(ts, |ts|, i);
    EventsToAt(ts, |ts|, i + 1);
    TrackToken(st.runners, raws[i]);
    OutsAtMostLines(st.runners, raws[i].log, raws[i].batter);
  }

  /** The first at-bat of the game sees no runners and no outs. */
  lemma FirstAtBatStartsClean(ts: seq<AtBatToken>)
    requires |ts| >= 1
    ensures Replay(ts)[0].outsBefore == 0
    ensures Replay(ts)[0].runnersBefore == map[]
    ensures !Replay(ts)[0].risp
  {
    EventsToAt(ts, |ts|, 0);
  }

  // ------------------------------------------------------------ owners

  datatype Owner = My | Friend

  /** An analysed at-bat with its owner. */
  datatype Detail = Detail(event: AtBatEvent, owner: Owner)

  /** `atBats.map(...)`: each at-bat is tagged `my` when it is in the user's
      list and `friend` otherwise. */
  function Tag(atBats: seq<AtBatEvent>, my: seq<nat>): (r: seq<Detail>)
    ensures |r| == |atBats|
    ensures forall i :: 0 <= i < |atBats| ==> r[i].event == atBats[i]
  {
    seq(|atBats|, i requires 0 <= i < |atBats| => Detail(atBats[i], if i in my then My else Friend))
  }

  /** In the fallback the tags alternate from the user on. */
  lemma FallbackTags(atBats: seq<AtBatEvent>, side: Option<Side>, haveLineScore: bool, isUserHost: bool, i: nat)
    requires Fallback(side, haveLineScore) && i < |atBats|
    ensures Tag(atBats, Assignment(atBats, side, haveLineScore, isUserHost).0)[i].owner == (if i % 2 == 0 then My else Friend)
  {
    FallbackAlternates(atBats, side, haveLineScore, isUserHost, i);
  }

  /** In team mode an at-bat of the opponent's half-innings is assigned to
      nobody, and the tagging then calls it the teammate's. */
  lemma OpponentAtBatTaggedFriend(atBats: seq<AtBatEvent>, side: Side, isUserHost: bool, i: nat)
    requires i < |atBats| && !MyTeamTurn(atBats[i], side == Home)
    ensures var (my, friend) := Assignment(atBats, Some(side), true, isUserHost);
            i !in my && i !in friend && Tag(atBats, my)[i].owner == Friend
  {
    TeamModeAssignsOwnTurns(atBats, side, isUserHost, i);
  }

  // ------------------------------------------------------------ analyze

  /** The fields of the request `analyze` reads. */
  datatype Request = Request(
    username: string,
    teamName: Option<string>,
    isTeamGame: bool,
    isUserHost: bool,
    isSingleGame: bool,
    teammate: Option<string>,
    teamSide: Option<Side>)

  /** The errors `analyze` throws. The validation's own error cannot arise here:
      the team name is known by the time it runs. */
  datatype AnalysisError = SingleGame | NoTeamName

  /** What `analyze` returns, without the metadata and the logos. */
  datatype Report = Report(
    myStats: BatterStats,
    friendStats: BatterStats,
    validation: ValidationResult,
    details: seq<Detail>,
    my: seq<nat>,
    friend: seq<nat>)

  /** The opponent's team name: the other full name of the line score when the
      user's team is the home team, else the home full name. */
  function Opponent(ls: LineScore, myTeamName: string): (r: string)
    ensures r == ls.awayFullName || r == ls.homeFullName
    ensures myTeamName == ls.homeFullName ==> r == ls.awayFullName
    ensures myTeamName != ls.homeFullName ==> r == ls.homeFullName
  {
    if myTeamName == ls.homeFullName then ls.awayFullName else ls.homeFullName
  }

  /** The raw at-bats of the transcript, parsed for the user's team. */
  function RawAtBats(gameLog: string, ls: LineScore, myTeamName: string): seq<RawAtBat> {
    ParseLog(GameLogLines(gameLog), myTeamName, Opponent(ls, myTeamName))
  }

  /** Every raw at-bat of a transcript has a first line and `isTopInning` false. */
  lemma RawAtBatsLogged(gameLog: string, ls: LineScore, myTeamName: string)
    ensures Logged(RawAtBats(gameLog, ls, myTeamName))
    ensures forall i :: 0 <= i < |RawAtBats(gameLog, ls, myTeamName)| ==> !RawAtBats(gameLog, ls, myTeamName)[i].isTopInning
  {
    var raws := RawAtBats(gameLog, ls, myTeamName);
    ParseLogWellFormed(GameLogLines(gameLog), myTeamName, Opponent(ls, myTeamName));
    assert forall i :: 0 <= i < |raws| ==> raws[i] in raws;
  }

  /** The analysed at-bats of a transcript. */
  ghost function Events(gameLog: string, ls: LineScore, myTeamName: string): (e: seq<AtBatEvent>)
    ensures |e| == |RawAtBats(gameLog, ls, myTeamName)|
  {
    RawAtBatsLogged(gameLog, ls, myTeamName);
    Replay(Tokens(RawAtBats(gameLog, ls, myTeamName)))
  }

  /** The side, line-score presence and host flag ownership is decided on: the
      team game passes all it knows, the 1:1 game nothing. */
  function OwnershipSide(req: Request, ls: LineScore): Option<Side> {
    if req.isTeamGame then DetectTeamSide(req.teamSide, Some(ls), Some(req.username), req.teammate) else None
  }

  /** The report `analyze` builds for a request it accepts. */
  ghost function Analysis(req: Request, ls: LineScore, gameLog: string): Report
    requires !req.isSingleGame && Truthy(req.teamName)
  {
    var events := Events(gameLog, ls, req.teamName.value);
    var (my, friend) := Assignment(events, OwnershipSide(req, ls), req.isTeamGame, req.isTeamGame && req.isUserHost);
    var myStats := Tally(Picked(events, my));
    var friendStats := Tally(Picked(events, friend));
    var detected := DetectTeamSide(req.teamSide, Some(ls), Some(req.username), req.teammate);
    var validation := ValidateWithLineScore(ls, myStats, friendStats, detected, req.teamName);
    Report(myStats, friendStats, validation.value, Tag(events, my), my, friend)
  }

  /** `analyze(dto)` after the game log and line score have been fetched: a CPU
      game and a missing team name are refused; otherwise the transcript is
      parsed, analysed, dealt, tagged, aggregated and validated. */
  method Analyze(req: Request, ls: LineScore, gameLog: string) returns (r: Result<Report, AnalysisError>)
    ensures req.isSingleGame ==> r == Failure(SingleGame)
    ensures !req.isSingleGame && !Truthy(req.teamName) ==> r == Failure(NoTeamName)
    ensures r.Success? <==> !req.isSingleGame && Truthy(req.teamName)
    ensures r.Success? ==> r.value == Analysis(req, ls, gameLog)
  {
    if req.isSingleGame {
      return Failure(SingleGame);
    }
    var opponentTeamName := "";
    if Truthy(req.teamName) {
      opponentTeamName := Opponent(ls, req.teamName.value);
    }
    if !Truthy(req.teamName) {
      return Failure(NoTeamName);
    }
    var myTeamName := req.teamName.value;
    var rawAtBats := ParseAtBats(ReadLines(GameLogLines(gameLog), myTeamName, opponentTeamName));
    RawAtBatsLogged(gameLog, ls, myTeamName);
    var atBats := AnalyzeAtBats(Tokens(rawAtBats));
    var my, friend;
    if req.isTeamGame {
      my, friend := AssignBatterOwnership(atBats, req.teamSide, Some(ls), Some(req.username), req.teammate, Some(req.isUserHost));
    } else {
      my, friend := AssignBatterOwnership(atBats, None, None, None, None, None);
    }
    var details := Tag(atBats, my);
    var myStats := AggregateStats(Picked(atBats, my));
    var friendStats := AggregateStats(Picked(atBats, friend));
    var detectedTeamSide := DetectTeamSide(req.teamSide, Some(ls), Some(req.username), req.teammate);
    var validation := ValidateWithLineScore(ls, myStats, friendStats, detectedTeamSide, req.teamName);
    assert validation.Success?;
    r := Success(Report(myStats, friendStats, validation.value, details, my, friend));
  }

  // ------------------------------------------------ properties of a report

  /** Every analysed at-bat of a report saw fewer than three outs before it. */
  lemma ReportOutsBelowThree(req: Request, ls: LineScore, gameLog: string, i: nat)
    requires !req.isSingleGame && Truthy(req.teamName)
    requires i < |Analysis(req, ls, gameLog).details|
    ensures Analysis(req, ls, gameLog).details[i].event.outsBefore < 3
  {
    var name := req.teamName.value;
    RawAtBatsLogged(gameLog, ls, name);
    AnalyzedAtBat(RawAtBats(gameLog, ls, name), i);
  }

  /** In a 1:1 game the two players' counters add up to those of every at-bat
      of the user's team. */
  lemma OneOnOneStatsAddUp(req: Request, ls: LineScore, gameLog: string)
    requires !req.isSingleGame && Truthy(req.teamName) && !req.isTeamGame
    ensures var rep := Analysis(req, ls, gameLog);
            Add(rep.myStats, rep.friendStats) == Tally(Events(gameLog, ls, req.teamName.value))
  {
    var events := Events(gameLog, ls, req.teamName.value);
    FallbackStatsAddUp(events, None, false, false);
  }

  /** In a team game whose side resolves to away, no at-bat is the user's team's
      turn (every parsed at-bat is a bottom half), so nothing is dealt and both
      players' counters are zero. */
  lemma AwayTeamGameCountsNothing(req: Request, ls: LineScore, gameLog: string)
    requires !req.isSingleGame && Truthy(req.teamName) && req.isTeamGame
    requires OwnershipSide(req, ls) == Some(Away)
    ensures var rep := Analysis(req, ls, gameLog);
            rep.my == [] && rep.friend == [] && rep.myStats == NoStats() && rep.friendStats == NoStats()
  {
    var name := req.teamName.value;
    EventsBottomHalves(gameLog, ls, name);
    AwayDealsNothing(Events(gameLog, ls, name), req.isUserHost);
  }

  /** Every analysed at-bat of a transcript is a bottom half. */
  lemma EventsBottomHalves(gameLog: string, ls: LineScore, myTeamName: string)
    ensures var e := Events(gameLog, ls, myTeamName);
            forall i :: 0 <= i < |e| ==> !e[i].isTopInning
  {
    RawAtBatsLogged(gameLog, ls, myTeamName);
    var raws := RawAtBats(gameLog, ls, myTeamName);
    var ts := Tokens(raws);
    forall i | 0 <= i < |ts|
      ensures !Replay(ts)[i].isTopInning
    {
      EventsToAt(ts, |ts|, i);
      assert ts[i].raw == raws[i];
    }
  }

  /** A team whose side is away deals nothing when every at-bat is a bottom half. */
  lemma AwayDealsNothing(atBats: seq<AtBatEvent>, isUserHost: bool)
    requires forall i :: 0 <= i < |atBats| ==> !atBats[i].isTopInning
    ensures Assignment(atBats, Some(Away), true, isUserHost) == ([], [])
  {
    var flags := TeamTurns(atBats, false);
    NoTurnsDealtNothing(flags, |atBats|, 0);
    NoTurnsDealtNothing(flags, |atBats|, 1);
  }

  /** With no taking-part position nothing is dealt. */
  lemma {:induction false} NoTurnsDealtNothing(flags: seq<bool>, n: nat, k: nat)
    requires n <= |flags| && forall i :: 0 <= i < n ==> !flags[i]
    ensures Dealt(flags, n, k) == []
  {
    if n > 0 {
      NoTurnsDealtNothing(flags, n - 1, k);
    }
  }
}
