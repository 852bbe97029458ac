/** Per-player batting counters (`aggregateStats`) and the check of the two
    players' combined totals against the box score (`validateWithLineScore`). */
module Stats {
  import opened Text
  import opened Outcome
  import opened Records

  /** The integer counters of `BatterStats`; the rates are not modelled. The
      fields are numbers as in the source; `TallyCounts` shows that those of a
      tally are counts, hence never negative. */
  datatype BatterStats = BatterStats(
    atBats: int,
    hits: int,
    homeRuns: int,
    rbis: int,
    walks: int,
    strikeouts: int,
    rispAtBats: int,
    rispHits: int)

  function NoStats(): BatterStats { BatterStats(0, 0, 0, 0, 0, 0, 0, 0) }

  /** Fieldwise sum of two sets of counters. */
  function Add(a: BatterStats, b: BatterStats): BatterStats {
    BatterStats(a.atBats + b.atBats, a.hits + b.hits, a.homeRuns + b.homeRuns, a.rbis + b.rbis,
                a.walks + b.walks, a.strikeouts + b.strikeouts,
                a.rispAtBats + b.rispAtBats, a.rispHits + b.rispHits)
  }

  /** What one at-bat adds to the counters: an official at-bat unless it is a
      walk, a hit for a single to a home run, its RBIs, and the two counters for
      a runner in scoring position. */
  function Delta(ab: AtBatEvent): BatterStats {
    var r := ab.result;
    BatterStats(
      if r != Walk then 1 else 0,
      if IsHit(r) then 1 else 0,
      if r == HomeRun then 1 else 0,
      ab.rbi,
      if r == Walk then 1 else 0,
      if r == Strikeout then 1 else 0,
      if ab.risp then 1 else 0,
      if ab.risp && IsHit(r) then 1 else 0)
  }

  /** The counters over the first `n` at-bats of the list, in list order. */
  function TallyTo(abs: seq<AtBatEvent>, n: nat): BatterStats
    requires n <= |abs|
  {
    if n == 0 then NoStats() else Add(TallyTo(abs, n - 1), Delta(abs[n - 1]))
  }

  /** The counters over a whole list of at-bats. */
  function Tally(abs: seq<AtBatEvent>): BatterStats {
    TallyTo(abs, |abs|)
  }

  /** `aggregateStats(atBats)`, the integer counters. */
  method AggregateStats(abs: seq<AtBatEvent>) returns (stats: BatterStats)
    ensures stats == Tally(abs)
  {
    stats := NoStats();
    for i := 0 to |abs|
      invariant stats == TallyTo(abs, i)
    {
      var ab := abs[i];
      ghost var before := stats;
      if ab.result != Walk { stats := stats.(atBats := stats.atBats + 1); }
      if ab.result == Single || ab.result == Double || ab.result == Triple || ab.result == HomeRun {
        stats := stats.(hits := stats.hits + 1);
      }
      if ab.result == HomeRun { stats := stats.(homeRuns := stats.homeRuns + 1); }
      if ab.result == Walk { stats := stats.(walks := stats.walks + 1); }
      if ab.result == Strikeout { stats := stats.(strikeouts := stats.strikeouts + 1); }
      stats := stats.(rbis := stats.rbis + ab.rbi);
      if ab.risp {
        stats := stats.(rispAtBats := stats.rispAtBats + 1);
        if ab.result == Single || ab.result == Double || ab.result == Triple || ab.result == HomeRun {
          stats := stats.(rispHits := stats.rispHits + 1);
        }
      }
      assert stats == Add(before, Delta(ab));
    }
  }

  /** The number of at-bats among the first `n` whose result is `r`. */
  function CountOf(abs: seq<AtBatEvent>, r: AtBatResult, n: nat): (c: nat)
    requires n <= |abs|
    ensures c <= n
  {
    if n == 0 then 0 else CountOf(abs, r, n - 1) + (if abs[n - 1].result == r then 1 else 0)
  }

  /** The number of hits among the first `n` at-bats. */
  function CountHits(abs: seq<AtBatEvent>, n: nat): (c: nat)
    requires n <= |abs|
    ensures c <= n
  {
    if n == 0 then 0 else CountHits(abs, n - 1) + (if IsHit(abs[n - 1].result) then 1 else 0)
  }

  /** The number of at-bats among the first `n` with a runner in scoring
      position, and of those that are hits. */
  function CountRisp(abs: seq<AtBatEvent>, hitsOnly: bool, n: nat): (c: nat)
    requires n <= |abs|
    ensures c <= n
  {
    if n == 0 then 0
    else CountRisp(abs, hitsOnly, n - 1) + (if abs[n - 1].risp && (!hitsOnly || IsHit(abs[n - 1].result)) then 1 else 0)
  }

  /** The runs batted in over the first `n` at-bats. */
  function SumRbi(abs: seq<AtBatEvent>, n: nat): nat
    requires n <= |abs|
  {
    if n == 0 then 0 else SumRbi(abs, n - 1) + abs[n - 1].rbi
  }

  /** Each counter is the number of at-bats of its kind: official at-bats are
      everything but walks, hits are singles to home runs, and RBIs are summed. */
  lemma {:induction false} TallyCounts(abs: seq<AtBatEvent>, n: nat)
    requires n <= |abs|
    ensures TallyTo(abs, n).atBats == n - CountOf(abs, Walk, n)
    ensures TallyTo(abs, n).hits == CountHits(abs, n)
    ensures TallyTo(abs, n).homeRuns == CountOf(abs, HomeRun, n)
    ensures TallyTo(abs, n).rbis == SumRbi(abs, n)
    ensures TallyTo(abs, n).walks == CountOf(abs, Walk, n)
    ensures TallyTo(abs, n).strikeouts == CountOf(abs, Strikeout, n)
    ensures TallyTo(abs, n).rispAtBats == CountRisp(abs, false, n)
    ensures TallyTo(abs, n).rispHits == CountRisp(abs, true, n)
  {
    if n > 0 {
      TallyCounts(abs, n - 1);
    }
  }

  /** The invariants of the counters: none is negative; every at-bat is either
      an official at-bat or a walk; hits and strikeouts are official at-bats;
      home runs are hits; hits with runners in scoring position are hits and
      such at-bats. */
  lemma {:induction false} TallyBounds(abs: seq<AtBatEvent>, n: nat)
    requires n <= |abs|
    ensures var t := TallyTo(abs, n);
            && t.atBats + t.walks == n
            && 0 <= t.homeRuns <= t.hits
            && t.hits + t.strikeouts <= t.atBats
            && 0 <= t.strikeouts && 0 <= t.walks && 0 <= t.rbis
            && 0 <= t.rispHits <= t.rispAtBats <= n
            && t.rispHits <= t.hits
  {
    if n > 0 {
      TallyBounds(abs, n - 1);
    }
  }

  /** The counters depend only on the at-bats counted. */
  lemma {:induction false} TallyAgree(a: seq<AtBatEvent>, b: seq<AtBatEvent>, n: nat)
    requires n <= |a| && n <= |b|
    requires forall i :: 0 <= i < n ==> a[i] == b[i]
    ensures TallyTo(a, n) == TallyTo(b, n)
  {
    if n > 0 {
      TallyAgree(a, b, n - 1);
    }
  }

  /** One step of `TallyAppend`: counting one more at-bat of `b` adds it to
      the counters of `b`'s prefix. */
  lemma {:induction false} TallyAppendStep(a: seq<AtBatEvent>, b: seq<AtBatEvent>, k: nat)
    requires 0 < k <= |b|
    requires TallyTo(a + b, |a| + k - 1) == Add(Tally(a), TallyTo(b, k - 1))
    ensures TallyTo(a + b, |a| + k) == Add(Tally(a), TallyTo(b, k))
  {
    assert (a + b)[|a| + k - 1] == b[k - 1];
  }

  /** The counters of two lists put end to end are the sum of their counters. */
  lemma {:induction false} TallyAppend(a: seq<AtBatEvent>, b: seq<AtBatEvent>, k: nat)
    requires k <= |b|
    ensures TallyTo(a + b, |a| + k) == Add(Tally(a), TallyTo(b, k))
  {
    if k == 0 {
      TallyAgree(a, a + b, |a|);
    } else {
      TallyAppend(a, b, k - 1);
      TallyAppendStep(a, b, k);
    }
  }

  /** The result of `validateWithLineScore`; None stands for NaN. */
  datatype ValidationResult = ValidationResult(
    expectedHits: Option<int>,
    actualHits: int,
    expectedRuns: Option<int>,
    actualRuns: int,
    hitsMatch: bool,
    runsMatch: bool)

  /** The error thrown when neither a side nor a team name is known. */
  datatype ValidationError = TeamUnknown

  /** The side whose box-score totals belong to the user's team: the given side,
      else the away side exactly when its full name is the team name. */
  function IsMyTeamAway(ls: LineScore, teamSide: Option<Side>, myTeamName: Option<string>): (r: Option<bool>)
    ensures r.None? <==> teamSide.None? && !Truthy(myTeamName)
    ensures teamSide.Some? ==> r == Some(teamSide.value == Away)
  {
    if teamSide.Some? then Some(teamSide.value == Away)
    else if Truthy(myTeamName) then Some(ls.awayFullName == myTeamName.value)
    else None
  }

  /** The box-score hit total of the user's side, as text. */
  function SideHits(ls: LineScore, away: bool): string {
    if away then ls.awayHits else ls.homeHits
  }

  /** The box-score run total of the user's side, as text. */
  function SideRuns(ls: LineScore, away: bool): string {
    if away then ls.awayRuns else ls.homeRuns
  }

  /** `validateWithLineScore(lineScore, myStats, friendStats, teamSide, myTeamName)` */
  function ValidateWithLineScore(ls: LineScore, my: BatterStats, friend: BatterStats,
                                 teamSide: Option<Side>, myTeamName: Option<string>)
    : (r: Result<ValidationResult, ValidationError>)
    ensures r.Failure? <==> teamSide.None? && !Truthy(myTeamName)
    ensures r.Success? ==> r.value.expectedHits == ParseInt(SideHits(ls, IsMyTeamAway(ls, teamSide, myTeamName).value))
    ensures r.Success? ==> r.value.expectedRuns == ParseInt(SideRuns(ls, IsMyTeamAway(ls, teamSide, myTeamName).value))
    ensures r.Success? ==> r.value.actualHits == my.hits + friend.hits
    ensures r.Success? ==> r.value.actualRuns == my.rbis + friend.rbis
    ensures r.Success? ==> (r.value.hitsMatch <==> r.value.expectedHits == Some(r.value.actualHits))
    ensures r.Success? ==> (r.value.runsMatch <==> r.value.expectedRuns == Some(r.value.actualRuns))
  {
    match IsMyTeamAway(ls, teamSide, myTeamName)
    case None => Failure(TeamUnknown)
    case Some(away) =>
      var expectedHits := ParseInt(SideHits(ls, away));
      var expectedRuns := ParseInt(SideRuns(ls, away));
      var actualHits := my.hits + friend.hits;
      var actualRuns := my.rbis + friend.rbis;
      Success(ValidationResult(expectedHits, actualHits, expectedRuns, actualRuns,
                               expectedHits == Some(actualHits), expectedRuns == Some(actualRuns)))
  }


  /** With a side or a team name, validation succeeds, and each check passes
      exactly when the side's box-score total parses to the players' sum. */
  lemma ValidationFlags(ls: LineScore, my: BatterStats, friend: BatterStats,
                        teamSide: Option<Side>, myTeamName: Option<string>)
    requires teamSide.Some? || Truthy(myTeamName)
    ensures var r := ValidateWithLineScore(ls, my, friend, teamSide, myTeamName);
            && r.Success?
            && (r.value.hitsMatch <==> ParseInt(SideHits(ls, IsMyTeamAway(ls, teamSide, myTeamName).value)) == Some(my.hits + friend.hits))
            && (r.value.runsMatch <==> ParseInt(SideRuns(ls, IsMyTeamAway(ls, teamSide, myTeamName).value)) == Some(my.rbis + friend.rbis))
  {
  }

  /** Validation counts the hits among both players' at-bats: it reports a match
      exactly when the side's box-score hits parse to that number. A total that
      is not a number (NaN) never matches. */
  lemma {:induction false} ValidationCountsHits(ls: LineScore, myAbs: seq<AtBatEvent>, friendAbs: seq<AtBatEvent>,
                                                teamSide: Option<Side>, myTeamName: Option<string>)
    requires teamSide.Some? || Truthy(myTeamName)
    ensures ValidateWithLineScore(ls, Tally(myAbs), Tally(friendAbs), teamSide, myTeamName).Success?
    ensures ValidateWithLineScore(ls, Tally(myAbs), Tally(friendAbs), teamSide, myTeamName).value.hitsMatch
            <==> ParseInt(SideHits(ls, IsMyTeamAway(ls, teamSide, myTeamName).value))
                 == Some(CountHits(myAbs, |myAbs|) + CountHits(friendAbs, |friendAbs|))
  {
    TallyCounts(myAbs, |myAbs|);
    TallyCounts(friendAbs, |friendAbs|);
    ValidationFlags(ls, Tally(myAbs), Tally(friendAbs), teamSide, myTeamName);
  }

  /** Likewise the run check passes exactly when the side's box-score runs
      parse to the runs batted in over both players' at-bats. */
  lemma {:induction false} ValidationCountsRuns(ls: LineScore, myAbs: seq<AtBatEvent>, friendAbs: seq<AtBatEvent>,
                                                teamSide: Option<Side>, myTeamName: Option<string>)
    requires teamSide.Some? || Truthy(myTeamName)
    ensures ValidateWithLineScore(ls, Tally(myAbs), Tally(friendAbs), teamSide, myTeamName).Success?
    ensures ValidateWithLineScore(ls, Tally(myAbs), Tally(friendAbs), teamSide, myTeamName).value.runsMatch
            <==> ParseInt(SideRuns(ls, IsMyTeamAway(ls, teamSide, myTeamName).value))
                 == Some(SumRbi(myAbs, |myAbs|) + SumRbi(friendAbs, |friendAbs|))
  {
    TallyCounts(myAbs, |myAbs|);
    TallyCounts(friendAbs, |friendAbs|);
    ValidationFlags(ls, Tally(myAbs), Tally(friendAbs), teamSide, myTeamName);
  }

  /** A box score whose hit total for the user's side is the decimal count of
      hits in both players' at-bats passes the hit check. */
  lemma {:induction false} MatchingBoxScorePasses(ls: LineScore, myAbs: seq<AtBatEvent>, friendAbs: seq<AtBatEvent>,
                               teamSide: Option<Side>, myTeamName: Option<string>)
    requires teamSide.Some? || Truthy(myTeamName)
    requires SideHits(ls, IsMyTeamAway(ls, teamSide, myTeamName).value)
             == DecimalString(CountHits(myAbs, |myAbs|) + CountHits(friendAbs, |friendAbs|))
    ensures ValidateWithLineScore(ls, Tally(myAbs), Tally(friendAbs), teamSide, myTeamName).value.hitsMatch
  {
    ValidationCountsHits(ls, myAbs, friendAbs, teamSide, myTeamName);
    ParseIntDecimal(CountHits(myAbs, |myAbs|) + CountHits(friendAbs, |friendAbs|));
  }

  /** A box score whose run total for the user's side is the decimal sum of the
      runs batted in over both players' at-bats passes the run check. */
  lemma {:induction false} MatchingRunsPass(ls: LineScore, myAbs: seq<AtBatEvent>, friendAbs: seq<AtBatEvent>,
                               teamSide: Option<Side>, myTeamName: Option<string>)
    requires teamSide.Some? || Truthy(myTeamName)
    requires SideRuns(ls, IsMyTeamAway(ls, teamSide, myTeamName).value)
             == DecimalString(SumRbi(myAbs, |myAbs|) + SumRbi(friendAbs, |friendAbs|))
    ensures ValidateWithLineScore(ls, Tally(myAbs), Tally(friendAbs), teamSide, myTeamName).value.runsMatch
  {
    ValidationCountsRuns(ls, myAbs, friendAbs, teamSide, myTeamName);
    ParseIntDecimal(SumRbi(myAbs, |myAbs|) + SumRbi(friendAbs, |friendAbs|));
  }
}
