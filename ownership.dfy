/** Which at-bats of the user's team belong to the user and which to the
    teammate (`assignBatterOwnership`). The source collects the at-bat objects
    themselves and later tells them apart by identity; here each list holds the
    positions of its at-bats in the analysed list, which is the same thing. */
module Ownership {
  import opened Text
  import opened Records
  import opened Stats

  // ---------------------------------------------------------------- badges

  /** A level badge `^b<digits>^` starts at `p` and only whitespace follows it. */
  predicate BadgeAt(s: string, p: nat) {
    p + 2 <= |s| && s[p] == '^' && s[p + 1] == 'b' &&
    var d := DigitsEnd(s, p + 2);
    p + 2 < d < |s| && s[d] == '^' && SkipSpaces(s, d + 1) == |s|
  }

  /** The first badge position at or after `p`. */
  function FindBadge(s: string, p: nat): (r: Option<nat>)
    requires p <= |s|
    ensures r.Some? ==> p <= r.value < |s| && BadgeAt(s, r.value)
    ensures r.Some? ==> forall q: nat :: p <= q < r.value ==> !BadgeAt(s, q)
    ensures r.None? ==> forall q: nat :: p <= q < |s| ==> !BadgeAt(s, q)
    decreases |s| - p
  {
    if p == |s| then None
    else if BadgeAt(s, p) then Some(p)
    else FindBadge(s, p + 1)
  }

  /** `name.replace(/\s*\^b\d+\^\s*$/, '').trim()`. The match begins with the
      whitespace before the badge, which the trim removes anyway, so the name
      is cut at the badge and trimmed. */
  function StripBadge(name: string): (r: string)
    ensures |r| <= |name|
  {
    match FindBadge(name, 0)
    case None => Trim(name)
    case Some(p) => Trim(name[..p])
  }

  /** Trimming the front of a string with a whitespace character appended
      either appends that character to the trimmed front or leaves nothing. */
  lemma {:induction false} TrimStartSnocSpace(s: string, c: char)
    requires IsSpace(c)
    ensures TrimStart(s + [c]) == TrimStart(s) + [c] || (TrimStart(s) == [] && TrimStart(s + [c]) == [])
    decreases |s|
  {
    if s == [] {
      assert TrimStart([c]) == TrimStart([c][1..]);
    } else if IsSpace(s[0]) {
      assert (s + [c])[1..] == s[1..] + [c];
      TrimStartSnocSpace(s[1..], c);
    }
  }

  /** A trailing whitespace character does not survive a trim. */
  lemma {:induction false} TrimDropsTrailingSpace(s: string, c: char)
    requires IsSpace(c)
    ensures Trim(s + [c]) == Trim(s)
  {
    TrimStartSnocSpace(s, c);
    var t := TrimStart(s);
    if t == [] {
      assert TrimStart(s + [c]) == [];
    } else {
      assert TrimStart(s + [c]) == t + [c];
      assert (t + [c])[..|t|] == t;
      assert TrimEnd(t + [c]) == TrimEnd(t);
    }
  }

  /** A digit string closed by `^` ends the digit run that starts it. */
  lemma BadgeDigitsEnd(s: string, k: nat, d: string)
    requires k + |d| < |s| && s[k..k + |d|] == d && s[k + |d|] == '^'
    requires forall i :: 0 <= i < |d| ==> IsDigit(d[i])
    ensures DigitsEnd(s, k) == k + |d|
  {
    assert forall i :: k <= i < k + |d| ==> IsDigit(s[i]) by {
      forall i | k <= i < k + |d| ensures IsDigit(s[i]) {
        assert s[i] == d[i - k];
      }
    }
    DigitsEndAt(s, k, k + |d|);
  }

  /** The level badge the game appends to a nickname is removed again: a name
      without `^`, shown with ` ^b<level>^`, cleans to the trimmed name. */
  lemma {:induction false} TaggedNameCleans(name: string, level: nat)
    requires forall i :: 0 <= i < |name| ==> name[i] != '^'
    ensures StripBadge(name + " ^b" + DecimalString(level) + "^") == Trim(name)
  {
    var digits := DecimalString(level);
    var s := name + " ^b" + digits + "^";
    var p := |name| + 1;
    assert s[p + 2..p + 2 + |digits|] == digits;
    BadgeDigitsEnd(s, p + 2, digits);
    assert BadgeAt(s, p);
    forall q: nat | q < p
      ensures !BadgeAt(s, q)
    {
      assert s[q] != '^';
    }
    assert FindBadge(s, 0) == Some(p);
    assert s[..p] == name + [' '];
    TrimDropsTrailingSpace(name, ' ');
  }

  // -------------------------------------------------------- team detection

  /** `lineScore.home_name?.replace(...).trim()`: None when the name is absent. */
  function CleanName(n: Option<string>): Option<string> {
    if n.None? then None else Some(StripBadge(n.value))
  }

  /** Both players' cleaned nicknames are the cleaned short name of one side. */
  predicate BothOn(side: Option<string>, username: string, teammate: string) {
    CleanName(side) == Some(StripBadge(username)) && CleanName(side) == Some(StripBadge(teammate))
  }

  /** The team side `assignBatterOwnership` and `analyze` settle on: when the
      line score, the username and the teammate are all known and both players'
      nicknames are the home (else the away) player names, that side; otherwise
      the side given by the caller. */
  function DetectTeamSide(teamSide: Option<Side>, lineScore: Option<LineScore>,
                          username: Option<string>, teammate: Option<string>): (r: Option<Side>)
    ensures r != teamSide ==> Truthy(teammate) && lineScore.Some? && Truthy(username)
    ensures r != teamSide && r == Some(Home) ==>
              BothOn(lineScore.value.homeName, username.value, teammate.value)
    ensures r != teamSide && r == Some(Away) ==>
              BothOn(lineScore.value.awayName, username.value, teammate.value)
    ensures r != teamSide ==> r == Some(Home) || r == Some(Away)
  {
    if Truthy(teammate) && lineScore.Some? && Truthy(username) then
      var u := StripBadge(username.value);
      var t := StripBadge(teammate.value);
      var home := CleanName(lineScore.value.homeName);
      var away := CleanName(lineScore.value.awayName);
      var isUsernameHome := home == Some(u);
      var isTeammateHome := home == Some(t);
      var isUsernameAway := away == Some(u);
      var isTeammateAway := away == Some(t);
      if isUsernameHome && isTeammateHome then Some(Home)
      else if isUsernameAway && isTeammateAway then Some(Away)
      else teamSide
    else teamSide
  }

  /** The converse: a side both players are found on is detected, the home side
      first. */
  lemma {:induction false} DetectionFindsSide(teamSide: Option<Side>, ls: LineScore, username: string, teammate: string)
    requires username != "" && teammate != ""
    ensures BothOn(ls.homeName, username, teammate) ==>
              DetectTeamSide(teamSide, Some(ls), Some(username), Some(teammate)) == Some(Home)
    ensures !BothOn(ls.homeName, username, teammate) && BothOn(ls.awayName, username, teammate) ==>
              DetectTeamSide(teamSide, Some(ls), Some(username), Some(teammate)) == Some(Away)
    ensures !BothOn(ls.homeName, username, teammate) && !BothOn(ls.awayName, username, teammate) ==>
              DetectTeamSide(teamSide, Some(ls), Some(username), Some(teammate)) == teamSide
  {
  }

  // -------------------------------------------------------- dealing turns

  /** At-bat `ab` is taken by the user's team: the bottom half when the team is
      at home, the top half when it is away. */
  predicate MyTeamTurn(ab: AtBatEvent, isMyTeamHome: bool) {
    if isMyTeamHome then !ab.isTopInning else ab.isTopInning
  }

  /** Every at-bat takes part in the alternation (the fallback). */
  function AllTurns(n: nat): (r: seq<bool>)
    ensures |r| == n
    ensures forall i :: 0 <= i < n ==> r[i]
  {
    seq(n, i => true)
  }

  /** The team's own at-bats take part in the alternation (team mode). */
  function TeamTurns(atBats: seq<AtBatEvent>, isMyTeamHome: bool): (r: seq<bool>)
    ensures |r| == |atBats|
    ensures forall i :: 0 <= i < |atBats| ==> (r[i] <==> MyTeamTurn(atBats[i], isMyTeamHome))
  {
    seq(|atBats|, i requires 0 <= i < |atBats| => MyTeamTurn(atBats[i], isMyTeamHome))
  }

  /** How many at-bats before position `n` take part. */
  function Rank(flags: seq<bool>, n: nat): (r: nat)
    requires n <= |flags|
    ensures r <= n
  {
    if n == 0 then 0 else Rank(flags, n - 1) + (if flags[n - 1] then 1 else 0)
  }

  /** The positions before `n` dealt to the player who takes the turns of parity
      `k`: the taking-part at-bats with an even (`k == 0`) or odd (`k == 1`)
      number of taking-part at-bats before them, in order. */
  function Dealt(flags: seq<bool>, n: nat, k: nat): (r: seq<nat>)
    requires n <= |flags|
    ensures forall i :: 0 <= i < |r| ==> r[i] < n
  {
    if n == 0 then []
    else Dealt(flags, n - 1, k) + (if flags[n - 1] && Rank(flags, n - 1) % 2 == k then [n - 1] else [])
  }

  /** A position is dealt to a player exactly when it takes part and its rank
      has that player's parity. */
  lemma {:induction false} DealtMembers(flags: seq<bool>, n: nat, k: nat, x: nat)
    requires n <= |flags|
    ensures x in Dealt(flags, n, k) <==> x < n && flags[x] && Rank(flags, x) % 2 == k
  {
    if n > 0 {
      DealtMembers(flags, n - 1, k, x);
    }
  }

  /** The player of parity 0 gets the larger half of the taking-part at-bats. */
  lemma {:induction false} DealtLength(flags: seq<bool>, n: nat, k: nat)
    requires n <= |flags| && k < 2
    ensures |Dealt(flags, n, k)| == (Rank(flags, n) + 1 - k) / 2
  {
    if n > 0 {
      DealtLength(flags, n - 1, k);
    }
  }

  /** Each player's positions are listed in increasing order, the order in
      which the loops push them. */
  lemma {:induction false} DealtIncreasing(flags: seq<bool>, n: nat, k: nat)
    requires n <= |flags|
    ensures forall i, j :: 0 <= i < j < |Dealt(flags, n, k)| ==> Dealt(flags, n, k)[i] < Dealt(flags, n, k)[j]
  {
    if n > 0 {
      DealtIncreasing(flags, n - 1, k);
    }
  }

  /** When every at-bat takes part, the player of parity `k` gets exactly the
      positions k, k + 2, k + 4, … in that order. */
  lemma {:induction false} DealtAllTurns(total: nat, n: nat, k: nat)
    requires n <= total && k < 2
    ensures forall i :: 0 <= i < |Dealt(AllTurns(total), n, k)| ==> Dealt(AllTurns(total), n, k)[i] == 2 * i + k
  {
    if n > 0 {
      var flags := AllTurns(total);
      DealtAllTurns(total, n - 1, k);
      DealtLength(flags, n - 1, k);
      RankAll(total, n - 1);
    }
  }

  lemma {:induction false} RankAll(n: nat, m: nat)
    requires m <= n
    ensures Rank(AllTurns(n), m) == m
  {
    if m > 0 {
      RankAll(n, m - 1);
    }
  }

  /** The next taking-part at-bat after `j1` has the next rank. */
  lemma {:induction false} RankNext(flags: seq<bool>, j1: nat, j2: nat)
    requires j1 < j2 <= |flags| && flags[j1]
    requires forall i :: j1 < i < j2 ==> !flags[i]
    ensures Rank(flags, j2) == Rank(flags, j1) + 1
  {
    if j2 > j1 + 1 {
      RankNext(flags, j1, j2 - 1);
    }
  }

  /** Before the first taking-part at-bat the rank is zero. */
  lemma {:induction false} RankNone(flags: seq<bool>, j: nat)
    requires j <= |flags|
    requires forall i :: 0 <= i < j ==> !flags[i]
    ensures Rank(flags, j) == 0
  {
    if j > 0 {
      RankNone(flags, j - 1);
    }
  }

  // ----------------------------------------------------------- assignment

  /** Without a detected side or a line score, ownership falls back to strict
      alternation over the whole log. */
  predicate Fallback(side: Option<Side>, haveLineScore: bool) {
    side.None? || !haveLineScore
  }

  function Eligible(atBats: seq<AtBatEvent>, side: Option<Side>, haveLineScore: bool): (r: seq<bool>)
    ensures |r| == |atBats|
  {
    if Fallback(side, haveLineScore) then AllTurns(|atBats|) else TeamTurns(atBats, side.value == Home)
  }

  /** The two lists `assignBatterOwnership` returns, given the side it settled
      on: in the fallback the at-bats alternate from the user on; in team mode
      the team's own at-bats alternate from the host on. */
  function Assignment(atBats: seq<AtBatEvent>, side: Option<Side>, haveLineScore: bool, isUserHost: bool)
    : (seq<nat>, seq<nat>)
  {
    var flags := Eligible(atBats, side, haveLineScore);
    var first := if Fallback(side, haveLineScore) || isUserHost then 0 else 1;
    (Dealt(flags, |atBats|, first), Dealt(flags, |atBats|, 1 - first))
  }

  /** The fallback loop: turns strictly alternate. Both branches of the
      `turnCount % 9` test flip the turn, as the source does. */
  method FallbackOwnership(atBats: seq<AtBatEvent>) returns (my: seq<nat>, friend: seq<nat>)
    ensures my == Dealt(AllTurns(|atBats|), |atBats|, 0)
    ensures friend == Dealt(AllTurns(|atBats|), |atBats|, 1)
  {
    ghost var flags := AllTurns(|atBats|);
    my, friend := [], [];
    var isMyTurn := true;
    var turnCount := 0;
    for i := 0 to |atBats|
      invariant turnCount == i == Rank(flags, i)
      invariant isMyTurn <==> i % 2 == 0
      invariant my == Dealt(flags, i, 0)
      invariant friend == Dealt(flags, i, 1)
    {
      assert flags[i] && Rank(flags, i + 1) == i + 1;
      assert Dealt(flags, i + 1, 0) == Dealt(flags, i, 0) + (if i % 2 == 0 then [i] else []);
      assert Dealt(flags, i + 1, 1) == Dealt(flags, i, 1) + (if i % 2 == 1 then [i] else []);
      assert (i + 1) % 2 == 1 - i % 2;
      if isMyTurn {
        my := my + [i];
      } else {
        friend := friend + [i];
      }
      turnCount := turnCount + 1;
      if turnCount % 9 == 0 {
        isMyTurn := !isMyTurn;
      } else {
        isMyTurn := !isMyTurn;
      }
    }
  }

  /** The team loop: only the team's at-bats are assigned, counted from zero;
      the host takes the even counts and the other player the odd ones. */
  method TeamOwnership(atBats: seq<AtBatEvent>, isMyTeamHome: bool, isUserHost: bool)
    returns (my: seq<nat>, friend: seq<nat>)
    ensures my == Dealt(TeamTurns(atBats, isMyTeamHome), |atBats|, if isUserHost then 0 else 1)
    ensures friend == Dealt(TeamTurns(atBats, isMyTeamHome), |atBats|, if isUserHost then 1 else 0)
  {
    ghost var flags := TeamTurns(atBats, isMyTeamHome);
    ghost var myK, friendK := if isUserHost then 0 else 1, if isUserHost then 1 else 0;
    my, friend := [], [];
    var teamAtBatCount := 0;
    for i := 0 to |atBats|
      invariant teamAtBatCount == Rank(flags, i)
      invariant my == Dealt(flags, i, myK)
      invariant friend == Dealt(flags, i, friendK)
    {
      var atBat := atBats[i];
      var isMyTeamTurn := if isMyTeamHome then !atBat.isTopInning else atBat.isTopInning;
      if isMyTeamTurn {
        var isMyTurn := if isUserHost then teamAtBatCount % 2 == 0 else teamAtBatCount % 2 == 1;
        if isMyTurn {
          my := my + [i];
        } else {
          friend := friend + [i];
        }
        teamAtBatCount := teamAtBatCount + 1;
      }
    }
  }

  /** `assignBatterOwnership(atBats, teamSide, lineScore, username,
      teammateUsername, isUserHost)`; an absent `isUserHost` counts as false. */
  method AssignBatterOwnership(atBats: seq<AtBatEvent>, teamSide: Option<Side>, lineScore: Option<LineScore>,
                               username: Option<string>, teammate: Option<string>, isUserHostParam: Option<bool>)
    returns (my: seq<nat>, friend: seq<nat>)
    ensures (my, friend) == Assignment(atBats, DetectTeamSide(teamSide, lineScore, username, teammate),
                                       lineScore.Some?, isUserHostParam == Some(true))
  {
    var determinedTeamSide := DetectTeamSide(teamSide, lineScore, username, teammate);
    if determinedTeamSide.None? || lineScore.None? {
      my, friend := FallbackOwnership(atBats);
      return;
    }
    var isUserHost := if isUserHostParam.Some? then isUserHostParam.value else false;
    var isMyTeamHome := determinedTeamSide.value == Home;
    my, friend := TeamOwnership(atBats, isMyTeamHome, isUserHost);
  }

  /** The fallback gives the user the even positions, the first at-bat among
      them, and the teammate the odd ones. */
  lemma {:induction false} FallbackAlternates(atBats: seq<AtBatEvent>, side: Option<Side>, haveLineScore: bool, isUserHost: bool,
                           x: nat)
    requires Fallback(side, haveLineScore)
    ensures var (my, friend) := Assignment(atBats, side, haveLineScore, isUserHost);
            |my| == (|atBats| + 1) / 2 && |friend| == |atBats| / 2 &&
            (x in my <==> x < |atBats| && x % 2 == 0) &&
            (x in friend <==> x < |atBats| && x % 2 == 1) &&
            (forall i :: 0 <= i < |my| ==> my[i] == 2 * i) &&
            (forall i :: 0 <= i < |friend| ==> friend[i] == 2 * i + 1)
  {
    var flags := AllTurns(|atBats|);
    DealtAllTurns(|atBats|, |atBats|, 0);
    DealtAllTurns(|atBats|, |atBats|, 1);
    RankAll(|atBats|, |atBats|);
    DealtLength(flags, |atBats|, 0);
    DealtLength(flags, |atBats|, 1);
    DealtMembers(flags, |atBats|, 0, x);
    DealtMembers(flags, |atBats|, 1, x);
    if x < |atBats| {
      RankAll(|atBats|, x);
    }
  }

  /** In team mode an at-bat is assigned exactly when the user's team is
      batting, and then to one player only; the opponent's at-bats go to
      nobody. */
  lemma {:induction false} TeamModeAssignsOwnTurns(atBats: seq<AtBatEvent>, side: Side, isUserHost: bool, j: nat)
    requires j < |atBats|
    ensures var (my, friend) := Assignment(atBats, Some(side), true, isUserHost);
            (j in my || j in friend <==> MyTeamTurn(atBats[j], side == Home)) &&
            !(j in my && j in friend)
  {
    var flags := TeamTurns(atBats, side == Home);
    DealtMembers(flags, |atBats|, 0, j);
    DealtMembers(flags, |atBats|, 1, j);
  }

  /** In either mode both lists hold their positions in increasing order, as
      the source pushes them. */
  lemma {:induction false} AssignmentInOrder(atBats: seq<AtBatEvent>, side: Option<Side>, haveLineScore: bool, isUserHost: bool)
    ensures var (my, friend) := Assignment(atBats, side, haveLineScore, isUserHost);
            (forall i, j :: 0 <= i < j < |my| ==> my[i] < my[j]) &&
            (forall i, j :: 0 <= i < j < |friend| ==> friend[i] < friend[j])
  {
    var flags := Eligible(atBats, side, haveLineScore);
    DealtIncreasing(flags, |atBats|, 0);
    DealtIncreasing(flags, |atBats|, 1);
  }

  /** Consecutive taking-part at-bats are dealt to different players. */
  lemma {:induction false} DealtAlternates(flags: seq<bool>, n: nat, j1: nat, j2: nat)
    requires j1 < j2 < n <= |flags| && flags[j1] && flags[j2]
    requires forall i :: j1 < i < j2 ==> !flags[i]
    ensures j1 in Dealt(flags, n, 0) <==> j2 in Dealt(flags, n, 1)
    ensures j1 in Dealt(flags, n, 1) <==> j2 in Dealt(flags, n, 0)
  {
    RankNext(flags, j1, j2);
    var r := Rank(flags, j1);
    if r % 2 == 0 {
      assert (r + 1) % 2 == 1;
    } else {
      assert (r + 1) % 2 == 0;
    }
    DealtMembers(flags, n, 0, j1);
    DealtMembers(flags, n, 1, j1);
    DealtMembers(flags, n, 0, j2);
    DealtMembers(flags, n, 1, j2);
  }

  /** In team mode the host takes the team's first at-bat, and each next team
      at-bat goes to the other player. */
  lemma {:induction false} TeamTurnsAlternate(atBats: seq<AtBatEvent>, side: Side, isUserHost: bool, j1: nat, j2: nat)
    requires j1 < j2 < |atBats|
    requires MyTeamTurn(atBats[j1], side == Home) && MyTeamTurn(atBats[j2], side == Home)
    requires forall i :: j1 < i < j2 ==> !MyTeamTurn(atBats[i], side == Home)
    ensures var (my, friend) := Assignment(atBats, Some(side), true, isUserHost);
            (j1 in my <==> j2 in friend) && (j1 in friend <==> j2 in my)
  {
    var flags := TeamTurns(atBats, side == Home);
    assert forall i :: j1 < i < j2 ==> !flags[i];
    DealtAlternates(flags, |atBats|, j1, j2);
    var d0, d1 := Dealt(flags, |atBats|, 0), Dealt(flags, |atBats|, 1);
    assert Assignment(atBats, Some(side), true, isUserHost) == (if isUserHost then (d0, d1) else (d1, d0));
  }

  lemma {:induction false} HostBatsFirst(atBats: seq<AtBatEvent>, side: Side, isUserHost: bool, j: nat)
    requires j < |atBats| && MyTeamTurn(atBats[j], side == Home)
    requires forall i :: 0 <= i < j ==> !MyTeamTurn(atBats[i], side == Home)
    ensures var (my, friend) := Assignment(atBats, Some(side), true, isUserHost);
            j in (if isUserHost then my else friend)
  {
    var flags := TeamTurns(atBats, side == Home);
    RankNone(flags, j);
    DealtMembers(flags, |atBats|, 0, j);
  }

  // ------------------------------------------------ the players' statistics

  /** The at-bats at the given positions, in order. */
  function Picked(atBats: seq<AtBatEvent>, idx: seq<nat>): (r: seq<AtBatEvent>)
    requires forall i :: 0 <= i < |idx| ==> idx[i] < |atBats|
    ensures |r| == |idx|
    ensures forall i :: 0 <= i < |idx| ==> r[i] == atBats[idx[i]]
  {
    seq(|idx|, i requires 0 <= i < |idx| => atBats[idx[i]])
  }

  /** The counters of the at-bats at the first `m` of the given positions (a
      position past the end counts nothing). */
  function TallyAt(atBats: seq<AtBatEvent>, idx: seq<nat>, m: nat): BatterStats
    requires m <= |idx|
  {
    if m == 0 then NoStats()
    else
      var t := TallyAt(atBats, idx, m - 1);
      if idx[m - 1] < |atBats| then Add(t, Delta(atBats[idx[m - 1]])) else t
  }

  /** Counting the at-bats at some positions is tallying the list they form. */
  lemma {:induction false} PickedTally(atBats: seq<AtBatEvent>, idx: seq<nat>, m: nat)
    requires forall i :: 0 <= i < |idx| ==> idx[i] < |atBats|
    requires m <= |idx|
    ensures TallyTo(Picked(atBats, idx), m) == TallyAt(atBats, idx, m)
  {
    if m > 0 {
      PickedTally(atBats, idx, m - 1);
    }
  }

  /** The counters depend only on the positions counted. */
  lemma {:induction false} TallyAtAgree(atBats: seq<AtBatEvent>, a: seq<nat>, b: seq<nat>, m: nat)
    requires m <= |a| && m <= |b|
    requires forall i :: 0 <= i < m ==> a[i] == b[i]
    ensures TallyAt(atBats, a, m) == TallyAt(atBats, b, m)
  {
    if m > 0 {
      TallyAtAgree(atBats, a, b, m - 1);
    }
  }

  /** The counters of the taking-part at-bats before position `n`. */
  function TallyWhere(atBats: seq<AtBatEvent>, flags: seq<bool>, n: nat): BatterStats
    requires n <= |atBats| && |flags| == |atBats|
  {
    if n == 0 then NoStats()
    else
      var t := TallyWhere(atBats, flags, n - 1);
      if flags[n - 1] then Add(t, Delta(atBats[n - 1])) else t
  }

  /** The counters of the positions dealt to the player of parity `k`. */
  function Share(atBats: seq<AtBatEvent>, flags: seq<bool>, n: nat, k: nat): BatterStats
    requires n <= |flags|
  {
    var d := Dealt(flags, n, k);
    TallyAt(atBats, d, |d|)
  }

  /** A position that does not take part is dealt to nobody. */
  lemma {:induction false} DealtNoTurn(flags: seq<bool>, n: nat, k: nat)
    requires 0 < n <= |flags| && !flags[n - 1]
    ensures Dealt(flags, n, k) == Dealt(flags, n - 1, k)
  {
  }

  /** A taking-part position goes to the player of its rank's parity only. */
  lemma {:induction false} DealtTurn(flags: seq<bool>, n: nat)
    requires 0 < n <= |flags| && flags[n - 1]
    ensures Rank(flags, n - 1) % 2 == 0 ==>
              Dealt(flags, n, 0) == Dealt(flags, n - 1, 0) + [n - 1] && Dealt(flags, n, 1) == Dealt(flags, n - 1, 1)
    ensures Rank(flags, n - 1) % 2 == 1 ==>
              Dealt(flags, n, 1) == Dealt(flags, n - 1, 1) + [n - 1] && Dealt(flags, n, 0) == Dealt(flags, n - 1, 0)
  {
  }

  /** Appending a position adds the at-bat there to the counters. */
  lemma {:induction false} TallyAtSnoc(atBats: seq<AtBatEvent>, d: seq<nat>, j: nat)
    requires j < |atBats|
    ensures TallyAt(atBats, d + [j], |d| + 1) == Add(TallyAt(atBats, d, |d|), Delta(atBats[j]))
  {
    TallyAtAgree(atBats, d, d + [j], |d|);
  }

  /** The player whose parity the rank of a taking-part position has gains the
      at-bat there; the other player's counters stay. */
  lemma {:induction false} ShareTurn(atBats: seq<AtBatEvent>, flags: seq<bool>, n: nat)
    requires 0 < n <= |atBats| && |flags| == |atBats| && flags[n - 1]
    ensures Rank(flags, n - 1) % 2 == 0 ==>
              Share(atBats, flags, n, 0) == Add(Share(atBats, flags, n - 1, 0), Delta(atBats[n - 1])) &&
              Share(atBats, flags, n, 1) == Share(atBats, flags, n - 1, 1)
    ensures Rank(flags, n - 1) % 2 == 1 ==>
              Share(atBats, flags, n, 1) == Add(Share(atBats, flags, n - 1, 1), Delta(atBats[n - 1])) &&
              Share(atBats, flags, n, 0) == Share(atBats, flags, n - 1, 0)
  {
    ShareTurnAt(atBats, flags, n, Rank(flags, n - 1) % 2);
  }

  /** `ShareTurn` for the player `k` whose turn it is. */
  lemma {:induction false} ShareTurnAt(atBats: seq<AtBatEvent>, flags: seq<bool>, n: nat, k: nat)
    requires 0 < n <= |atBats| && |flags| == |atBats| && flags[n - 1]
    requires k == Rank(flags, n - 1) % 2
    ensures Share(atBats, flags, n, k) == Add(Share(atBats, flags, n - 1, k), Delta(atBats[n - 1]))
    ensures Share(atBats, flags, n, 1 - k) == Share(atBats, flags, n - 1, 1 - k)
  {
    DealtTurn(flags, n);
    TallyAtSnoc(atBats, Dealt(flags, n - 1, k), n - 1);
  }

  /** Adding `e` to one of two summands adds it to the sum. */
  lemma {:induction false} AddShift(t0: BatterStats, t1: BatterStats, u0: BatterStats, u1: BatterStats, e: BatterStats)
    requires u0 == Add(t0, e) && u1 == t1
    ensures Add(u0, u1) == Add(Add(t0, t1), e)
  {
  }

  /** One position more keeps the two players' counters adding up to those of
      the taking-part at-bats. */
  lemma {:induction false} ShareStep(atBats: seq<AtBatEvent>, flags: seq<bool>, n: nat)
    requires 0 < n <= |atBats| && |flags| == |atBats|
    requires Add(Share(atBats, flags, n - 1, 0), Share(atBats, flags, n - 1, 1)) == TallyWhere(atBats, flags, n - 1)
    ensures Add(Share(atBats, flags, n, 0), Share(atBats, flags, n, 1)) == TallyWhere(atBats, flags, n)
  {
    if !flags[n - 1] {
      DealtNoTurn(flags, n, 0);
      DealtNoTurn(flags, n, 1);
    } else {
      ShareTurn(atBats, flags, n);
      var e := Delta(atBats[n - 1]);
      if Rank(flags, n - 1) % 2 == 0 {
        AddShift(Share(atBats, flags, n - 1, 0), Share(atBats, flags, n - 1, 1),
                 Share(atBats, flags, n, 0), Share(atBats, flags, n, 1), e);
      } else {
        AddShift(Share(atBats, flags, n - 1, 1), Share(atBats, flags, n - 1, 0),
                 Share(atBats, flags, n, 1), Share(atBats, flags, n, 0), e);
      }
    }
  }

  /** Dealing splits the counters: the two players' counters add up to those
      of the taking-part at-bats. */
  lemma {:induction false} DealtTallies(atBats: seq<AtBatEvent>, flags: seq<bool>, n: nat)
    requires n <= |atBats| && |flags| == |atBats|
    ensures Add(Share(atBats, flags, n, 0), Share(atBats, flags, n, 1)) == TallyWhere(atBats, flags, n)
  {
    if n > 0 {
      DealtTallies(atBats, flags, n - 1);
      ShareStep(atBats, flags, n);
    }
  }

  /** With every at-bat taking part the counters are those of the whole prefix. */
  lemma {:induction false} TallyWhereAll(atBats: seq<AtBatEvent>, n: nat)
    requires n <= |atBats|
    ensures TallyWhere(atBats, AllTurns(|atBats|), n) == TallyTo(atBats, n)
  {
    if n > 0 {
      TallyWhereAll(atBats, n - 1);
    }
  }

  /** Whichever way the at-bats were assigned, the two players' counters add up
      to those of the at-bats that take part: the whole log in the fallback,
      the team's own at-bats in team mode. */
  lemma {:induction false} AssignedStatsAddUp(atBats: seq<AtBatEvent>, side: Option<Side>, haveLineScore: bool, isUserHost: bool)
    ensures var (my, friend) := Assignment(atBats, side, haveLineScore, isUserHost);
            Add(Tally(Picked(atBats, my)), Tally(Picked(atBats, friend)))
            == TallyWhere(atBats, Eligible(atBats, side, haveLineScore), |atBats|)
  {
    var flags := Eligible(atBats, side, haveLineScore);
    DealtTallies(atBats, flags, |atBats|);
    var d0, d1 := Dealt(flags, |atBats|, 0), Dealt(flags, |atBats|, 1);
    PickedTally(atBats, d0, |d0|);
    PickedTally(atBats, d1, |d1|);
    var t0, t1 := Share(atBats, flags, |atBats|, 0), Share(atBats, flags, |atBats|, 1);
    assert Add(t1, t0) == Add(t0, t1);
  }

  /** In the fallback every at-bat of the log is counted for one of the two players. */
  lemma {:induction false} FallbackStatsAddUp(atBats: seq<AtBatEvent>, side: Option<Side>, haveLineScore: bool, isUserHost: bool)
    requires Fallback(side, haveLineScore)
    ensures var (my, friend) := Assignment(atBats, side, haveLineScore, isUserHost);
            Add(Tally(Picked(atBats, my)), Tally(Picked(atBats, friend))) == Tally(atBats)
  {
    AssignedStatsAddUp(atBats, side, haveLineScore, isUserHost);
    TallyWhereAll(atBats, |atBats|);
  }
}
