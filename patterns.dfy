/** The name-capturing regular expressions of the analyzer, each written as a
    scanner over the string rather than through a regex engine.

    Unanchored patterns of the form `([A-Za-z\-'. ]+)<tail>` (the runner tracker):
    the pattern matches exactly when some index `q` ends a non-empty name and the
    tail follows at `q`; JavaScript takes the leftmost start, which is the start of
    the name-character run around the first such `q`, and the greedy `+` then
    extends the capture to the last such `q` inside that run.

    Anchored case-insensitive patterns `^([A-Za-z\s\-'.]+?)\s+(verb|...)` (the at-bat
    boundary detector): the name is a prefix of name characters followed by
    whitespace and a verb; the lazy `+?` takes the shortest such prefix and the
    greedy `+` the longest. */
module Patterns {
  import opened Text

  /** `[A-Za-z\-'. ]` */
  predicate NameChar(c: char) {
    IsLetter(c) || c == '-' || c == '\'' || c == '.' || c == ' '
  }

  /** `[A-Za-z\s\-'.]` */
  predicate NameCharWs(c: char) {
    IsLetter(c) || IsSpace(c) || c == '-' || c == '\'' || c == '.'
  }

  /** The start of the run of name characters that ends at `q`. */
  function RunStart(s: string, q: nat): (p: nat)
    requires q <= |s|
    ensures p <= q
    ensures forall i :: p <= i < q ==> NameChar(s[i])
    ensures p > 0 ==> !NameChar(s[p - 1])
  {
    if q > 0 && NameChar(s[q - 1]) then RunStart(s, q - 1) else q
  }

  /** The end of the run of name characters that begins at `p`. */
  function RunEnd(s: string, p: nat): (e: nat)
    requires p <= |s|
    ensures p <= e <= |s|
    ensures forall i :: p <= i < e ==> NameChar(s[i])
    ensures e < |s| ==> !NameChar(s[e])
    decreases |s| - p
  {
    if p < |s| && NameChar(s[p]) then RunEnd(s, p + 1) else p
  }

  /** The end of the run of `[A-Za-z\s\-'.]` characters that begins at `p`. */
  function WsRunEnd(s: string, p: nat): (e: nat)
    requires p <= |s|
    ensures p <= e <= |s|
    ensures forall i :: p <= i < e ==> NameCharWs(s[i])
    ensures e < |s| ==> !NameCharWs(s[e])
    decreases |s| - p
  {
    if p < |s| && NameCharWs(s[p]) then WsRunEnd(s, p + 1) else p
  }

  /** `name.trim().replace(/\s+/g, ' ')`, the tracker's name normalisation. */
  function Normalize(name: string): string {
    CollapseSpaces(Trim(name))
  }

  /** `(1st|2nd|3rd|home)` at index `k`, or `(2nd|3rd|home)` when `first` is false. */
  function BaseWordAt(s: string, k: nat, first: bool): (b: Option<string>)
    ensures b.Some? ==> b.value in {"1st", "2nd", "3rd", "home"} && StartsAt(s, k, b.value)
    ensures b.Some? && !first ==> b.value != "1st"
  {
    if first && StartsAt(s, k, "1st") then Some("1st")
    else if StartsAt(s, k, "2nd") then Some("2nd")
    else if StartsAt(s, k, "3rd") then Some("3rd")
    else if StartsAt(s, k, "home") then Some("home")
    else None
  }

  /** The tails of the runner tracker's five patterns. */
  datatype Tail =
    | Advances    // ` advances to (1st|2nd|3rd|home)`
    | Scores      // ` scores`
    | OutAt       // `\s+out(?: at (1st|2nd|3rd|home))?`, the optional group never matters
    | PinchRuns   // ` pinch runs for ([A-Za-z\-'. ]+)`
    | Stole       // ` stole (2nd|3rd|home)`

  predicate TailAt(t: Tail, s: string, q: nat)
    requires q <= |s|
  {
    match t
    case Advances => StartsAt(s, q, " advances to ") && BaseWordAt(s, q + 13, true).Some?
    case Scores => StartsAt(s, q, " scores")
    case OutAt => var k := SkipSpaces(s, q); k > q && StartsAt(s, k, "out")
    case PinchRuns => StartsAt(s, q, " pinch runs for ") && q + 16 < |s| && NameChar(s[q + 16])
    case Stole => StartsAt(s, q, " stole ") && BaseWordAt(s, q + 7, false).Some?
  }

  /** `q` can end the captured name: a name character precedes it and the tail follows. */
  predicate ValidEnd(t: Tail, s: string, q: nat) {
    1 <= q <= |s| && NameChar(s[q - 1]) && TailAt(t, s, q)
  }

  function FirstValidEnd(t: Tail, s: string, q: nat): (r: Option<nat>)
    ensures r.Some? ==> q <= r.value && ValidEnd(t, s, r.value)
    ensures r.Some? ==> forall j :: q <= j < r.value ==> !ValidEnd(t, s, j)
    ensures r.None? ==> forall j :: q <= j ==> !ValidEnd(t, s, j)
    decreases |s| + 1 - q
  {
    if q > |s| then None
    else if ValidEnd(t, s, q) then Some(q)
    else FirstValidEnd(t, s, q + 1)
  }

  function LastValidEnd(t: Tail, s: string, lo: nat, hi: nat): (r: nat)
    requires lo <= hi && ValidEnd(t, s, lo)
    ensures lo <= r <= hi && ValidEnd(t, s, r)
    ensures forall j :: r < j <= hi ==> !ValidEnd(t, s, j)
    decreases hi - lo
  {
    if hi == lo || ValidEnd(t, s, hi) then hi else LastValidEnd(t, s, lo, hi - 1)
  }

  /** A match: the captured name's span and its normalised text. */
  datatype Capture = Capture(start: nat, end: nat, name: string)

  /** `s.match(/([A-Za-z\-'. ]+)<tail>/)` with group 1 normalised; `MatchSpec`
      states what the match is. */
  function Match(t: Tail, s: string): (r: Option<Capture>)
    ensures r.Some? ==> ValidEnd(t, s, r.value.end)
  {
    match FirstValidEnd(t, s, 0)
    case None => None
    case Some(q1) =>
      var p := RunStart(s, q1);
      var q := LastValidEnd(t, s, q1, RunEnd(s, p));
      Some(Capture(p, q, Normalize(s[p..q])))
  }

  /** The regex semantics of `Match`: it matches exactly when some end position is
      valid; the capture is a non-empty run of name characters ending at a valid
      end, starting where no earlier match can start (leftmost), and extending to
      the last valid end inside its run (greedy); the name is its normalised text. */
  lemma MatchSpec(t: Tail, s: string)
    ensures Match(t, s).Some? <==> exists q: nat :: ValidEnd(t, s, q)
    ensures Match(t, s).Some? ==> var c := Match(t, s).value;
      && c.start < c.end <= |s|
      && (forall i :: c.start <= i < c.end ==> NameChar(s[i]))
      && ValidEnd(t, s, c.end)
      && c.name == Normalize(s[c.start..c.end])
      && (c.start > 0 ==> !NameChar(s[c.start - 1]))
      && (forall j: nat :: j <= c.start ==> !ValidEnd(t, s, j))
      && (forall j: nat :: c.end < j <= RunEnd(s, c.start) ==> !ValidEnd(t, s, j))
  {
    if Match(t, s).Some? {
      MatchCapture(t, s);
    } else {
      assert FirstValidEnd(t, s, 0).None?;
    }
  }

  /** What a match captures, from the first valid end on. */
  lemma MatchCapture(t: Tail, s: string)
    requires Match(t, s).Some?
    ensures var c := Match(t, s).value;
      && c.start < c.end <= |s|
      && (forall i :: c.start <= i < c.end ==> NameChar(s[i]))
      && c.name == Normalize(s[c.start..c.end])
      && (c.start > 0 ==> !NameChar(s[c.start - 1]))
      && (forall j: nat :: j <= c.start ==> !ValidEnd(t, s, j))
      && (forall j: nat :: c.end < j <= RunEnd(s, c.start) ==> !ValidEnd(t, s, j))
  {
    var q1 := FirstValidEnd(t, s, 0).value;
    CaptureFacts(t, s, q1);
    var p := RunStart(s, q1);
    var q := LastValidEnd(t, s, q1, RunEnd(s, p));
    assert Match(t, s) == Some(Capture(p, q, Normalize(s[p..q])));
  }

  /** The capture built around the first valid end `q1`. */
  lemma CaptureFacts(t: Tail, s: string, q1: nat)
    requires ValidEnd(t, s, q1)
    requires forall j :: 0 <= j < q1 ==> !ValidEnd(t, s, j)
    ensures var p := RunStart(s, q1);
            var q := LastValidEnd(t, s, q1, RunEnd(s, p));
            && p < q1 <= q <= |s|
            && (forall i :: p <= i < q ==> NameChar(s[i]))
            && (forall j: nat :: j <= p ==> !ValidEnd(t, s, j))
            && (forall j: nat :: q < j <= RunEnd(s, p) ==> !ValidEnd(t, s, j))
  {
    var p := RunStart(s, q1);
    assert NameChar(s[q1 - 1]);
    var e := RunEnd(s, p);
    RunEndCovers(s, p, q1);
    var q := LastValidEnd(t, s, q1, e);
    RunEndCovers(s, p, q);
  }

  /** A run that starts at `p` and is all name characters up to `q` reaches `q`. */
  lemma {:induction false} RunEndCovers(s: string, p: nat, q: nat)
    requires p <= q <= |s|
    requires forall i :: p <= i < q ==> NameChar(s[i])
    ensures q <= RunEnd(s, p)
    ensures forall i :: p <= i < RunEnd(s, p) ==> NameChar(s[i])
    decreases q - p
  {
    if p < q {
      RunEndCovers(s, p + 1, q);
    }
  }

  /** The base word captured after ` advances to ` or ` stole `. */
  function CapturedBase(t: Tail, s: string, q: nat): (b: string)
    requires t == Advances || t == Stole
    requires ValidEnd(t, s, q)
    ensures b in {"1st", "2nd", "3rd", "home"}
    ensures t == Stole ==> b != "1st"
  {
    if t == Advances then BaseWordAt(s, q + 13, true).value else BaseWordAt(s, q + 7, false).value
  }

  // ----- anchored, case-insensitive patterns of the at-bat boundary detector -----

  /** The verbs of the at-bat start pattern. */
  function StartVerbs(): seq<string> {
    [ "grounded out", "lined out", "flied out", "popped out", "struck out", "was called out",
      "struck", "lined", "grounded", "flied", "popped", "walked", "hit", "reached", "homered",
      "sacrificed", "was called", "doubled", "tripled", "singled", "bunted", "hit by",
      "was hit by", "pinch hit" ]
  }

  /** The verbs of the looser pattern tried on a force-split sentence. */
  function ForcedVerbs(): seq<string> {
    [ "lined", "grounded", "flied", "popped", "struck", "walked", "hit", "reached", "homered",
      "sacrificed", "was called", "doubled", "tripled", "singled", "bunted", "hit by" ]
  }

  predicate VerbAt(s: string, k: nat, verbs: seq<string>) {
    exists i :: 0 <= i < |verbs| && StartsAtCI(s, k, verbs[i])
  }

  /** `s[..q]` can be group 1 of `^([A-Za-z\s\-'.]+)\s+(verbs)` (case-insensitive):
      it is non-empty, lies inside the leading run of name characters, and
      whitespace and a verb follow it. */
  predicate NameEnd(s: string, q: nat, verbs: seq<string>) {
    && 1 <= q <= WsRunEnd(s, 0)
    && var k := SkipSpaces(s, q); k > q && VerbAt(s, k, verbs)
  }

  function FirstNameEnd(s: string, q: nat, verbs: seq<string>): (r: Option<nat>)
    ensures r.Some? ==> q <= r.value && NameEnd(s, r.value, verbs)
    ensures r.Some? ==> forall j :: q <= j < r.value ==> !NameEnd(s, j, verbs)
    ensures r.None? ==> forall j :: q <= j ==> !NameEnd(s, j, verbs)
    decreases |s| + 1 - q
  {
    if q > WsRunEnd(s, 0) then None
    else if NameEnd(s, q, verbs) then Some(q)
    else FirstNameEnd(s, q + 1, verbs)
  }

  function LastNameEnd(s: string, q: nat, verbs: seq<string>): (r: Option<nat>)
    requires q <= |s|
    ensures r.Some? ==> r.value <= q && NameEnd(s, r.value, verbs)
    ensures r.Some? ==> forall j :: r.value < j <= q ==> !NameEnd(s, j, verbs)
    ensures r.None? ==> forall j: nat :: j <= q ==> !NameEnd(s, j, verbs)
  {
    if NameEnd(s, q, verbs) then Some(q)
    else if q == 0 then None
    else LastNameEnd(s, q - 1, verbs)
  }

  /** A match of an anchored pattern: where group 1 ends and its trimmed text. */
  datatype NameMatch = NameMatch(end: nat, name: string)

  /** The at-bat start pattern: `^([A-Za-z\s\-'.]+?)\s+(grounded out|...|pinch hit)`
      with flag `i`; the batter is the trimmed group 1 of the shortest match.
      `StartMatchSpec` states what the match is. */
  function StartMatch(s: string): (r: Option<NameMatch>)
    ensures r.Some? ==> 1 <= r.value.end <= |s|
  {
    match FirstNameEnd(s, 0, StartVerbs())
    case None => None
    case Some(q) => Some(NameMatch(q, Trim(s[..q])))
  }

  /** The start pattern matches exactly when some prefix can be group 1; the match
      ends at the first such prefix (lazy `+?`), and the batter is its trimmed text. */
  lemma StartMatchSpec(s: string)
    ensures StartMatch(s).Some? <==> exists q: nat :: NameEnd(s, q, StartVerbs())
    ensures StartMatch(s).Some? ==> var m := StartMatch(s).value;
      && NameEnd(s, m.end, StartVerbs()) && m.name == Trim(s[..m.end])
      && forall j: nat :: j < m.end ==> !NameEnd(s, j, StartVerbs())
  {
  }

  /** The force-split pattern `^\*?\s*\^*\s*([A-Za-z\s\-'.]+)\s+(lined|...|hit by)` with
      flag `i`, applied to a cleaned sentence (which begins with a letter or a digit,
      so the optional `*`, `^` and whitespace prefix matches nothing); the name is the
      trimmed group 1 of the longest match. `ForcedMatchSpec` states what the match is. */
  function ForcedMatch(s: string): (r: Option<NameMatch>)
    ensures r.Some? ==> 1 <= r.value.end <= |s|
  {
    match LastNameEnd(s, |s|, ForcedVerbs())
    case None => None
    case Some(q) => Some(NameMatch(q, Trim(s[..q])))
  }

  /** The force-split pattern matches exactly when some prefix can be group 1; the
      match ends at the last such prefix (greedy `+`). */
  lemma ForcedMatchSpec(s: string)
    ensures ForcedMatch(s).Some? <==> exists q: nat :: NameEnd(s, q, ForcedVerbs())
    ensures ForcedMatch(s).Some? ==> var m := ForcedMatch(s).value;
      && NameEnd(s, m.end, ForcedVerbs()) && m.name == Trim(s[..m.end])
      && forall j: nat :: m.end < j ==> !NameEnd(s, j, ForcedVerbs())
  {
  }

  /** Every verb of the force-split pattern is also a verb of the start pattern. */
  lemma ForcedVerbsAreStartVerbs()
    ensures forall i :: 0 <= i < |ForcedVerbs()| ==> ForcedVerbs()[i] in StartVerbs()
  {
  }

  /** The force-split pattern can only match where the start pattern already
      matches; so at the one place the source tries it (a sentence the start pattern
      rejected) it never matches and the new at-bat is always named "Unknown". */
  lemma ForcedMatchImpliesStartMatch(s: string)
    ensures ForcedMatch(s).Some? ==> StartMatch(s).Some?
  {
    ForcedMatchSpec(s);
    StartMatchSpec(s);
    if ForcedMatch(s).Some? {
      var q := ForcedMatch(s).value.end;
      var k := SkipSpaces(s, q);
      var i :| 0 <= i < |ForcedVerbs()| && StartsAtCI(s, k, ForcedVerbs()[i]);
      ForcedVerbsAreStartVerbs();
      var j :| 0 <= j < |StartVerbs()| && StartVerbs()[j] == ForcedVerbs()[i];
      assert NameEnd(s, q, StartVerbs());
    }
  }

  /** The steal continuation `^[A-Za-z\s\-'.]+ stole (2nd|3rd|home)` with flag `i`. */
  predicate StealAt(s: string, q: nat) {
    && 1 <= q <= WsRunEnd(s, 0)
    && StartsAtCI(s, q, " stole ")
    && (StartsAtCI(s, q + 7, "2nd") || StartsAtCI(s, q + 7, "3rd") || StartsAtCI(s, q + 7, "home"))
  }

  predicate IsStealSentence(s: string) {
    exists q: nat :: q <= |s| && StealAt(s, q)
  }
}
