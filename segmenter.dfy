/** From the raw transcript to raw at-bats: the normalisation of the game log in
    `analyze` (colour codes dropped, `^n` line breaks expanded, lines trimmed and
    blank lines removed) and `parseAtBats`, the line-by-line state machine that
    cuts the sentences of the user's team's half-innings into at-bats. */
module Segmenter {
  import opened Text
  import opened Patterns

  // ----- the transcript normaliser -----

  /** `s.replace(/\^c\d+/g, '')`: every colour code `^c<digits>` is removed. */
  function StripColorCodes(s: string): (r: string)
    ensures |r| <= |s|
    ensures '^' !in s ==> r == s
    decreases |s|
  {
    if |s| >= 3 && s[0] == '^' && s[1] == 'c' && IsDigit(s[2]) then StripColorCodes(s[DigitsEnd(s, 2)..])
    else if s == [] then []
    else [s[0]] + StripColorCodes(s[1..])
  }

  /** `s.replace(/\^n/g, '\n')`: every `^n` becomes a line break, so none is left. */
  function ExpandLineBreaks(s: string): (r: string)
    ensures |r| <= |s|
    ensures r != [] ==> r[0] == '\n' || r[0] == s[0]
    ensures s != [] ==> r != []
    ensures forall i, j :: 0 <= i && j == i + 1 && j < |r| ==> !(r[i] == '^' && r[j] == 'n')
    decreases |s|
  {
    if |s| >= 2 && s[0] == '^' && s[1] == 'n' then ['\n'] + ExpandLineBreaks(s[2..])
    else if s == [] then []
    else [s[0]] + ExpandLineBreaks(s[1..])
  }

  /** A character that does not open a colour code is kept, and cleaning goes
      on after it. */
  lemma StripCons(c: char, t: string)
    requires !(c == '^' && |t| >= 2 && t[0] == 'c' && IsDigit(t[1]))
    ensures StripColorCodes([c] + t) == [c] + StripColorCodes(t)
  {
    var s := [c] + t;
    assert s[0] == c && s[1..] == t;
    if |t| >= 2 {
      assert s[1] == t[0] && s[2] == t[1];
    }
  }

  /** Text that does not begin a colour code where it is glued on does not
      change how the text before it is cleaned: no code straddles the seam. */
  lemma {:induction false} StripAppend(a: string, b: string)
    requires b == [] || (b[0] != 'c' && !IsDigit(b[0]))
    ensures StripColorCodes(a + b) == StripColorCodes(a) + StripColorCodes(b)
    decreases |a|
  {
    if a == [] {
      assert a + b == b;
    } else if |a| >= 3 && a[0] == '^' && a[1] == 'c' && IsDigit(a[2]) {
      StripAppendCode(a, b);
    } else {
      var t := a[1..];
      assert a == [a[0]] + t;
      assert a + b == [a[0]] + (t + b);
      StripAppend(t, b);
      if t == [] {
        assert t + b == b;
      } else if |t| >= 2 {
        assert (t + b)[0] == a[1] && (t + b)[1] == a[2];
      } else if b != [] {
        assert (t + b)[0] == a[1] && (t + b)[1] == b[0];
      }
      StripCons(a[0], t + b);
      StripCons(a[0], t);
      ConsAssoc(a[0], StripColorCodes(t), StripColorCodes(b));
    }
  }

  /** The colour-code step of `StripAppend`: the code at the front of `a` ends
      inside `a`, because `b` does not go on with a digit. */
  lemma {:induction false} StripAppendCode(a: string, b: string)
    requires b == [] || (b[0] != 'c' && !IsDigit(b[0]))
    requires |a| >= 3 && a[0] == '^' && a[1] == 'c' && IsDigit(a[2])
    ensures StripColorCodes(a + b) == StripColorCodes(a) + StripColorCodes(b)
    decreases |a|, 0
  {
    var s := a + b;
    var e := DigitsEnd(a, 2);
    assert s[0] == a[0] && s[1] == a[1] && s[2] == a[2];
    assert forall i :: 2 <= i < e ==> IsDigit(s[i]) by {
      forall i | 2 <= i < e ensures IsDigit(s[i]) {
        assert s[i] == a[i];
      }
    }
    assert e < |s| ==> !IsDigit(s[e]) by {
      if e < |a| {
        assert s[e] == a[e];
      } else if e < |s| {
        assert s[e] == b[0];
      }
    }
    DigitsEndAt(s, 2, e);
    assert s[e..] == a[e..] + b;
    StripAppend(a[e..], b);
  }

  /** A colour code `^c<digits>` whose digit run ends where it stands is removed,
      and nothing around it changes. */
  lemma StripRemovesCode(a: string, d: string, b: string)
    requires d != [] && forall i :: 0 <= i < |d| ==> IsDigit(d[i])
    requires b == [] || !IsDigit(b[0])
    ensures StripColorCodes(a + "^c" + d + b) == StripColorCodes(a) + StripColorCodes(b)
  {
    var code := "^c" + d + b;
    assert a + "^c" + d + b == a + code;
    StripAppend(a, code);
    StripCodeFront(d, b);
  }

  /** The colour code at the front of `"^c" + d + b` is exactly `"^c" + d`. */
  lemma StripCodeFront(d: string, b: string)
    requires d != [] && forall i :: 0 <= i < |d| ==> IsDigit(d[i])
    requires b == [] || !IsDigit(b[0])
    ensures StripColorCodes("^c" + d + b) == StripColorCodes(b)
  {
    var code := "^c" + d + b;
    CodeShape(d, b);
    DigitsEndAt(code, 2, 2 + |d|);
  }

  /** Where the parts of `"^c" + d + b` sit. */
  lemma CodeShape(d: string, b: string)
    requires d != [] && forall i :: 0 <= i < |d| ==> IsDigit(d[i])
    requires b == [] || !IsDigit(b[0])
    ensures var code := "^c" + d + b;
      |code| >= 3 && code[0] == '^' && code[1] == 'c' && IsDigit(code[2]) &&
      (forall i :: 2 <= i < 2 + |d| ==> IsDigit(code[i])) &&
      (2 + |d| == |code| || !IsDigit(code[2 + |d|])) &&
      code[2 + |d|..] == b
  {
    var code := "^c" + d + b;
    assert code[2] == d[0];
    forall i | 2 <= i < 2 + |d|
      ensures IsDigit(code[i])
    {
      assert code[i] == d[i - 2];
    }
    assert 2 + |d| < |code| ==> code[2 + |d|] == b[0];
    assert code[2 + |d|..] == b;
  }

  /** A character that does not open a `^n` is kept, and expansion goes on
      after it. */
  lemma ExpandCons(c: char, t: string)
    requires c != '^' || t == [] || t[0] != 'n'
    ensures ExpandLineBreaks([c] + t) == [c] + ExpandLineBreaks(t)
  {
    var s := [c] + t;
    assert s[0] == c && s[1..] == t;
    if t != [] {
      assert s[1] == t[0];
    }
  }

  /** A `^n` at the front becomes a line break, and expansion goes on after it. */
  lemma ExpandBreakCons(t: string)
    ensures ExpandLineBreaks("^n" + t) == "\n" + ExpandLineBreaks(t)
  {
    var s := "^n" + t;
    assert s[0] == '^' && s[1] == 'n' && s[2..] == t;
  }

  /** Text that does not start with `n` where it is glued on does not change how
      the text before it is expanded. */
  lemma {:induction false} ExpandAppend(a: string, b: string)
    requires b == [] || b[0] != 'n'
    ensures ExpandLineBreaks(a + b) == ExpandLineBreaks(a) + ExpandLineBreaks(b)
    decreases |a|
  {
    if a == [] {
      assert a + b == b;
    } else if |a| >= 2 && a[0] == '^' && a[1] == 'n' {
      var t := a[2..];
      assert a == "^n" + t;
      assert a + b == "^n" + (t + b);
      ExpandAppend(t, b);
      ExpandBreakCons(t + b);
      ExpandBreakCons(t);
      ConsAssoc('\n', ExpandLineBreaks(t), ExpandLineBreaks(b));
    } else {
      var t := a[1..];
      assert a == [a[0]] + t;
      assert a + b == [a[0]] + (t + b);
      ExpandAppend(t, b);
      if t != [] {
        assert (t + b)[0] == t[0] == a[1];
      } else {
        assert t + b == b;
      }
      ExpandCons(a[0], t + b);
      ExpandCons(a[0], t);
      ConsAssoc(a[0], ExpandLineBreaks(t), ExpandLineBreaks(b));
    }
  }

  lemma ConsAssoc(c: char, x: string, y: string)
    ensures [c] + (x + y) == ([c] + x) + y
  {
  }

  /** Every `^n` becomes a line break where it stood, and the text around it is
      expanded on its own. */
  lemma ExpandLineBreak(a: string, b: string)
    ensures ExpandLineBreaks(a + "^n" + b) == ExpandLineBreaks(a) + "\n" + ExpandLineBreaks(b)
  {
    assert a + "^n" + b == a + ("^n" + b);
    ExpandAppend(a, "^n" + b);
    assert ("^n" + b)[2..] == b;
  }

  /** Text without `^` is left as it is. */
  lemma {:induction false} ExpandNoCaret(s: string)
    requires '^' !in s
    ensures ExpandLineBreaks(s) == s
    decreases |s|
  {
    if s != [] {
      assert '^' !in s[1..];
      ExpandNoCaret(s[1..]);
    }
  }

  /** `lines.map(l => l.trim()).filter(Boolean)` */
  function TrimNonBlank(lines: seq<string>): (r: seq<string>)
    ensures |r| <= |lines|
    ensures forall i :: 0 <= i < |r| ==> r[i] != [] && Trim(r[i]) == r[i]
  {
    if lines == [] then []
    else if Trim(lines[0]) == [] then TrimNonBlank(lines[1..])
    else
      var rest := TrimNonBlank(lines[1..]);
      TrimAgain(lines[0]);
      KeptCons(Trim(lines[0]), rest);
      [Trim(lines[0])] + rest
  }

  /** A trimmed, non-empty line put in front of trimmed, non-empty lines. */
  lemma KeptCons(x: string, rest: seq<string>)
    requires x != [] && Trim(x) == x
    requires forall i :: 0 <= i < |rest| ==> rest[i] != [] && Trim(rest[i]) == rest[i]
    ensures forall i :: 0 <= i < 1 + |rest| ==> ([x] + rest)[i] != [] && Trim(([x] + rest)[i]) == ([x] + rest)[i]
  {
    forall i | 0 <= i < 1 + |rest|
      ensures ([x] + rest)[i] != [] && Trim(([x] + rest)[i]) == ([x] + rest)[i]
    {
      if i > 0 {
        assert ([x] + rest)[i] == rest[i - 1];
      }
    }
  }

  /** Trimming and dropping blank lines works line by line: the kept lines of
      two lists end to end are the kept lines of each, in order. */
  lemma {:induction false} TrimNonBlankAppend(a: seq<string>, b: seq<string>)
    ensures TrimNonBlank(a + b) == TrimNonBlank(a) + TrimNonBlank(b)
    decreases |a|
  {
    if a == [] {
      assert a + b == b;
    } else {
      assert (a + b)[0] == a[0] && (a + b)[1..] == a[1..] + b;
      TrimNonBlankAppend(a[1..], b);
    }
  }

  /** One line is kept, trimmed, exactly when it is not blank. */
  lemma TrimNonBlankOne(line: string)
    ensures TrimNonBlank([line]) == if Trim(line) == [] then [] else [Trim(line)]
  {
    assert [line][1..] == [];
  }

  /** Trimming is idempotent. */
  lemma TrimAgain(s: string)
    ensures Trim(Trim(s)) == Trim(s)
  {
  }

  /** The game-log lines `analyze` hands to `parseAtBats`: `split(/\r?\n/)` is a
      split at each line feed, the carriage return before it being whitespace
      that the trim removes anyway. */
  function GameLogLines(raw: string): (lines: seq<string>)
    ensures forall i :: 0 <= i < |lines| ==> lines[i] != [] && Trim(lines[i]) == lines[i] && '\n' !in lines[i]
  {
    var pieces := Split(ExpandLineBreaks(StripColorCodes(raw)), '\n');
    var lines := TrimNonBlank(pieces);
    assert forall i :: 0 <= i < |lines| ==> '\n' !in lines[i] by {
      TrimNonBlankKeepsOut(pieces, '\n');
    }
    lines
  }

  /** Both a line feed and a `^n` cut the transcript in two: the lines handed on
      are those of the text before the cut followed by those after it. */
  lemma GameLogLinesBreak(a: string, b: string)
    ensures GameLogLines(a + "\n" + b) == GameLogLines(a) + GameLogLines(b)
    ensures GameLogLines(a + "^n" + b) == GameLogLines(a) + GameLogLines(b)
  {
    var sa, sb := StripColorCodes(a), StripColorCodes(b);
    StripFeed(a, b);
    StripCaret(a, b);
    var xa, xb := ExpandLineBreaks(sa), ExpandLineBreaks(sb);
    ExpandFeed(sa, sb);
    ExpandLineBreak(sa, sb);
    SplitAppend(xa, xb, '\n');
    TrimNonBlankAppend(Split(xa, '\n'), Split(xb, '\n'));
  }

  lemma StripFeed(a: string, b: string)
    ensures StripColorCodes(a + "\n" + b) == StripColorCodes(a) + "\n" + StripColorCodes(b)
  {
    assert a + "\n" + b == a + ("\n" + b);
    StripAppend(a, "\n" + b);
    StripCons('\n', b);
  }

  lemma StripCaret(a: string, b: string)
    ensures StripColorCodes(a + "^n" + b) == StripColorCodes(a) + "^n" + StripColorCodes(b)
  {
    assert a + "^n" + b == a + (['^'] + (['n'] + b));
    StripAppend(a, ['^'] + (['n'] + b));
    StripCons('n', b);
    StripCons('^', ['n'] + b);
  }

  lemma ExpandFeed(a: string, b: string)
    ensures ExpandLineBreaks(a + "\n" + b) == ExpandLineBreaks(a) + "\n" + ExpandLineBreaks(b)
  {
    assert a + "\n" + b == a + ("\n" + b);
    ExpandAppend(a, "\n" + b);
    ExpandCons('\n', b);
  }

  /** A transcript line without line breaks or caret codes is handed on trimmed,
      unless it is blank. */
  lemma GameLogLinesOne(line: string)
    requires '^' !in line && '\n' !in line
    ensures GameLogLines(line) == if Trim(line) == [] then [] else [Trim(line)]
  {
    ExpandNoCaret(line);
    SplitNone(line, '\n');
    TrimNonBlankOne(line);
  }

  /** A character absent from every piece is absent from every trimmed piece. */
  lemma {:induction false} TrimNonBlankKeepsOut(lines: seq<string>, c: char)
    requires forall i :: 0 <= i < |lines| ==> c !in lines[i]
    ensures forall i :: 0 <= i < |TrimNonBlank(lines)| ==> c !in TrimNonBlank(lines)[i]
  {
    if lines != [] {
      TrimNonBlankKeepsOut(lines[1..], c);
      TrimKeepsOut(lines[0], c);
    }
  }

  lemma TrimKeepsOut(s: string, c: char)
    requires c !in s
    ensures c !in Trim(s)
  {
    assert TrimStart(s) == s[|s| - |TrimStart(s)|..];
    var t := TrimStart(s);
    assert TrimEnd(t) == t[..|TrimEnd(t)|];
  }

  // ----- sentences of a batting line -----

  /** Characters a JavaScript `.` does not match. */
  predicate IsLineTerminator(c: char) {
    c == '\n' || c == '\r' || c == '\U{2028}' || c == '\U{2029}'
  }

  /** The first index at or after `k` where "batting." starts. */
  function FindBatting(s: string, k: nat): (r: Option<nat>)
    requires k <= |s|
    ensures r.Some? ==> k <= r.value && StartsAt(s, r.value, "batting.")
    ensures r.Some? ==> forall j :: k <= j < r.value ==> !StartsAt(s, j, "batting.")
    ensures r.None? ==> forall j :: k <= j <= |s| ==> !StartsAt(s, j, "batting.")
    decreases |s| - k
  {
    if StartsAt(s, k, "batting.") then Some(k)
    else if k == |s| then None
    else FindBatting(s, k + 1)
  }

  /** `line.replace(/^.*?batting\./, '')`: everything up to and including the first
      "batting." is dropped, provided no line terminator comes before it. */
  function AfterBatting(line: string): string {
    match FindBatting(line, 0)
    case None => line
    case Some(k) =>
      if exists j :: 0 <= j < k && IsLineTerminator(line[j]) then line else line[k + 8..]
  }

  /** `.split('.').map(s => s.trim()).filter(Boolean)` */
  function Sentences(line: string): (r: seq<string>)
    ensures forall i :: 0 <= i < |r| ==> r[i] != [] && '.' !in r[i]
  {
    var pieces := Split(AfterBatting(line), '.');
    TrimNonBlankKeepsOut(pieces, '.');
    TrimNonBlank(pieces)
  }

  /** The sentences of a batting line are the trimmed, non-blank pieces between
      the periods after its first "batting.". */
  lemma SentencesAfterBatting(head: string, rest: string)
    requires forall j :: 0 <= j < |head| ==> !StartsAt(head + "batting." + rest, j, "batting.")
    requires forall j :: 0 <= j < |head| ==> !IsLineTerminator(head[j])
    ensures Sentences(head + "batting." + rest) == TrimNonBlank(Split(rest, '.'))
  {
    var line := head + "batting." + rest;
    assert StartsAt(line, |head|, "batting.") by {
      assert line[|head|..|head| + 8] == "batting.";
    }
    assert FindBatting(line, 0) == Some(|head|);
    forall j | 0 <= j < |head|
      ensures !IsLineTerminator(line[j])
    {
      assert line[j] == head[j];
    }
    assert line[|head| + 8..] == rest;
  }

  /** A line without "batting." is cut at every period as it stands. */
  lemma SentencesWithoutBatting(line: string)
    requires FindBatting(line, 0).None?
    ensures Sentences(line) == TrimNonBlank(Split(line, '.'))
  {
  }

  /** The index just past the leading run of characters other than ASCII letters
      and digits. */
  function NonAlnumEnd(s: string, k: nat): (r: nat)
    requires k <= |s|
    ensures k <= r <= |s|
    ensures forall i :: k <= i < r ==> !IsAlnum(s[i])
    ensures r < |s| ==> IsAlnum(s[r])
    decreases |s| - k
  {
    if k < |s| && !IsAlnum(s[k]) then NonAlnumEnd(s, k + 1) else k
  }

  /** The sentence with the prefix `^\^*[^A-Za-z0-9]*\s*` replaced by nothing, then
      trimmed: carets, whitespace and
      every other non-alphanumeric character are all matched by the greedy middle
      class, so the whole non-alphanumeric prefix goes. */
  function Cleaned(sentence: string): (c: string)
    ensures c != [] ==> IsAlnum(c[0])
  {
    var rest := sentence[NonAlnumEnd(sentence, 0)..];
    TrimEndKeepsFirst(rest);
    Trim(rest)
  }

  lemma TrimEndKeepsFirst(s: string)
    requires s != [] ==> IsAlnum(s[0])
    ensures Trim(s) != [] ==> Trim(s)[0] == s[0]
  {
    assert TrimStart(s) == s;
  }

  /** The sentences `parseAtBats` skips: a pitching change, a pinch hitter, or the
      legend (`/pitching\.?$/i`, `/pinch hit for/i`, `/^Game Log Legend/i`). */
  predicate IsSkipped(cleaned: string) {
    || EndsWithCI(cleaned, "pitching")
    || EndsWithCI(cleaned, "pitching.")
    || ContainsCI(cleaned, "pinch hit for")
    || StartsAtCI(cleaned, 0, "game log legend")
  }

  /** The first `Inning <digits>:` in the line and its number. */
  function InningFrom(line: string, k: nat): (r: Option<nat>)
    requires k <= |line|
    decreases |line| - k
  {
    if k + 7 <= |line| && StartsAt(line, k, "Inning ") && DigitsEnd(line, k + 7) > k + 7
       && DigitsEnd(line, k + 7) < |line| && line[DigitsEnd(line, k + 7)] == ':'
    then Some(DigitsValue(line[k + 7..DigitsEnd(line, k + 7)]))
    else if k == |line| then None
    else InningFrom(line, k + 1)
  }

  /** `line.match(/Inning (\d+):/)` with `parseInt(match[1], 10)`. */
  function InningMarker(line: string): Option<nat> {
    InningFrom(line, 0)
  }

  // ----- the sentences of a batting line, read one by one -----

  /** An at-bat as `parseAtBats` emits it. */
  datatype RawAtBat = RawAtBat(batter: string, inning: int, isTopInning: bool, log: seq<string>)

  /** What `parseAtBats` reads from one sentence, before looking at its state: the
      cleaned text, whether it is skipped, the batter the start pattern names, whether
      the sentence begins with `^`, whether it is a steal, and the force-split name. */
  datatype SentenceToken = SentenceToken(
    cleaned: string,
    skipped: bool,
    start: Option<string>,
    caret: bool,
    steal: bool,
    forcedName: string)

  /** The batter named by the start pattern (trimmed group 1). */
  function StartName(cleaned: string): Option<string> {
    match StartMatch(cleaned)
    case Some(m) => Some(m.name)
    case None => None
  }

  /** The batter named by the force-split pattern, or "Unknown". */
  function ForcedName(cleaned: string): string {
    match ForcedMatch(cleaned)
    case Some(m) => m.name
    case None => "Unknown"
  }

  function ReadSentence(sentence: string): SentenceToken {
    var cleaned := Cleaned(sentence);
    SentenceToken(cleaned, IsSkipped(cleaned), StartName(cleaned),
                  sentence != [] && sentence[0] == '^', IsStealSentence(cleaned), ForcedName(cleaned))
  }

  /** The tokens of the sentences of a line, in order. */
  function ReadSentences(sentences: seq<string>): (ts: seq<SentenceToken>)
    ensures |ts| == |sentences|
  {
    seq(|sentences|, i requires 0 <= i < |sentences| => ReadSentence(sentences[i]))
  }

  // ----- the sentence state machine of one batting line -----

  /** The at-bats of a line so far and the one still open (`currentAtBat`). */
  datatype Segment = Segment(done: seq<RawAtBat>, current: Option<RawAtBat>)

  /** `currentAtBat.log.push(cleaned)` */
  function Extend(a: RawAtBat, cleaned: string): RawAtBat {
    a.(log := a.log + [cleaned])
  }

  /** How `parseAtBats` treats one sentence. */
  datatype SentenceKind =
    | Skipped                     // pitching change, pinch hitter or legend
    | Start(batter: string)       // the start pattern names a new batter
    | Steal                       // `^`-sentence while an at-bat is open: a steal
    | ForceSplit(batter: string)  // `^`-sentence while an at-bat is open: a new at-bat
    | Continuation                // anything else: part of the open at-bat, if any

  /** The tests in the order the code makes them: skip, start pattern, `^` with an
      open at-bat (steal or forced split), continuation. */
  function Kind(t: SentenceToken, open: bool): SentenceKind {
    if t.skipped then Skipped
    else if t.start.Some? then Start(t.start.value)
    else if t.caret && open then (if t.steal then Steal else ForceSplit(t.forcedName))
    else Continuation
  }

  /** The effect of a sentence on the line's at-bats. A start closes the open at-bat
      and opens a new one; a steal or a continuation is appended to the open at-bat,
      and is dropped when none is open; a forced split closes the open at-bat and
      opens one under the forced name. */
  function Step(seg: Segment, t: SentenceToken, inning: int, isTopInning: bool): Segment {
    match Kind(t, seg.current.Some?)
    case Skipped => seg
    case Start(batter) =>
      Segment(seg.done + (if seg.current.Some? then [seg.current.value] else []),
              Some(RawAtBat(batter, inning, isTopInning, [t.cleaned])))
    case ForceSplit(batter) =>
      Segment(seg.done + [seg.current.value], Some(RawAtBat(batter, inning, isTopInning, [t.cleaned])))
    case _ =>
      if seg.current.None? then seg
      else Segment(seg.done, Some(Extend(seg.current.value, t.cleaned)))
  }

  /** The sentence loop, from the front. */
  function SegmentFrom(ts: seq<SentenceToken>, seg: Segment, inning: int, isTopInning: bool): Segment
    decreases |ts|
  {
    if ts == [] then seg
    else SegmentFrom(ts[1..], Step(seg, ts[0], inning, isTopInning), inning, isTopInning)
  }

  predicate AllBlank(log: seq<string>) {
    forall i :: 0 <= i < |log| ==> Trim(log[i]) == []
  }

  /** After the sentence loop the open at-bat is emitted unless its log is blank. */
  function Close(seg: Segment): seq<RawAtBat> {
    if seg.current.Some? && !AllBlank(seg.current.value.log) then seg.done + [seg.current.value] else seg.done
  }

  /** The at-bats one batting line yields. */
  function SegmentLine(ts: seq<SentenceToken>, inning: int, isTopInning: bool): seq<RawAtBat> {
    Close(SegmentFrom(ts, Segment([], None), inning, isTopInning))
  }

  /** The inner `for (const sentence of sentences)` loop of `parseAtBats`, over the
      tokens of the line's sentences. */
  method SegmentSentences(ts: seq<SentenceToken>, inning: int, isTopInning: bool)
    returns (atBats: seq<RawAtBat>)
    ensures atBats == SegmentLine(ts, inning, isTopInning)
  {
    atBats := [];
    var currentAtBat: Option<RawAtBat> := None;
    var i := 0;
    while i < |ts|
      invariant 0 <= i <= |ts|
      invariant SegmentFrom(ts[i..], Segment(atBats, currentAtBat), inning, isTopInning)
                == SegmentFrom(ts, Segment([], None), inning, isTopInning)
    {
      var t := ts[i];
      ghost var before := Segment(atBats, currentAtBat);
      if !t.skipped {
        if t.start.Some? {
          if currentAtBat.Some? {
            atBats := atBats + [currentAtBat.value];
          }
          currentAtBat := Some(RawAtBat(t.start.value, inning, isTopInning, [t.cleaned]));
        } else if t.caret && currentAtBat.Some? {
          if t.steal {
            currentAtBat := Some(Extend(currentAtBat.value, t.cleaned));
          } else {
            atBats := atBats + [currentAtBat.value];
            currentAtBat := Some(RawAtBat(t.forcedName, inning, isTopInning, [t.cleaned]));
          }
        } else if currentAtBat.Some? {
          currentAtBat := Some(Extend(currentAtBat.value, t.cleaned));
        }
      }
      assert Segment(atBats, currentAtBat) == Step(before, t, inning, isTopInning);
      assert ts[i..][1..] == ts[i + 1..];
      i := i + 1;
    }
    if currentAtBat.Some? && !AllBlank(currentAtBat.value.log) {
      atBats := atBats + [currentAtBat.value];
    }
  }

  // ----- the line loop -----

  /** What `parseAtBats` reads from one trimmed line: the legend, the inning marker,
      the two batting announcements, and the line's sentences. */
  datatype LineToken = LineToken(
    legend: bool,
    marker: Option<nat>,
    mine: bool,
    theirs: bool,
    sentences: seq<SentenceToken>)

  function ReadLine(line: string, myTeamName: string, opponentTeamName: string): LineToken {
    LineToken(Contains(line, "Game Log Legend"), InningMarker(line),
              Contains(line, myTeamName + " batting."), Contains(line, opponentTeamName + " batting."),
              ReadSentences(Sentences(line)))
  }

  /** The tokens of every line, each line trimmed first. */
  function ReadLines(gameLog: seq<string>, myTeamName: string, opponentTeamName: string): (ts: seq<LineToken>)
    ensures |ts| == |gameLog|
  {
    seq(|gameLog|, i requires 0 <= i < |gameLog| => ReadLine(Trim(gameLog[i]), myTeamName, opponentTeamName))
  }

  /** `inning`, `isTopInning` and the at-bats so far. */
  datatype ParseState = ParseState(atBats: seq<RawAtBat>, inning: int, isTopInning: bool)

  /** One line that is not the legend: the inning marker, then the user's team's
      batting line (which clears `isTopInning` and yields at-bats), then the
      opponent's batting line (which sets it). */
  function LineStep(st: ParseState, t: LineToken): ParseState {
    var inning := if t.marker.Some? then t.marker.value else st.inning;
    var atBats := if t.mine then st.atBats + SegmentLine(t.sentences, inning, false) else st.atBats;
    var top := if t.theirs then true else if t.mine then false else st.isTopInning;
    ParseState(atBats, inning, top)
  }

  /** The line loop, from the front; it stops at the first legend line. */
  function ParseFrom(ts: seq<LineToken>, st: ParseState): seq<RawAtBat>
    decreases |ts|
  {
    if ts == [] || ts[0].legend then st.atBats
    else ParseFrom(ts[1..], LineStep(st, ts[0]))
  }

  /** `parseAtBats(gameLog, myTeamName, opponentTeamName)` as a value. */
  function ParseLog(gameLog: seq<string>, myTeamName: string, opponentTeamName: string): seq<RawAtBat> {
    ParseFrom(ReadLines(gameLog, myTeamName, opponentTeamName), ParseState([], 1, true))
  }

  /** `parseAtBats`: the outer loop, over the tokens of the game-log lines. */
  method ParseAtBats(ts: seq<LineToken>) returns (atBats: seq<RawAtBat>)
    ensures atBats == ParseFrom(ts, ParseState([], 1, true))
  {
    atBats := [];
    var inning := 1;
    var isTopInning := true;
    var i := 0;
    while i < |ts|
      invariant 0 <= i <= |ts|
      invariant ParseFrom(ts[i..], ParseState(atBats, inning, isTopInning)) == ParseFrom(ts, ParseState([], 1, true))
    {
      var t := ts[i];
      if t.legend {
        assert ParseFrom(ts[i..], ParseState(atBats, inning, isTopInning)) == atBats;
        break;
      }
      ghost var before := ParseState(atBats, inning, isTopInning);
      assert ParseFrom(ts[i..], before) == ParseFrom(ts[i..][1..], LineStep(before, t));
      if t.marker.Some? {
        inning := t.marker.value;
      }
      if t.mine {
        isTopInning := false;
        var lineAtBats := SegmentSentences(t.sentences, inning, isTopInning);
        atBats := atBats + lineAtBats;
      }
      if t.theirs {
        isTopInning := true;
      }
      assert ParseState(atBats, inning, isTopInning) == LineStep(before, t);
      assert ts[i..][1..] == ts[i + 1..];
      i := i + 1;
    }
  }

  // ----- properties of the segmenter -----

  /** An at-bat as every emitted one is: a non-empty log and, because the flag is
      cleared before any at-bat of the line is opened, `isTopInning` false. */
  ghost predicate WellFormed(a: RawAtBat) {
    |a.log| >= 1 && !a.isTopInning
  }

  /** The shape every at-bat of a line has: a non-empty log, the line's inning and
      `isTopInning` false. */
  ghost predicate LineShaped(a: RawAtBat, inning: int) {
    |a.log| >= 1 && a.inning == inning && !a.isTopInning
  }

  ghost predicate SegmentShaped(seg: Segment, inning: int) {
    && (forall i :: 0 <= i < |seg.done| ==> LineShaped(seg.done[i], inning))
    && (seg.current.Some? ==> LineShaped(seg.current.value, inning))
  }

  /** Every at-bat of a line carries the inning in force and a non-empty log. */
  lemma {:induction false} SegmentFromShape(ts: seq<SentenceToken>, seg: Segment, inning: int)
    requires SegmentShaped(seg, inning)
    ensures SegmentShaped(SegmentFrom(ts, seg, inning, false), inning)
    decreases |ts|
  {
    if ts != [] {
      SegmentFromShape(ts[1..], Step(seg, ts[0], inning, false), inning);
    }
  }

  /** The at-bats of a batting line all have a non-empty log, the line's inning and
      `isTopInning` false. */
  lemma SegmentLineShape(ts: seq<SentenceToken>, inning: int)
    ensures forall a :: a in SegmentLine(ts, inning, false) ==> WellFormed(a) && a.inning == inning
  {
    SegmentFromShape(ts, Segment([], None), inning);
    var seg := SegmentFrom(ts, Segment([], None), inning, false);
    forall a | a in Close(seg)
      ensures LineShaped(a, inning)
    {
      var i :| 0 <= i < |Close(seg)| && Close(seg)[i] == a;
      if i < |seg.done| {
        assert a == seg.done[i];
      }
    }
  }

  /** The number of at-bats closed and open in a segment. */
  function Opened(seg: Segment): nat {
    |seg.done| + if seg.current.Some? then 1 else 0
  }

  /** Each sentence opens at most one at-bat. */
  lemma {:induction false} SegmentFromCount(ts: seq<SentenceToken>, seg: Segment, inning: int, isTopInning: bool)
    ensures seg.done <= SegmentFrom(ts, seg, inning, isTopInning).done
    ensures Opened(SegmentFrom(ts, seg, inning, isTopInning)) <= Opened(seg) + |ts|
    decreases |ts|
  {
    if ts != [] {
      SegmentFromCount(ts[1..], Step(seg, ts[0], inning, isTopInning), inning, isTopInning);
    }
  }

  /** A batting line yields at most one at-bat per sentence. */
  lemma SegmentLineAtMostSentences(ts: seq<SentenceToken>, inning: int, isTopInning: bool)
    ensures |SegmentLine(ts, inning, isTopInning)| <= |ts|
  {
    SegmentFromCount(ts, Segment([], None), inning, isTopInning);
  }

  /** The inning after a line is that of its marker if it has one, else unchanged;
      the at-bats the line adds carry exactly that inning; and the line's at-bats
      come after the earlier ones, which are kept. */
  lemma LineStepInning(st: ParseState, t: LineToken)
    ensures var st' := LineStep(st, t);
            && st'.inning == (if t.marker.Some? then t.marker.value else st.inning)
            && st.atBats <= st'.atBats
            && (!t.mine ==> st'.atBats == st.atBats)
            && forall i :: |st.atBats| <= i < |st'.atBats| ==> WellFormed(st'.atBats[i]) && st'.atBats[i].inning == st'.inning
  {
    var st' := LineStep(st, t);
    SegmentLineShape(t.sentences, st'.inning);
    if t.mine {
      var added := SegmentLine(t.sentences, st'.inning, false);
      forall i | |st.atBats| <= i < |st'.atBats|
        ensures WellFormed(st'.atBats[i]) && st'.atBats[i].inning == st'.inning
      {
        assert st'.atBats[i] == added[i - |st.atBats|];
      }
    }
  }

  /** Every at-bat the line loop emits has a non-empty log and `isTopInning` false. */
  lemma {:induction false} ParseFromWellFormed(ts: seq<LineToken>, st: ParseState)
    requires forall a :: a in st.atBats ==> WellFormed(a)
    ensures forall a :: a in ParseFrom(ts, st) ==> WellFormed(a)
    decreases |ts|
  {
    if ts != [] && !ts[0].legend {
      var st' := LineStep(st, ts[0]);
      LineStepInning(st, ts[0]);
      forall a | a in st'.atBats
        ensures WellFormed(a)
      {
        var i :| 0 <= i < |st'.atBats| && st'.atBats[i] == a;
        if i < |st.atBats| {
          assert st.atBats[i] == a;
        }
      }
      ParseFromWellFormed(ts[1..], st');
      assert ParseFrom(ts, st) == ParseFrom(ts[1..], st');
    }
  }

  /** The inning in force after the first `k` lines: the marker of the last of
      them that has one, else `start`. */
  ghost function InningAt(ts: seq<LineToken>, k: nat, start: int): int
    requires k <= |ts|
  {
    if k == 0 then start
    else if ts[k - 1].marker.Some? then ts[k - 1].marker.value
    else InningAt(ts, k - 1, start)
  }

  /** Some batting line `j` of the user's team has `inning` in force. */
  ghost predicate InningOfTeamLine(ts: seq<LineToken>, inning: int, start: int) {
    exists j :: 0 <= j < |ts| && ts[j].mine && inning == InningAt(ts, j + 1, start)
  }

  /** Reading one line moves the starting inning on by that line's marker. */
  lemma {:induction false} InningAtShift(ts: seq<LineToken>, k: nat, start: int)
    requires k < |ts|
    ensures InningAt(ts, k + 1, start)
            == InningAt(ts[1..], k, if ts[0].marker.Some? then ts[0].marker.value else start)
  {
    if k > 0 {
      InningAtShift(ts, k - 1, start);
      assert ts[1..][k - 1] == ts[k];
    }
  }

  /** Over the whole line loop, the at-bats already emitted are kept, and every
      new at-bat comes from a batting line `j` of the user's team and carries
      the inning in force at that line: the last `Inning N:` marker seen up to
      and including it, else the starting inning. */
  lemma {:induction false} ParseFromInnings(ts: seq<LineToken>, st: ParseState)
    ensures st.atBats <= ParseFrom(ts, st)
    ensures forall i :: |st.atBats| <= i < |ParseFrom(ts, st)| ==>
              InningOfTeamLine(ts, ParseFrom(ts, st)[i].inning, st.inning)
    decreases |ts|
  {
    if ts != [] && !ts[0].legend {
      var st' := LineStep(st, ts[0]);
      var r := ParseFrom(ts, st);
      assert r == ParseFrom(ts[1..], st');
      LineStepInning(st, ts[0]);
      ParseFromInnings(ts[1..], st');
      forall i | |st.atBats| <= i < |r|
        ensures InningOfTeamLine(ts, r[i].inning, st.inning)
      {
        if i < |st'.atBats| {
          assert r[i] == st'.atBats[i];
          assert ts[0].mine && r[i].inning == InningAt(ts, 0 + 1, st.inning);
        } else {
          assert InningOfTeamLine(ts[1..], r[i].inning, st'.inning);
          var j :| 0 <= j < |ts[1..]| && ts[1..][j].mine && r[i].inning == InningAt(ts[1..], j + 1, st'.inning);
          InningAtShift(ts, j + 1, st.inning);
          assert ts[j + 1] == ts[1..][j];
        }
      }
      assert st.atBats <= st'.atBats <= r;
    }
  }

  /** Every at-bat `parseAtBats` emits has a non-empty log and `isTopInning` false. */
  lemma ParseLogWellFormed(gameLog: seq<string>, myTeamName: string, opponentTeamName: string)
    ensures forall a :: a in ParseLog(gameLog, myTeamName, opponentTeamName) ==> WellFormed(a)
  {
    ParseFromWellFormed(ReadLines(gameLog, myTeamName, opponentTeamName), ParseState([], 1, true));
  }

  /** Every at-bat `parseAtBats` emits carries the inning in force at a line
      holding "<team> batting.": that of the last marker up to that line, or 1
      before any marker. */
  lemma ParseLogInnings(gameLog: seq<string>, myTeamName: string, opponentTeamName: string)
    ensures forall i :: 0 <= i < |ParseLog(gameLog, myTeamName, opponentTeamName)| ==>
              InningOfTeamLine(ReadLines(gameLog, myTeamName, opponentTeamName),
                               ParseLog(gameLog, myTeamName, opponentTeamName)[i].inning, 1)
  {
    ParseFromInnings(ReadLines(gameLog, myTeamName, opponentTeamName), ParseState([], 1, true));
  }


  /** The line loop stops at the first legend line: nothing after it matters. */
  lemma {:induction false} ParseFromStopsAtLegend(ts: seq<LineToken>, k: nat, st: ParseState)
    requires k < |ts| && ts[k].legend
    ensures ParseFrom(ts, st) == ParseFrom(ts[..k], st)
    decreases k
  {
    if k > 0 && !ts[0].legend {
      assert ts[1..][..k - 1] == ts[..k][1..];
      ParseFromStopsAtLegend(ts[1..], k - 1, LineStep(st, ts[0]));
    }
  }

  /** The tokens of a prefix of the log are a prefix of its tokens. */
  lemma ReadLinesPrefix(gameLog: seq<string>, k: nat, myTeamName: string, opponentTeamName: string)
    requires k <= |gameLog|
    ensures ReadLines(gameLog[..k], myTeamName, opponentTeamName) == ReadLines(gameLog, myTeamName, opponentTeamName)[..k]
  {
    var ts := ReadLines(gameLog, myTeamName, opponentTeamName);
    var ps := ReadLines(gameLog[..k], myTeamName, opponentTeamName);
    forall i | 0 <= i < k
      ensures ps[i] == ts[i]
    {
      assert gameLog[..k][i] == gameLog[i];
    }
  }

  /** A line's token marks the legend exactly when the trimmed line contains it. */
  lemma ReadLinesLegend(gameLog: seq<string>, k: nat, myTeamName: string, opponentTeamName: string)
    requires k < |gameLog|
    ensures ReadLines(gameLog, myTeamName, opponentTeamName)[k].legend <==> Contains(Trim(gameLog[k]), "Game Log Legend")
  {
  }

  /** `parseAtBats` stops at the first line containing "Game Log Legend": the lines
      from there on contribute nothing. */
  lemma ParseStopsAtLegend(gameLog: seq<string>, k: nat, myTeamName: string, opponentTeamName: string)
    requires k < |gameLog| && Contains(Trim(gameLog[k]), "Game Log Legend")
    ensures ParseLog(gameLog, myTeamName, opponentTeamName) == ParseLog(gameLog[..k], myTeamName, opponentTeamName)
  {
    ReadLinesLegend(gameLog, k, myTeamName, opponentTeamName);
    ParseFromStopsAtLegend(ReadLines(gameLog, myTeamName, opponentTeamName), k, ParseState([], 1, true));
    ReadLinesPrefix(gameLog, k, myTeamName, opponentTeamName);
  }

  /** Lines that are not the user's team's batting lines add no at-bats. */
  lemma {:induction false} NoMineNoAtBats(ts: seq<LineToken>, st: ParseState)
    requires forall i :: 0 <= i < |ts| ==> !ts[i].mine
    ensures ParseFrom(ts, st) == st.atBats
    decreases |ts|
  {
    if ts != [] && !ts[0].legend {
      NoMineNoAtBats(ts[1..], LineStep(st, ts[0]));
    }
  }

  /** At-bats come only from the user's team's batting lines: a log without
      "<myTeamName> batting." yields none. */
  lemma NoBattingLineNoAtBats(gameLog: seq<string>, myTeamName: string, opponentTeamName: string)
    requires forall i :: 0 <= i < |gameLog| ==> !Contains(Trim(gameLog[i]), myTeamName + " batting.")
    ensures ParseLog(gameLog, myTeamName, opponentTeamName) == []
  {
    NoMineNoAtBats(ReadLines(gameLog, myTeamName, opponentTeamName), ParseState([], 1, true));
  }

  /** A sentence that starts no at-bat, arriving while none is open, is dropped. */
  lemma ContinuationWithoutAtBatDropped(done: seq<RawAtBat>, t: SentenceToken, inning: int, isTopInning: bool)
    requires t.start.None?
    ensures Step(Segment(done, None), t, inning, isTopInning) == Segment(done, None)
  {
  }

  /** A forced split never finds a name: the force-split pattern matches only where
      the start pattern does, and it is tried only where the start pattern failed;
      so the new at-bat is always named "Unknown". */
  lemma ForcedSplitIsUnknown(sentence: string)
    ensures ReadSentence(sentence).start.None? ==> ReadSentence(sentence).forcedName == "Unknown"
  {
    ForcedMatchImpliesStartMatch(Cleaned(sentence));
  }
}
