/** Character classes and string operations shared by the model: the JavaScript
    string methods the services use (includes, startsWith, trim, split,
    parseInt) and their case-insensitive forms for the `/i` regular expressions. */
module Text {

  datatype Option<T> = None | Some(value: T)

  /** A value or the error a `throw` would raise. */
  datatype Result<T, E> = Success(value: T) | Failure(error: E)

  /** JavaScript truthiness of an optional string: present and non-empty. */
  predicate Truthy(s: Option<string>) {
    s.Some? && s.value != ""
  }

  /** `\s` restricted to ASCII: space, tab, line feed, carriage return, VT, FF. */
  predicate IsSpace(c: char) {
    c == ' ' || c == '\t' || c == '\n' || c == '\r' || c == '\U{B}' || c == '\U{C}'
  }

  predicate IsDigit(c: char) { '0' <= c <= '9' }

  predicate IsLetter(c: char) { 'A' <= c <= 'Z' || 'a' <= c <= 'z' }

  predicate IsAlnum(c: char) { IsLetter(c) || IsDigit(c) }

  /** ASCII lower-casing, the comparison the `/i` flag performs on these patterns. */
  function Lower(c: char): (r: char)
    ensures IsLetter(c) <==> IsLetter(r)
    ensures !IsLetter(c) ==> r == c
  {
    if 'A' <= c <= 'Z' then (c as int + 32) as char else c
  }

  function LowerStr(s: string): (r: string)
    ensures |r| == |s|
    ensures forall i :: 0 <= i < |s| ==> r[i] == Lower(s[i])
  {
    if s == [] then [] else [Lower(s[0])] + LowerStr(s[1..])
  }

  /** `s.includes(w)` */
  predicate Contains(s: string, w: string) {
    exists k: nat :: k <= |s| && StartsAt(s, k, w)
  }

  /** `w` occurs in `s` starting at index `k`. */
  predicate StartsAt(s: string, k: nat, w: string) {
    k + |w| <= |s| && s[k..k + |w|] == w
  }

  /** `w`, written in lower case, occurs at `k` when letters are compared
      case-insensitively (the `/i` flag). */
  predicate StartsAtCI(s: string, k: nat, w: string) {
    k + |w| <= |s| && LowerStr(s[k..k + |w|]) == w
  }

  predicate ContainsCI(s: string, w: string) {
    exists k: nat :: k <= |s| && StartsAtCI(s, k, w)
  }

  predicate EndsWithCI(s: string, w: string) {
    |w| <= |s| && StartsAtCI(s, |s| - |w|, w)
  }

  lemma StartsAtContains(s: string, k: nat, w: string)
    requires StartsAt(s, k, w)
    ensures Contains(s, w)
  {
  }

  /** The index just past the run of whitespace that begins at `k`. */
  function SkipSpaces(s: string, k: nat): (r: nat)
    requires k <= |s|
    ensures k <= r <= |s|
    ensures forall i :: k <= i < r ==> IsSpace(s[i])
    ensures r < |s| ==> !IsSpace(s[r])
    decreases |s| - k
  {
    if k < |s| && IsSpace(s[k]) then SkipSpaces(s, k + 1) else k
  }

  function TrimStart(s: string): (r: string)
    ensures |r| <= |s| && r == s[|s| - |r|..]
    ensures r != [] ==> !IsSpace(r[0])
    ensures forall i :: 0 <= i < |s| - |r| ==> IsSpace(s[i])
  {
    if s != [] && IsSpace(s[0]) then TrimStart(s[1..]) else s
  }

  function TrimEnd(s: string): (r: string)
    ensures |r| <= |s| && r == s[..|r|]
    ensures r != [] ==> !IsSpace(r[|r| - 1])
    ensures forall i :: |r| <= i < |s| ==> IsSpace(s[i])
  {
    if s != [] && IsSpace(s[|s| - 1]) then TrimEnd(s[..|s| - 1]) else s
  }

  /** `s.trim()` */
  function Trim(s: string): (r: string)
    ensures |r| <= |s|
    ensures r != [] ==> !IsSpace(r[0]) && !IsSpace(r[|r| - 1])
    ensures (forall i :: 0 <= i < |s| ==> !IsSpace(s[i])) ==> r == s
  {
    TrimEnd(TrimStart(s))
  }

  /** `TrimStart` cuts exactly the leading run of whitespace. */
  lemma TrimStartSkips(s: string)
    ensures |s| - |TrimStart(s)| == SkipSpaces(s, 0)
  {
  }

  /** The trimmed text is the middle of `s`: it starts at the first character
      that is not whitespace, and only whitespace follows it. */
  lemma TrimSlice(s: string)
    ensures SkipSpaces(s, 0) + |Trim(s)| <= |s|
    ensures Trim(s) == s[SkipSpaces(s, 0)..SkipSpaces(s, 0) + |Trim(s)|]
    ensures forall i :: SkipSpaces(s, 0) + |Trim(s)| <= i < |s| ==> IsSpace(s[i])
  {
    var a, t := SkipSpaces(s, 0), TrimStart(s);
    TrimStartSkips(s);
    assert t == s[a..];
    var r := TrimEnd(t);
    assert Trim(s) == r;
    MiddleSlice(s, a, t, r);
  }

  /** A prefix `r` of the suffix `t` of `s` from `a` on is the slice of `s` from
      `a`, and what `t` has after `r` is what `s` has after that slice. */
  lemma MiddleSlice(s: string, a: nat, t: string, r: string)
    requires a <= |s| && t == s[a..]
    requires |r| <= |t| && r == t[..|r|]
    requires forall j :: |r| <= j < |t| ==> IsSpace(t[j])
    ensures r == s[a..a + |r|]
    ensures forall i :: a + |r| <= i < |s| ==> IsSpace(s[i])
  {
    forall i | a + |r| <= i < |s|
      ensures IsSpace(s[i])
    {
      assert t[i - a] == s[i];
    }
  }

  /** `s.replace(/\s+/g, ' ')`: every run of whitespace becomes one space. */
  function CollapseSpaces(s: string): (r: string)
    ensures |r| <= |s|
    ensures forall i :: 0 <= i < |r| ==> (IsSpace(r[i]) ==> r[i] == ' ')
    ensures forall i :: 0 <= i < |r| - 1 ==> !(IsSpace(r[i]) && IsSpace(r[i + 1]))
    ensures s != [] && !IsSpace(s[0]) ==> r != [] && r[0] == s[0]
    ensures s != [] && IsSpace(s[0]) ==> r != [] && r[0] == ' '
    decreases |s|
  {
    if s == [] then []
    else if IsSpace(s[0]) then
      var rest := TrimStart(s[1..]);
      [' '] + CollapseSpaces(rest)
    else [s[0]] + CollapseSpaces(s[1..])
  }

  /** One space where `s` has a run of whitespace, by a left-to-right pass that
      remembers whether the previous character was whitespace: the reference
      reading of `/\s+/g` replaced by ' '. */
  function CollapseFrom(s: string, afterSpace: bool): string
    decreases |s|
  {
    if s == [] then []
    else if IsSpace(s[0]) then (if afterSpace then [] else [' ']) + CollapseFrom(s[1..], true)
    else [s[0]] + CollapseFrom(s[1..], false)
  }

  /** `CollapseSpaces` is the character-by-character reading of the replacement,
      and a run already begun swallows the whitespace that follows. */
  lemma {:induction false} CollapseSpacesReference(s: string)
    ensures CollapseSpaces(s) == CollapseFrom(s, false)
    ensures CollapseSpaces(TrimStart(s)) == CollapseFrom(s, true)
    decreases |s|
  {
    if s != [] {
      CollapseSpacesReference(s[1..]);
    }
  }

  /** The characters of `s` that are not whitespace, in order. */
  function NonSpace(s: string): string
    decreases |s|
  {
    if s == [] then [] else (if IsSpace(s[0]) then [] else [s[0]]) + NonSpace(s[1..])
  }

  /** Collapsing keeps every non-whitespace character, in order, and adds none. */
  lemma {:induction false} CollapseKeepsWords(s: string)
    ensures NonSpace(CollapseSpaces(s)) == NonSpace(s)
  {
    CollapseSpacesReference(s);
    CollapseFromKeepsWords(s, false);
  }

  lemma {:induction false} CollapseFromKeepsWords(s: string, afterSpace: bool)
    ensures NonSpace(CollapseFrom(s, afterSpace)) == NonSpace(s)
    decreases |s|
  {
    if s != [] {
      CollapseFromKeepsWords(s[1..], IsSpace(s[0]));
      NonSpaceAppend(if IsSpace(s[0]) then (if afterSpace then [] else [' ']) else [s[0]],
                     CollapseFrom(s[1..], IsSpace(s[0])));
    }
  }

  lemma {:induction false} NonSpaceAppend(a: string, b: string)
    ensures NonSpace(a + b) == NonSpace(a) + NonSpace(b)
    decreases |a|
  {
    if a != [] {
      NonSpaceAppend(a[1..], b);
      assert (a + b)[0] == a[0] && (a + b)[1..] == a[1..] + b;
      assert NonSpace(a + b) == (if IsSpace(a[0]) then [] else [a[0]]) + NonSpace(a[1..] + b);
      assert NonSpace(a) == (if IsSpace(a[0]) then [] else [a[0]]) + NonSpace(a[1..]);
    } else {
      assert a + b == b;
    }
  }

  /** `s.split(sep)` on one separator character: always at least one piece. */
  function Split(s: string, sep: char): (r: seq<string>)
    ensures |r| >= 1
    ensures forall i :: 0 <= i < |r| ==> sep !in r[i]
  {
    SplitFrom(s, sep, [])
  }

  function SplitFrom(s: string, sep: char, acc: string): (r: seq<string>)
    requires sep !in acc
    ensures |r| >= 1
    ensures forall i :: 0 <= i < |r| ==> sep !in r[i]
    decreases |s|
  {
    if s == [] then [acc]
    else if s[0] == sep then [acc] + SplitFrom(s[1..], sep, [])
    else SplitFrom(s[1..], sep, acc + [s[0]])
  }

  /** `pieces.join(sep)` */
  function Join(pieces: seq<string>, sep: char): string
    requires |pieces| >= 1
  {
    if |pieces| == 1 then pieces[0] else pieces[0] + [sep] + Join(pieces[1..], sep)
  }

  lemma {:induction false} SplitFromJoin(s: string, sep: char, acc: string)
    requires sep !in acc
    ensures Join(SplitFrom(s, sep, acc), sep) == acc + s
    decreases |s|
  {
    if s == [] {
    } else if s[0] == sep {
      SplitFromJoin(s[1..], sep, []);
      assert acc + [sep] + s[1..] == acc + s;
    } else {
      SplitFromJoin(s[1..], sep, acc + [s[0]]);
      assert acc + [s[0]] + s[1..] == acc + s;
    }
  }

  /** Joining the pieces with the separator gives the text back. */
  lemma SplitJoin(s: string, sep: char)
    ensures Join(Split(s, sep), sep) == s
  {
    SplitFromJoin(s, sep, []);
  }

  lemma {:induction false} SplitFromAppend(a: string, b: string, sep: char, acc: string)
    requires sep !in acc
    ensures SplitFrom(a + [sep] + b, sep, acc) == SplitFrom(a, sep, acc) + SplitFrom(b, sep, [])
    decreases |a|
  {
    if a == [] {
      assert [sep] + b == [sep] + b;
      assert ([sep] + b)[1..] == b;
    } else {
      assert (a + [sep] + b)[1..] == a[1..] + [sep] + b;
      if a[0] == sep {
        SplitFromAppend(a[1..], b, sep, []);
      } else {
        SplitFromAppend(a[1..], b, sep, acc + [a[0]]);
      }
    }
  }

  /** A separator cuts the text in two: the pieces of each side, in order. */
  lemma SplitAppend(a: string, b: string, sep: char)
    ensures Split(a + [sep] + b, sep) == Split(a, sep) + Split(b, sep)
  {
    SplitFromAppend(a, b, sep, []);
  }

  lemma {:induction false} SplitFromNone(s: string, sep: char, acc: string)
    requires sep !in acc && sep !in s
    ensures SplitFrom(s, sep, acc) == [acc + s]
    decreases |s|
  {
    if s != [] {
      assert s[0] != sep && sep !in s[1..] && sep !in acc + [s[0]];
      SplitFromNone(s[1..], sep, acc + [s[0]]);
      assert acc + [s[0]] + s[1..] == acc + s;
    } else {
      assert acc + s == acc;
    }
  }

  /** Text without the separator is one piece. */
  lemma SplitNone(s: string, sep: char)
    requires sep !in s
    ensures Split(s, sep) == [s]
  {
    SplitFromNone(s, sep, []);
    assert [] + s == s;
  }

  /** The index just past the run of decimal digits that begins at `k`. */
  function DigitsEnd(s: string, k: nat): (r: nat)
    requires k <= |s|
    ensures k <= r <= |s|
    ensures forall i :: k <= i < r ==> IsDigit(s[i])
    ensures r < |s| ==> !IsDigit(s[r])
    decreases |s| - k
  {
    if k < |s| && IsDigit(s[k]) then DigitsEnd(s, k + 1) else k
  }

  /** Digits from `k` up to a non-digit or the end at `e` end the run at `e`. */
  lemma {:induction false} DigitsEndAt(s: string, k: nat, e: nat)
    requires k <= e <= |s|
    requires forall i :: k <= i < e ==> IsDigit(s[i])
    requires e == |s| || !IsDigit(s[e])
    ensures DigitsEnd(s, k) == e
    decreases e - k
  {
    if k < e {
      DigitsEndAt(s, k + 1, e);
    }
  }

  /** The decimal value of a string of digits. */
  function DigitsValue(d: string): (n: nat)
    requires forall i :: 0 <= i < |d| ==> IsDigit(d[i])
  {
    if d == [] then 0
    else
      assert IsDigit(d[|d| - 1]);
      DigitsValue(d[..|d| - 1]) * 10 + (d[|d| - 1] as int - '0' as int)
  }

  /** The decimal digits of `n`, most significant first, without leading zeros. */
  function DecimalString(n: nat): (d: string)
    ensures |d| >= 1
    ensures forall i :: 0 <= i < |d| ==> IsDigit(d[i])
  {
    if n < 10 then [('0' as int + n) as char]
    else DecimalString(n / 10) + [('0' as int + n % 10) as char]
  }

  lemma {:induction false} DecimalRoundTrip(n: nat)
    ensures DigitsValue(DecimalString(n)) == n
  {
    var d := DecimalString(n);
    if n >= 10 {
      DecimalRoundTrip(n / 10);
      assert d[..|d| - 1] == DecimalString(n / 10);
    }
  }

  /** `parseInt(s)` for decimal text: leading whitespace, an optional sign and the
      longest run of digits; None stands for NaN (no digit at all). */
  function ParseInt(s: string): Option<int> {
    if s != [] && IsSpace(s[0]) then ParseInt(s[1..])
    else if s != [] && s[0] == '-' then Negate(LeadingNumber(s[1..]))
    else if s != [] && s[0] == '+' then LeadingNumber(s[1..])
    else LeadingNumber(s)
  }

  function Negate(r: Option<int>): Option<int> {
    if r.None? then None else Some(-r.value)
  }

  function DigitValue(c: char): nat
    requires IsDigit(c)
  {
    c as int - '0' as int
  }

  /** The value of the run of digits `t` starts with, None when it starts with none. */
  function LeadingNumber(t: string): Option<int> {
    if t != [] && IsDigit(t[0]) then Some(Accumulate(t[1..], DigitValue(t[0]))) else None
  }

  /** Reads further leading digits of `t` into the value `acc` read so far. */
  function Accumulate(t: string, acc: nat): nat {
    if t != [] && IsDigit(t[0]) then Accumulate(t[1..], acc * 10 + DigitValue(t[0])) else acc
  }

  /** Reading a string of digits on from the value of a prefix gives the value
      of the whole. */
  lemma {:induction false} AccumulateValue(p: string, d: string)
    requires forall i :: 0 <= i < |p| ==> IsDigit(p[i])
    requires forall i :: 0 <= i < |d| ==> IsDigit(d[i])
    ensures Accumulate(d, DigitsValue(p)) == DigitsValue(p + d)
    decreases |d|
  {
    if d == [] {
      assert p + d == p;
    } else {
      var q := p + [d[0]];
      assert q[..|q| - 1] == p;
      assert DigitsValue(q) == DigitsValue(p) * 10 + DigitValue(d[0]);
      AccumulateValue(q, d[1..]);
      assert q + d[1..] == p + d;
    }
  }

  lemma ParseIntDecimal(n: nat)
    ensures ParseInt(DecimalString(n)) == Some(n)
  {
    var d := DecimalString(n);
    assert IsDigit(d[0]);
    var p := [d[0]];
    assert p[..0] == [];
    assert DigitsValue(p) == DigitValue(d[0]);
    AccumulateValue(p, d[1..]);
    assert p + d[1..] == d;
    DecimalRoundTrip(n);
  }
}
