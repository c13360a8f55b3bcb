/** The parts of Python's `str` behaviour that both NestedText readers and the emitter rely on:
    whitespace as `str.isspace()` and the regex class `\s` see it, `strip` and friends,
    `split`/`join`, `splitlines`, line iteration over an `io.StringIO`, `str(int)`, and the
    regex tail `\s*:(?: (?P<value>.*))?` that both item recognisers end with. */
module PyText {
  import opened Wrappers

  /** `c.isspace()`; the regex class `\s` of a str pattern matches exactly these characters. */
  predicate IsSpace(c: char) {
    ('\t' <= c <= '\r') || ('\U{1C}' <= c <= ' ') || c == '\U{85}' || c == '\U{A0}'
    || c == '\U{1680}' || ('\U{2000}' <= c <= '\U{200A}') || c == '\U{2028}' || c == '\U{2029}'
    || c == '\U{202F}' || c == '\U{205F}' || c == '\U{3000}'
  }

  /** The characters at which `str.splitlines()` ends a line (`\r\n` counts as one boundary). */
  predicate IsLineBreak(c: char) {
    ('\n' <= c <= '\r') || ('\U{1C}' <= c <= '\U{1E}') || c == '\U{85}' || c == '\U{2028}' || c == '\U{2029}'
  }

  predicate AllSpace(s: string) {
    forall i :: 0 <= i < |s| ==> IsSpace(s[i])
  }

  predicate NoLineBreak(s: string) {
    forall i :: 0 <= i < |s| ==> !IsLineBreak(s[i])
  }

  /** Number of whitespace characters `s.lstrip()` removes. */
  function LeadingSpace(s: string): (n: nat)
    ensures n <= |s|
    ensures n < |s| ==> !IsSpace(s[n])
  {
    if s == [] || !IsSpace(s[0]) then 0 else 1 + LeadingSpace(s[1..])
  }

  /** Every character `LeadingSpace` counts is whitespace. */
  lemma {:induction false} LeadingSpaceAll(s: string)
    ensures forall i :: 0 <= i < LeadingSpace(s) ==> IsSpace(s[i])
  {
    if s != [] && IsSpace(s[0]) {
      LeadingSpaceAll(s[1..]);
      assert forall i :: 1 <= i < LeadingSpace(s) ==> s[i] == s[1..][i - 1];
    }
  }

  /** `n` whitespace characters followed by the end or a non-whitespace one: `LeadingSpace`
      counts exactly those. */
  lemma LeadingSpaceIs(s: string, n: nat)
    requires n <= |s| && (forall i :: 0 <= i < n ==> IsSpace(s[i])) && (n < |s| ==> !IsSpace(s[n]))
    ensures LeadingSpace(s) == n
  {
    LeadingSpaceAll(s);
  }

  /** Number of leading copies of `c`, what `s.lstrip(c)` removes. */
  function LeadingChar(s: string, c: char): (n: nat)
    ensures n <= |s|
    ensures forall i :: 0 <= i < n ==> s[i] == c
    ensures n < |s| ==> s[n] != c
  {
    if s == [] || s[0] != c then 0 else 1 + LeadingChar(s[1..], c)
  }

  /** Number of trailing characters drawn from `cs`, what `s.rstrip(cs)` removes. */
  function TrailingIn(s: string, cs: set<char>): (n: nat)
    ensures n <= |s|
    ensures forall i :: |s| - n <= i < |s| ==> s[i] in cs
    ensures n < |s| ==> s[|s| - n - 1] !in cs
  {
    if s == [] || s[|s| - 1] !in cs then 0 else 1 + TrailingIn(s[..|s| - 1], cs)
  }

  /** Number of trailing whitespace characters, what `s.rstrip()` removes. */
  function TrailingSpace(s: string): (n: nat)
    ensures n <= |s|
    ensures forall i :: |s| - n <= i < |s| ==> IsSpace(s[i])
    ensures n < |s| ==> !IsSpace(s[|s| - n - 1])
  {
    if s == [] || !IsSpace(s[|s| - 1]) then 0 else 1 + TrailingSpace(s[..|s| - 1])
  }

  function LStrip(s: string): string {
    s[LeadingSpace(s)..]
  }

  function LStripChar(s: string, c: char): string {
    s[LeadingChar(s, c)..]
  }

  function RStrip(s: string): string {
    s[..|s| - TrailingSpace(s)]
  }

  function RStripChars(s: string, cs: set<char>): string {
    s[..|s| - TrailingIn(s, cs)]
  }

  function Strip(s: string): string {
    LStrip(RStrip(s))
  }

  /** `s.startswith(p)`. */
  predicate StartsWith(s: string, p: string) {
    |p| <= |s| && s[..|p|] == p
  }

  /** `s == c or s.startswith(c + " ")`: the marker `c` alone, or the marker and a space. */
  predicate Marked(s: string, c: char) {
    s == [c] || StartsWith(s, [c, ' '])
  }

  /** The two quote characters. */
  predicate IsQuote(c: char) {
    c == '"' || c == '\''
  }

  /** The slice `s[n:]`, which Python allows past the end. */
  function Drop(s: string, n: nat): string {
    if n <= |s| then s[n..] else ""
  }

  /** `(a + b) in s` for a two-character needle. */
  predicate HasPair(s: string, a: char, b: char) {
    exists i :: 0 <= i < |s| - 1 && s[i] == a && s[i + 1] == b
  }

  lemma LStripOfAllSpace(s: string)
    ensures LStrip(s) == "" <==> AllSpace(s)
  {
    if !AllSpace(s) {
      var i :| 0 <= i < |s| && !IsSpace(s[i]);
      LeadingSpaceAll(s);
      assert LeadingSpace(s) <= i;
    }
  }

  /** `sep.join(parts)`. */
  function Join(sep: string, parts: seq<string>): string {
    if |parts| == 0 then ""
    else if |parts| == 1 then parts[0]
    else parts[0] + sep + Join(sep, parts[1..])
  }

  /** `s.split(c)` for a one-character separator: never empty, no part holds `c`. */
  function Split(s: string, c: char): (r: seq<string>)
    ensures |r| >= 1
    ensures forall i :: 0 <= i < |r| ==> c !in r[i]
  {
    if s == [] then [""]
    else
      var t := Split(s[1..], c);
      if s[0] == c then [""] + t else [[s[0]] + t[0]] + t[1..]
  }

  /** Joining the parts of a split with the same separator gives the string back. */
  lemma {:induction false} JoinSplit(s: string, c: char)
    ensures Join([c], Split(s, c)) == s
  {
    if s != [] {
      var t := Split(s[1..], c);
      JoinSplit(s[1..], c);
      if s[0] == c {
        assert Split(s, c) == [""] + t;
        assert ([""] + t)[1..] == t;
      } else {
        var r := [[s[0]] + t[0]] + t[1..];
        assert Split(s, c) == r;
        if |t| == 1 {
          assert Join([c], r) == [s[0]] + t[0];
        } else {
          assert r[1..] == t[1..];
          assert Join([c], t) == t[0] + [c] + Join([c], t[1..]);
          assert Join([c], r) == [s[0]] + t[0] + [c] + Join([c], t[1..]);
        }
      }
    }
  }

  /** Splitting a join recovers the parts when no part holds the separator. */
  lemma {:induction false} SplitJoin(parts: seq<string>, c: char)
    requires |parts| >= 1
    requires forall i :: 0 <= i < |parts| ==> c !in parts[i]
    ensures Split(Join([c], parts), c) == parts
  {
    if |parts| == 1 {
      SplitNoSep(parts[0], c);
    } else {
      var j := Join([c], parts[1..]);
      SplitJoin(parts[1..], c);
      SplitSepFirst(j, c);
      SplitPrefix(parts[0], [c] + j, c);
      assert Join([c], parts) == parts[0] + ([c] + j);
      var t := Split([c] + j, c);
      assert t == [""] + parts[1..];
      assert t[0] == "" && t[1..] == parts[1..];
      assert Split(Join([c], parts), c) == [parts[0] + ""] + parts[1..];
      assert parts[0] + "" == parts[0];
      assert [parts[0]] + parts[1..] == parts;
    }
  }

  lemma {:induction false} SplitNoSep(s: string, c: char)
    requires c !in s
    ensures Split(s, c) == [s]
  {
    if s != [] {
      SplitNoSep(s[1..], c);
      assert [s[0]] + s[1..] == s;
    }
  }

  lemma SplitSepFirst(s: string, c: char)
    ensures Split([c] + s, c) == [""] + Split(s, c)
  {
    assert ([c] + s)[1..] == s;
  }

  /** A separator-free head glues onto the first part of what follows. */
  lemma {:induction false} SplitPrefix(p: string, s: string, c: char)
    requires c !in p
    requires s != [] && s[0] == c
    ensures Split(p + s, c) == [p + Split(s, c)[0]] + Split(s, c)[1..]
  {
    if p == [] {
      assert p + s == s;
    } else {
      SplitPrefix(p[1..], s, c);
      assert (p + s)[1..] == p[1..] + s;
      assert [p[0]] + (p[1..] + Split(s, c)[0]) == p + Split(s, c)[0];
    }
  }

  /** The index of the first line break at or after `i`, or `|s|`. */
  function FirstBreak(s: string, i: nat): (k: nat)
    requires i <= |s|
    ensures i <= k <= |s|
    ensures forall j :: i <= j < k ==> !IsLineBreak(s[j])
    ensures k < |s| ==> IsLineBreak(s[k])
    decreases |s| - i
  {
    if i == |s| || IsLineBreak(s[i]) then i else FirstBreak(s, i + 1)
  }

  /** `s.splitlines()`: lines without their terminators; a terminator at the very end does not
      start another line, and `\r\n` is one terminator. */
  function SplitLines(s: string): (r: seq<string>)
    ensures forall i :: 0 <= i < |r| ==> NoLineBreak(r[i])
    decreases |s|
  {
    if s == [] then []
    else
      var k := FirstBreak(s, 0);
      if k == |s| then [s]
      else
        var w := if s[k] == '\r' && k + 1 < |s| && s[k + 1] == '\n' then 2 else 1;
        [s[..k]] + SplitLines(s[k + w..])
  }

  /** `splitlines` undoes a newline-join of break-free lines whose last one is not empty. */
  lemma {:induction false} SplitLinesJoin(lines: seq<string>)
    requires |lines| >= 1 && lines[|lines| - 1] != ""
    requires forall i :: 0 <= i < |lines| ==> NoLineBreak(lines[i])
    ensures SplitLines(Join("\n", lines)) == lines
  {
    var s := Join("\n", lines);
    var l := lines[0];
    if |lines| == 1 {
      assert FirstBreak(s, 0) == |s|;
    } else {
      var rest := Join("\n", lines[1..]);
      assert s == l + "\n" + rest;
      SplitLinesJoin(lines[1..]);
      var k := FirstBreak(s, 0);
      assert s[|l|] == '\n';
      assert forall j :: 0 <= j < |l| ==> s[j] == l[j];
      assert k == |l|;
      assert s[k + 1..] == rest;
      assert s[..k] == l;
    }
  }

  /** Iterating over `io.StringIO(s)`: lines split after each `\n`, which they keep; nothing
      after a final `\n`. */
  function StreamLines(s: string): (r: seq<string>)
    ensures forall i :: 0 <= i < |r| ==> r[i] != ""
    decreases |s|
  {
    if s == [] then []
    else
      var k := NewlineIndex(s, 0);
      if k == |s| then [s] else [s[..k + 1]] + StreamLines(s[k + 1..])
  }

  function NewlineIndex(s: string, i: nat): (k: nat)
    requires i <= |s|
    ensures i <= k <= |s|
    ensures forall j :: i <= j < k ==> s[j] != '\n'
    ensures k < |s| ==> s[k] == '\n'
    decreases |s| - i
  {
    if i == |s| || s[i] == '\n' then i else NewlineIndex(s, i + 1)
  }

  function Concat(lines: seq<string>): string {
    if lines == [] then "" else lines[0] + Concat(lines[1..])
  }

  /** The lines of a stream put back together are the stream. */
  lemma {:induction false} StreamLinesConcat(s: string)
    ensures Concat(StreamLines(s)) == s
    decreases |s|
  {
    if s != [] {
      var k := NewlineIndex(s, 0);
      if k < |s| {
        StreamLinesConcat(s[k + 1..]);
        assert s[..k + 1] + s[k + 1..] == s;
        var r := StreamLines(s);
        assert r == [s[..k + 1]] + StreamLines(s[k + 1..]);
        assert r[1..] == StreamLines(s[k + 1..]);
      }
    }
  }

  /** Every line a stream yields holds at most one `\n`, at its end, and only the last line
      may lack it. */
  lemma {:induction false} StreamLinesShape(s: string, i: nat)
    requires i < |StreamLines(s)|
    ensures forall j :: 0 <= j < |StreamLines(s)[i]| - 1 ==> StreamLines(s)[i][j] != '\n'
    ensures i < |StreamLines(s)| - 1 ==> StreamLines(s)[i][|StreamLines(s)[i]| - 1] == '\n'
    decreases |s|
  {
    var k := NewlineIndex(s, 0);
    if k < |s| && i > 0 {
      StreamLinesShape(s[k + 1..], i - 1);
      assert StreamLines(s)[i] == StreamLines(s[k + 1..])[i - 1];
    }
  }

  /** `s.replace("\r\n", "\n").replace("\r", "\n")`. */
  function NormalizeNewlines(s: string): (r: string)
    ensures '\r' !in r
    ensures forall i :: 0 <= i < |s| ==> s[i] != '\r' ==> (s[i] == '\n' ==> '\n' in r)
    ensures (forall i :: 0 <= i < |s| ==> s[i] != '\r') ==> r == s
  {
    if s == [] then []
    else if s[0] == '\r' then
      if |s| >= 2 && s[1] == '\n' then "\n" + NormalizeNewlines(s[2..]) else "\n" + NormalizeNewlines(s[1..])
    else [s[0]] + NormalizeNewlines(s[1..])
  }

  function DigitChar(d: nat): (c: char)
    requires d < 10
    ensures '0' <= c <= '9'
  {
    ['0', '1', '2', '3', '4', '5', '6', '7', '8', '9'][d]
  }

  function DigitValue(c: char): nat
    requires '0' <= c <= '9'
  {
    c as int - '0' as int
  }

  predicate AllDigits(s: string) {
    forall i :: 0 <= i < |s| ==> '0' <= s[i] <= '9'
  }

  /** `str(n)` for a non-negative integer: its decimal digits, most significant first. */
  function NatToString(n: nat): (s: string)
    ensures |s| >= 1 && AllDigits(s)
    ensures |s| > 1 ==> s[0] != '0'
  {
    if n < 10 then [DigitChar(n)] else NatToString(n / 10) + [DigitChar(n % 10)]
  }

  /** The number a string of decimal digits denotes. */
  function DigitsValue(s: string): nat
    requires AllDigits(s)
  {
    if s == [] then 0 else DigitsValue(s[..|s| - 1]) * 10 + DigitValue(s[|s| - 1])
  }

  /** Reading the digits of `str(n)` gives `n` back. */
  lemma {:induction false} DigitsOfNatToString(n: nat)
    ensures DigitsValue(NatToString(n)) == n
  {
    if n >= 10 {
      var s := NatToString(n);
      DigitsOfNatToString(n / 10);
      assert s[..|s| - 1] == NatToString(n / 10);
      assert DigitValue(DigitChar(n % 10)) == n % 10;
    } else {
      assert DigitValue(DigitChar(n)) == n;
    }
  }

  /** The tail `\s*:(?: (?P<value>.*))?` that both item regexes end with, matched against
      `s[p:]` up to the end of `s`: `None` when it does not match, `Some(None)` when the
      optional value group takes no part, `Some(Some(v))` when it captured `v`. Since `:` is not
      whitespace, `\s*` can only succeed by taking the whole whitespace run. */
  function ColonTail(s: string, p: nat): (r: Option<Option<string>>)
    requires p <= |s|
    ensures r.Some? ==> var q := p + LeadingSpace(s[p..]);
      q < |s| && s[q] == ':'
      && (r.value.None? ==> q + 1 == |s|)
      && (r.value.Some? ==> s[q + 1..] == " " + r.value.value && '\n' !in r.value.value)
  {
    var q := p + LeadingSpace(s[p..]);
    if q < |s| && s[q] == ':' then
      var rest := s[q + 1..];
      if rest != [] && rest[0] == ' ' && '\n' !in rest[1..] then Some(Some(rest[1..]))
      else if rest == [] then Some(None)
      else None
    else None
  }

  /** The tail matches exactly the strings built as whitespace, `:`, and an optional
      space-led newline-free value. */
  lemma ColonTailOf(s: string, p: nat, ws: string, v: Option<string>)
    requires p <= |s| && AllSpace(ws)
    requires v.Some? ==> '\n' !in v.value
    requires s[p..] == ws + ":" + (if v.Some? then " " + v.value else "")
    ensures ColonTail(s, p) == Some(v)
  {
    var t := s[p..];
    assert forall i :: 0 <= i < |ws| ==> t[i] == ws[i];
    assert t[|ws|] == ':';
    LeadingSpaceIs(t, |ws|);
    var q := p + |ws|;
    assert s[q + 1..] == t[|ws| + 1..];
    assert t[|ws| + 1..] == (if v.Some? then " " + v.value else "");
    if v.Some? {
      assert s[q + 1..][1..] == v.value;
    }
  }

  /** Python's `a <= b` on strings: code points compared from the left, a prefix first. */
  predicate StrLe(a: string, b: string) {
    a == [] || (b != [] && (a[0] < b[0] || (a[0] == b[0] && StrLe(a[1..], b[1..]))))
  }

  lemma {:induction false} StrLeTotal(a: string, b: string)
    ensures StrLe(a, b) || StrLe(b, a)
  {
    if a != [] && b != [] && a[0] == b[0] {
      StrLeTotal(a[1..], b[1..]);
    }
  }

  lemma {:induction false} StrLeTrans(a: string, b: string, c: string)
    requires StrLe(a, b) && StrLe(b, c)
    ensures StrLe(a, c)
  {
    if a != [] && a[0] == b[0] && b[0] == c[0] {
      StrLeTrans(a[1..], b[1..], c[1..]);
    }
  }

  lemma {:induction false} StrLeAntisymmetric(a: string, b: string)
    requires StrLe(a, b) && StrLe(b, a)
    ensures a == b
  {
    if a != [] {
      StrLeAntisymmetric(a[1..], b[1..]);
      assert a == [a[0]] + a[1..] && b == [b[0]] + b[1..];
    }
  }
}
