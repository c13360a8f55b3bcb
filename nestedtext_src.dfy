/** The rewrite of NestedText (`src/nestedtext.py`): errors that carry a line and a column; a
    line classifier that also knows multi-line object keys and inline containers, and keeps the
    line endings of string and key lines; a peekable iterator that raises on invalid lines; the
    parser `_Parser` with its duplicate-field policy; and the key check of the emitter. */
module NestedTextSrc {
  import opened Wrappers
  import opened PyText
  import opened Values
  import opened Layout

  // ----------------------------------------------------------------------------------------
  // Errors

  /** The failures the parser and the emitter report, one per message. */
  datatype ErrorKind =
    | InvalidIndentation
    | InvalidLine
    | UnrecognizedLine
    | ExpectedListItem
    | ExpectedObjectItem
    | ExpectedValueAfterKey
    | DuplicateKey
    | KeyHasNewline
    | CannotDisambiguateKey

  /** The message a `NestedtextError` of each kind is raised with. */
  function Message(k: ErrorKind): (m: string)
    ensures m != "" && ':' !in m
  {
    match k
    case InvalidIndentation => "invalid indentation"
    case InvalidLine => "invalid line"
    case UnrecognizedLine => "unrecognized line"
    case ExpectedListItem => "expected list item"
    case ExpectedObjectItem => "expected object item"
    case ExpectedValueAfterKey => "expected value after multiline object key"
    case DuplicateKey => "duplicate key"
    case KeyHasNewline => "keys must not contain newlines"
    case CannotDisambiguateKey => "cannot disambiguate key"
  }

  /** A `NestedtextError` with the line and column it records, or the end of the iteration
      (`StopIteration`). */
  datatype Error = Error(kind: ErrorKind, lineno: Option<nat>, colno: Option<nat>) | StopIteration

  /** The text `NestedtextError.__init__` builds: the message, then `: lineno` when there is a
      line number, then `:colno` when there is a column as well. */
  function FormatMessage(message: string, lineno: Option<nat>, colno: Option<nat>): string {
    if lineno.None? then message
    else message + ": " + NatToString(lineno.value) + (if colno.Some? then ":" + NatToString(colno.value) else "")
  }

  /** `str(e)` for a `NestedtextError`. */
  function Describe(e: Error): string
    requires e.Error?
  {
    FormatMessage(Message(e.kind), e.lineno, e.colno)
  }

  /** The first position from `i` on that holds `c`, or the length when none does. */
  function IndexFrom(s: string, c: char, i: nat): (k: nat)
    requires i <= |s|
    ensures i <= k <= |s| && (forall j :: i <= j < k ==> s[j] != c) && (k < |s| ==> s[k] == c)
    decreases |s| - i
  {
    if i == |s| || s[i] == c then i else IndexFrom(s, c, i + 1)
  }

  /** A message text taken apart again: the text before the first colon, then the numbers
      after it. `None` when the rest is not of the shape `FormatMessage` gives it. */
  function ParseMessage(s: string): Option<(string, Option<nat>, Option<nat>)> {
    var i := IndexFrom(s, ':', 0);
    if i == |s| then Some((s, None, None))
    else
      match ParseNumbers(s[i + 1..])
      case None => None
      case Some(p) => Some((s[..i], Some(p.0), p.1))
  }

  /** The line number after a space, then the column after a further `:` when there is one. */
  function ParseNumbers(rest: string): Option<(nat, Option<nat>)> {
    if rest == [] || rest[0] != ' ' then None
    else
      var j := IndexFrom(rest, ':', 1);
      var line := rest[1..j];
      if line == [] || !AllDigits(line) then None
      else if j == |rest| then Some((DigitsValue(line), None))
      else
        var col := rest[j + 1..];
        if col == [] || !AllDigits(col) then None
        else Some((DigitsValue(line), Some(DigitsValue(col))))
  }

  /** A message without a colon is read back from the error text together with its line number,
      and with its column whenever a line number is there to carry it: a column given without a
      line number does not reach the text. */
  lemma MessageRoundTrip(message: string, lineno: Option<nat>, colno: Option<nat>)
    requires ':' !in message
    ensures ParseMessage(FormatMessage(message, lineno, colno)) == Some((message, lineno, if lineno.Some? then colno else None))
  {
    var s := FormatMessage(message, lineno, colno);
    if lineno.Some? {
      var rest := " " + NatToString(lineno.value) + (if colno.Some? then ":" + NatToString(colno.value) else "");
      assert s == message + (":" + rest);
      ColonAt(message, ":" + rest, 0);
      assert s[|message| + 1..] == rest;
      assert s[..|message|] == message;
      NumbersRoundTrip(lineno.value, colno);
    } else {
      assert IndexFrom(s, ':', 0) == |s|;
    }
  }

  lemma NumbersRoundTrip(lineno: nat, colno: Option<nat>)
    ensures ParseNumbers(" " + NatToString(lineno) + (if colno.Some? then ":" + NatToString(colno.value) else ""))
      == Some((lineno, colno))
  {
    var tail := if colno.Some? then ":" + NatToString(colno.value) else "";
    LineNumberText(lineno, tail);
    DigitsOfNatToString(lineno);
    if colno.Some? {
      DigitsOfNatToString(colno.value);
      ColumnText(colno.value);
    }
  }

  /** The line number stands between the leading space and the first colon after it. */
  lemma LineNumberText(lineno: nat, tail: string)
    requires tail == [] || tail[0] == ':'
    ensures var l := NatToString(lineno); var rest := " " + l + tail;
      rest != [] && rest[0] == ' ' && IndexFrom(rest, ':', 1) == 1 + |l|
      && rest[1..1 + |l|] == l && rest[1 + |l|..] == tail
  {
    var l := NatToString(lineno);
    ColonAt(" " + l, tail, 1);
    assert (" " + l + tail)[1..1 + |l|] == l;
  }

  /** The column number is what follows the colon. */
  lemma ColumnText(colno: nat)
    ensures var t := ":" + NatToString(colno); t[1..] == NatToString(colno) && t != [] && t[0] == ':'
  {
  }

  /** The first colon from `i` on in `a + b`, when `a` has none from `i` on and `b` is empty
      or starts with one, is where `b` starts. */
  lemma ColonAt(a: string, b: string, i: nat)
    requires i <= |a| && (forall j :: i <= j < |a| ==> a[j] != ':') && (b == [] || b[0] == ':')
    ensures IndexFrom(a + b, ':', i) == |a|
  {
    var s := a + b;
    assert forall j :: i <= j < |a| ==> s[j] == a[j];
    if b != [] {
      assert s[|a|] == ':';
    }
  }

  // ----------------------------------------------------------------------------------------
  // Lines

  datatype LineType = Blank | Comment | StringLine | ListItem | ObjectItem | ObjectKey | InlineContainer

  predicate IsIgnorable(k: LineType) {
    k == Blank || k == Comment
  }

  /** A classified line (`_Line`). The value is `None`, the text after the marker, or for an
      object item the value group of the match; an object item's key is kept in `key`, which
      is "" for every other kind. */
  datatype Line = Line(text: string, lineno: nat, kind: LineType, depth: nat, key: string, value: Option<string>)

  datatype InvalidKind = NonSpaceIndent | Unrecognised

  /** What `_read_line` returns: a `_Line`, or an `_InvalidLine` with the column it reports. */
  datatype LineRead = Content(line: Line) | Invalid(text: string, lineno: nat, invalid: InvalidKind, colno: nat)

  /** The characters `rstrip("\r\n")` removes. */
  const LineEnds: set<char> := {'\r', '\n'}

  /** `text or None`. */
  function NonEmpty(s: string): (r: Option<string>)
    ensures r.None? <==> s == ""
    ensures r.Some? ==> r.value == s
  {
    if s == "" then None else Some(s)
  }

  /** `re.sub(m + " ?", "", s, count=1)` on a text starting with the marker `m`: the marker
      goes, and the one space after it when there is one. */
  function DropMarker(s: string): (r: string)
    requires |s| >= 1
    ensures |s| >= 2 && s[1] == ' ' ==> r == s[2..]
    ensures !(|s| >= 2 && s[1] == ' ') ==> r == s[1..]
  {
    if |s| >= 2 && s[1] == ' ' then s[2..] else s[1..]
  }

  /** Where the lazy key `(?P<key>.+?)` of the object-item pattern ends: the first position
      from `k` on after which the tail `\s*:(?: (?P<value>.*))?` matches, the key growing one
      character at a time over any character but `\n`, which `.` does not match. */
  function KeyEnd(s: string, k: nat): (r: Option<nat>)
    requires 1 <= k
    ensures r.Some? ==>
      k <= r.value <= |s| && (forall i :: k - 1 <= i < r.value ==> s[i] != '\n')
      && ColonTail(s, r.value).Some? && forall j :: k <= j < r.value ==> ColonTail(s, j).None?
    decreases |s| + 1 - k
  {
    if k > |s| || s[k - 1] == '\n' then None
    else if ColonTail(s, k).Some? then Some(k)
    else KeyEnd(s, k + 1)
  }

  /** Conversely, the key ends at the first position after which the tail matches. */
  lemma {:induction false} KeyEndIs(s: string, k: nat, n: nat)
    requires 1 <= k <= n <= |s| && forall i :: k - 1 <= i < n ==> s[i] != '\n'
    requires (forall j :: k <= j < n ==> ColonTail(s, j).None?) && ColonTail(s, n).Some?
    ensures KeyEnd(s, k) == Some(n)
    decreases n - k
  {
    assert s[k - 1] != '\n';
    if k < n {
      assert ColonTail(s, k).None?;
      KeyEndIs(s, k + 1, n);
    }
  }

  /** `re.fullmatch(r"(?P<key>.+?)\s*:(?: (?P<value>.*))?", s)`: the key and the value group. */
  function MatchObjectItem(s: string): (r: Option<(string, Option<string>)>)
    ensures r.Some? ==>
      1 <= |r.value.0| <= |s| && s[..|r.value.0|] == r.value.0 && '\n' !in r.value.0
      && ColonTail(s, |r.value.0|) == Some(r.value.1)
  {
    match KeyEnd(s, 1)
    case None => None
    case Some(k) =>
      assert forall i :: 0 <= i < k ==> s[..k][i] == s[i];
      Some((s[..k], ColonTail(s, k).value))
  }

  /** `_read_content_line` on the text `stripped` after the indentation, `rest` being the whole
      line after its leading spaces, line ending included: the kind, the key and the value. */
  function ReadContent(stripped: string, rest: string): Option<(LineType, string, Option<string>)>
    requires stripped != [] && StartsWith(rest, stripped)
  {
    if Marked(stripped, '-') then Some((ListItem, "", NonEmpty(Drop(stripped, 2))))
    else if Marked(stripped, '>') then Some((StringLine, "", Some(DropMarker(rest))))
    else if Marked(stripped, ':') then Some((ObjectKey, "", Some(DropMarker(rest))))
    else if stripped[0] == '[' || stripped[0] == '{' then Some((InlineContainer, "", Some(stripped)))
    else match MatchObjectItem(stripped)
      case Some(m) => Some((ObjectItem, m.0, m.1))
      case None => None
  }

  /** A line that is not all whitespace keeps a character that is not whitespace once its line
      ending is gone, so it has a first non-space character, and the text after its leading
      spaces starts the line after them. */
  lemma ContentStart(line: string)
    requires !AllSpace(line)
    ensures var text := RStripChars(line, LineEnds);
      LStrip(text) != "" && LeadingChar(text, ' ') < |text|
      && text == line[..|text|] && StartsWith(line[LeadingChar(text, ' ')..], text[LeadingChar(text, ' ')..])
  {
    var text := RStripChars(line, LineEnds);
    var i :| 0 <= i < |line| && !IsSpace(line[i]);
    assert i < |text| && text[i] == line[i];
    LeadingSpaceAll(text);
    var d := LeadingChar(text, ' ');
    assert d <= i;
    assert text[d..] == line[d..|text|];
  }

  /** `_read_line`: a line of whitespace is blank, a line whose first non-whitespace character
      is `#` a comment; otherwise the depth is the number of leading spaces, a further
      whitespace character makes the line invalid, and the rest decides the kind. */
  function ReadLine(line: string, lineno: nat): LineRead {
    if AllSpace(line) then Content(Line(line, lineno, Blank, 0, "", None))
    else
      var text := RStripChars(line, LineEnds);
      ContentStart(line);
      var ls := LStrip(text);
      if ls[0] == '#' then Content(Line(line, lineno, Comment, 0, "", Some(ls[1..])))
      else
        var depth := LeadingChar(text, ' ');
        var stripped := text[depth..];
        if LeadingSpace(stripped) > 0 then Invalid(line, lineno, NonSpaceIndent, depth)
        else match ReadContent(stripped, line[depth..])
          case Some(c) => Content(Line(line, lineno, c.0, depth, c.1, c.2))
          case None => Invalid(line, lineno, Unrecognised, depth)
  }

  /** Only whitespace is left out of `line.strip()` being empty. */
  lemma StripEmpty(line: string)
    ensures Strip(line) == "" <==> AllSpace(line)
  {
    var t := RStrip(line);
    LStripOfAllSpace(t);
    assert forall i :: 0 <= i < |t| ==> t[i] == line[i];
    if AllSpace(t) {
      assert forall i :: 0 <= i < |line| ==> IsSpace(line[i]) by {
        forall i | 0 <= i < |line| ensures IsSpace(line[i]) {
          if i < |t| {
            assert IsSpace(t[i]);
          }
        }
      }
    }
  }

  /** A line whose stripped text is empty is blank, with depth 0 and no value, and no other line
      is. */
  lemma ReadLineBlank(line: string, lineno: nat)
    ensures var r := ReadLine(line, lineno);
      (r.Content? && r.line.kind == Blank <==> Strip(line) == "")
      && (Strip(line) == "" ==> r == Content(Line(line, lineno, Blank, 0, "", None)))
  {
    StripEmpty(line);
  }

  /** Removing line ends from the right stops at the last character that is not one. */
  lemma RStripEnds(x: string, eol: string)
    requires x == "" || x[|x| - 1] !in LineEnds
    requires forall i :: 0 <= i < |eol| ==> eol[i] in LineEnds
    ensures RStripChars(x + eol, LineEnds) == x
  {
    var s := x + eol;
    var n := TrailingIn(s, LineEnds);
    assert forall i :: |x| <= i < |s| ==> s[i] == eol[i - |x|];
    assert x != "" ==> s[|x| - 1] !in LineEnds;
    assert n == |eol|;
    assert s[..|s| - n] == x;
  }

  /** Removing line ends from the right keeps every character up to one that is not a line
      end. */
  lemma RStripKeeps(s: string, k: nat)
    requires k < |s| && s[k] !in LineEnds
    ensures |RStripChars(s, LineEnds)| > k && RStripChars(s, LineEnds)[..k + 1] == s[..k + 1]
  {
  }

  /** Nor does a prefix in front change where that stripping stops. */
  lemma RStripAfter(p: string, body: string)
    requires RStripChars(body, LineEnds) != ""
    ensures RStripChars(p + body, LineEnds) == p + RStripChars(body, LineEnds)
  {
    var s := p + body;
    var m := TrailingIn(body, LineEnds);
    var n := TrailingIn(s, LineEnds);
    assert forall i :: 0 <= i < |body| ==> s[|p| + i] == body[i];
    assert s[|s| - m - 1] !in LineEnds;
    assert n == m;
    assert s[..|s| - n] == p + body[..|body| - m];
  }

  /** `n` spaces, then a text that starts with something other than whitespace. */
  lemma SpacesThen(n: nat, body: string)
    requires body != "" && !IsSpace(body[0])
    ensures var s := Spaces(n) + body;
      !AllSpace(s) && LeadingChar(s, ' ') == n && LeadingSpace(s) == n && s[n..] == body
  {
    var s := Spaces(n) + body;
    assert s[n] == body[0];
    assert forall i :: 0 <= i < n ==> s[i] == ' ';
    LeadingSpaceIs(s, n);
  }

  /** A line indented by `n` spaces whose text starts with neither whitespace nor `#` has depth
      `n`, and its kind, key and value are what the content recogniser makes of the text. */
  lemma ReadIndented(n: nat, body: string, lineno: nat, c: (LineType, string, Option<string>))
    requires body != "" && !IsSpace(body[0]) && body[0] != '#'
    requires RStripChars(body, LineEnds) != "" && StartsWith(body, RStripChars(body, LineEnds))
    requires ReadContent(RStripChars(body, LineEnds), body) == Some(c)
    ensures ReadLine(Spaces(n) + body, lineno) == Content(Line(Spaces(n) + body, lineno, c.0, n, c.1, c.2))
  {
    IndentedText(n, body);
  }

  /** The text such a line is classified by. */
  lemma IndentedText(n: nat, body: string)
    requires body != "" && !IsSpace(body[0]) && body[0] != '#'
    ensures var bt := RStripChars(body, LineEnds); var line := Spaces(n) + body;
      var text := RStripChars(line, LineEnds);
      bt != "" && StartsWith(body, bt) && !AllSpace(line) && LStrip(text) != "" && LStrip(text)[0] == body[0]
      && LeadingChar(text, ' ') == n && text[n..] == bt && LeadingSpace(bt) == 0 && line[n..] == body
  {
    var line := Spaces(n) + body;
    var bt := RStripChars(body, LineEnds);
    assert body[0] !in LineEnds;
    RStripKeeps(body, 0);
    RStripAfter(Spaces(n), body);
    var text := RStripChars(line, LineEnds);
    assert text == Spaces(n) + bt;
    SpacesThen(n, bt);
    SpacesThen(n, body);
    assert LeadingSpace(bt) == 0;
  }

  /** A comment may have any leading whitespace; its value is the text after `#`, without the
      line ending. */
  lemma ReadLineComment(ws: string, c: string, eol: string, lineno: nat)
    requires AllSpace(ws) && (c == "" || c[|c| - 1] !in LineEnds)
    requires forall i :: 0 <= i < |eol| ==> eol[i] in LineEnds
    ensures ReadLine(ws + "#" + c + eol, lineno) == Content(Line(ws + "#" + c + eol, lineno, Comment, 0, "", Some(c)))
  {
    var line := ws + "#" + c + eol;
    assert line == (ws + "#" + c) + eol;
    RStripEnds(ws + "#" + c, eol);
    var text := ws + "#" + c;
    assert line[|ws|] == '#';
    assert forall i :: 0 <= i < |ws| ==> text[i] == ws[i];
    LeadingSpaceIs(text, |ws|);
    assert LStrip(text) == "#" + c;
  }

  /** `-` alone, with or without a line ending, is a list item without a value, and `- x` one
      with the value `x`; the line ending is not part of it. */
  lemma ReadLineListItem(n: nat, v: string, eol: string, lineno: nat)
    requires v == "" || v[|v| - 1] !in LineEnds
    requires forall i :: 0 <= i < |eol| ==> eol[i] in LineEnds
    ensures var line := Spaces(n) + ("-" + (if v == "" then "" else " " + v) + eol);
      ReadLine(line, lineno) == Content(Line(line, lineno, ListItem, n, "", NonEmpty(v)))
  {
    var body := "-" + (if v == "" then "" else " " + v);
    RStripEnds(body, eol);
    assert ReadContent(body, body + eol) == Some((ListItem, "", NonEmpty(v))) by {
      assert Marked(body, '-') && Drop(body, 2) == v;
    }
    ReadIndented(n, body + eol, lineno, (ListItem, "", NonEmpty(v)));
  }

  /** `> x` is a string line and `: x` an object-key line whose value is `x` with whatever line
      ending it has. */
  lemma ReadLineMarked(n: nat, m: char, v: string, lineno: nat)
    requires m == '>' || m == ':'
    ensures var line := Spaces(n) + ([m, ' '] + v);
      ReadLine(line, lineno) == Content(Line(line, lineno, if m == '>' then StringLine else ObjectKey, n, "", Some(v)))
  {
    var body := [m, ' '] + v;
    var bt := RStripChars(body, LineEnds);
    var c := (if m == '>' then StringLine else ObjectKey, "", Some(v));
    RStripKeeps(body, 1);
    assert ReadContent(bt, body) == Some(c) by {
      assert bt[..2] == [m, ' '] && Marked(bt, m);
      assert bt[0] == m && bt[0] != '-';
      assert DropMarker(body) == v;
    }
    ReadIndented(n, body, lineno, c);
  }

  /** The marker alone leaves only the line ending as the value. */
  lemma ReadLineMarkedBare(n: nat, m: char, eol: string, lineno: nat)
    requires m == '>' || m == ':'
    requires forall i :: 0 <= i < |eol| ==> eol[i] in LineEnds
    ensures var line := Spaces(n) + ([m] + eol);
      ReadLine(line, lineno) == Content(Line(line, lineno, if m == '>' then StringLine else ObjectKey, n, "", Some(eol)))
  {
    var body := [m] + eol;
    var c := (if m == '>' then StringLine else ObjectKey, "", Some(eol));
    RStripEnds([m], eol);
    assert ReadContent([m], body) == Some(c) by {
      assert Marked([m], m) && !Marked([m], '-');
      assert DropMarker(body) == eol;
    }
    ReadIndented(n, body, lineno, c);
  }

  /** Inside a key that does not end in whitespace, the tail cannot match before the key's end
      as long as no colon in the key and the whitespace after it is followed by a space. */
  lemma NoEarlyTail(key: string, ws: string, tail: string, j: nat)
    requires 1 <= j < |key| && !IsSpace(key[|key| - 1]) && AllSpace(ws) && !HasPair(key + ws, ':', ' ')
    ensures ColonTail(key + ws + ":" + tail, j).None?
  {
    var s := key + ws + ":" + tail;
    var kw := key + ws;
    assert s == kw + (":" + tail);
    var t := s[j..];
    LeadingSpaceAll(t);
    assert t[|key| - 1 - j] == key[|key| - 1];
    var q := j + LeadingSpace(t);
    assert q < |key| && s[q] == kw[q];
    assert q + 1 < |kw| ==> s[q + 1] == kw[q + 1];
    assert q + 1 == |kw| ==> s[q + 1] == ':';
  }

  /** The lazy key of such a text is the given key, and the value group the given value. */
  lemma MatchObjectItemOf(key: string, ws: string, v: Option<string>)
    requires key != "" && '\n' !in key && !IsSpace(key[|key| - 1])
    requires AllSpace(ws) && !HasPair(key + ws, ':', ' ')
    requires v.Some? ==> '\n' !in v.value
    ensures MatchObjectItem(key + ws + ":" + (if v.Some? then " " + v.value else "")) == Some((key, v))
  {
    var tail := if v.Some? then " " + v.value else "";
    var body := key + ws + ":" + tail;
    forall j | 1 <= j < |key| ensures ColonTail(body, j).None? {
      NoEarlyTail(key, ws, tail, j);
    }
    assert body[|key|..] == ws + ":" + tail;
    ColonTailOf(body, |key|, ws, v);
    assert forall i :: 0 <= i < |key| ==> body[i] == key[i];
    KeyEndIs(body, 1, |key|);
    assert body[..|key|] == key;
  }

  /** A key, whitespace, a colon and an optional space-led value make an object item with that
      key and value when the key starts and ends with something other than whitespace, holds no
      line break, no colon is followed by a space in the key or the whitespace, and the text
      does not look like a list item, a string, a comment or an inline container. */
  lemma ReadLineObjectItem(n: nat, key: string, ws: string, v: Option<string>, eol: string, lineno: nat)
    requires key != "" && '\n' !in key && !IsSpace(key[0]) && !IsSpace(key[|key| - 1])
    requires key[0] != '#' && key[0] != '[' && key[0] != '{'
    requires AllSpace(ws) && !HasPair(key + ws, ':', ' ') && !StartsWith(key + ws, "- ") && !StartsWith(key + ws, "> ")
    requires v.Some? ==> '\n' !in v.value && (v.value == "" || v.value[|v.value| - 1] !in LineEnds)
    requires forall i :: 0 <= i < |eol| ==> eol[i] in LineEnds
    ensures var line := Spaces(n) + (key + ws + ":" + (if v.Some? then " " + v.value else "") + eol);
      ReadLine(line, lineno) == Content(Line(line, lineno, ObjectItem, n, key, v))
  {
    var body := key + ws + ":" + (if v.Some? then " " + v.value else "");
    ItemText(key, ws, v);
    RStripEnds(body, eol);
    MatchObjectItemOf(key, ws, v);
    ReadIndented(n, body + eol, lineno, (ObjectItem, key, v));
  }

  /** Such a text has no line ending to strip and is none of the marked kinds. */
  lemma ItemText(key: string, ws: string, v: Option<string>)
    requires key != "" && !IsSpace(key[0]) && key[0] != '#' && key[0] != '[' && key[0] != '{'
    requires !HasPair(key + ws, ':', ' ') && !StartsWith(key + ws, "- ") && !StartsWith(key + ws, "> ")
    requires v.Some? ==> v.value == "" || v.value[|v.value| - 1] !in LineEnds
    ensures var body := key + ws + ":" + (if v.Some? then " " + v.value else "");
      body[0] == key[0] && RStripChars(body, LineEnds) == body
      && !Marked(body, '-') && !Marked(body, '>') && !Marked(body, ':')
  {
    var tail := if v.Some? then " " + v.value else "";
    var body := key + ws + ":" + tail;
    var kw := key + ws;
    assert body == kw + (":" + tail);
    assert body[|body| - 1] !in LineEnds;
    assert TrailingIn(body, LineEnds) == 0;
    assert |kw| >= 2 ==> body[..2] == kw[..2];
    assert |kw| == 1 ==> body[1] == ':';
    assert body[0] == key[0];
    assert |kw| >= 2 && kw[0] == ':' && kw[1] == ' ' ==> HasPair(kw, ':', ' ');
  }

  /** `key2 :` is an object item with key `key2` and no value. */
  lemma ReadLineKeyWithoutValue()
    ensures ReadLine("  key2 :\n", 7) == Content(Line("  key2 :\n", 7, ObjectItem, 2, "key2", None))
  {
    assert Spaces(2) == "  ";
    assert "  key2 :\n" == Spaces(2) + ("key2" + " " + ":" + "" + "\n");
    assert "key2" + " " == "key2 " && "key2 "[0] == 'k';
    assert !HasPair("key2 ", ':', ' ');
    ReadLineObjectItem(2, "key2", " ", None, "\n", 7);
  }

  /** Every line keeps its text and number. A content line's depth is the number of spaces in
      front of its text, which is followed by neither another whitespace character nor the end;
      blank and comment lines have depth 0; an invalid line reports that number of spaces as
      its column, and it is a non-space indentation exactly when a further whitespace character
      follows the spaces of a line that is neither blank nor a comment. */
  lemma ReadLineShape(line: string, lineno: nat)
    ensures var r := ReadLine(line, lineno);
      var text := RStripChars(line, LineEnds);
      var d := LeadingChar(text, ' ');
      (r.Content? ==> r.line.text == line && r.line.lineno == lineno && (IsIgnorable(r.line.kind) ==> r.line.depth == 0))
      && (r.Content? && !IsIgnorable(r.line.kind) ==>
            r.line.depth == d && d < |text| && !IsSpace(text[d]) && forall i :: 0 <= i < d ==> line[i] == ' ')
      && (r.Invalid? ==> r.text == line && r.lineno == lineno && r.colno == d && forall i :: 0 <= i < d ==> line[i] == ' ')
      && (r.Invalid? && r.invalid == NonSpaceIndent <==>
            !AllSpace(line) && LStrip(text) != "" && LStrip(text)[0] != '#' && d < |text| && IsSpace(text[d]))
  {
    if !AllSpace(line) {
      NonBlankParts(line);
    }
  }

  /** The pieces `_read_line` takes a line that is not blank apart into. */
  lemma NonBlankParts(line: string)
    requires !AllSpace(line)
    ensures var text := RStripChars(line, LineEnds);
      var d := LeadingChar(text, ' ');
      LStrip(text) != "" && d < |text| && text[d..][0] == text[d] && (forall i :: 0 <= i < d ==> line[i] == ' ')
      && (LeadingSpace(text[d..]) > 0 <==> IsSpace(text[d]))
  {
    var text := RStripChars(line, LineEnds);
    ContentStart(line);
    assert forall i :: 0 <= i < |text| ==> line[i] == text[i];
  }

  // ----------------------------------------------------------------------------------------
  // The iterator `_LinesIter`

  /** `_read_lines`: every line read, numbered from 1. */
  function Classify(raw: seq<string>): (items: seq<LineRead>)
    ensures |items| == |raw| && forall i :: 0 <= i < |raw| ==> items[i] == ReadLine(raw[i], i + 1)
  {
    seq(|raw|, i requires 0 <= i < |raw| => ReadLine(raw[i], i + 1))
  }

  /** The iterator's state: how many lines the generator has produced, and the line held for
      `peek_next`, `None` once the lines are exhausted. */
  datatype Cursor = Cursor(gen: nat, next: Option<Line>)

  /** A held line is the last one produced, and a content line that is neither blank nor a
      comment. */
  predicate CursorOk(items: seq<LineRead>, c: Cursor) {
    c.gen <= |items|
    && (c.next.Some? ==> 1 <= c.gen && items[c.gen - 1] == Content(c.next.value) && !IsIgnorable(c.next.value.kind))
  }

  /** The index of the held line, or of the next line the generator would produce. */
  function Pos(c: Cursor): nat {
    if c.next.Some? && c.gen >= 1 then c.gen - 1 else c.gen
  }

  function Rank(items: seq<LineRead>, c: Cursor): nat
    requires CursorOk(items, c)
  {
    |items| - Pos(c)
  }

  /** `_advance_to_next_content_line` with the generator at `gen`: blank and comment lines are
      skipped, an invalid line raises "invalid line" with its column, and `None` means the lines
      are exhausted. */
  function NextContent(items: seq<LineRead>, gen: nat): (r: Result<Cursor, Error>)
    requires gen <= |items|
    ensures r.Ok? ==> CursorOk(items, r.value) && Pos(r.value) >= gen
    ensures r.Ok? ==> forall i :: gen <= i < Pos(r.value) ==> items[i].Content? && IsIgnorable(items[i].line.kind)
    ensures r.Ok? && r.value.next.None? ==> r.value.gen == |items|
    ensures r.Err? ==>
      exists i :: gen <= i < |items| && items[i].Invalid?
        && r.error == Error(InvalidLine, Some(items[i].lineno), Some(items[i].colno))
        && forall j :: gen <= j < i ==> items[j].Content? && IsIgnorable(items[j].line.kind)
    decreases |items| - gen
  {
    if gen == |items| then Ok(Cursor(gen, None))
    else
      match items[gen]
      case Invalid(_, lineno, _, colno) => Err(Error(InvalidLine, Some(lineno), Some(colno)))
      case Content(l) => if IsIgnorable(l.kind) then NextContent(items, gen + 1) else Ok(Cursor(gen + 1, Some(l)))
  }

  /** `__next__`: hand out the held line after advancing past it; `StopIteration` when nothing
      is held. */
  function Step(items: seq<LineRead>, c: Cursor): (r: Result<(Line, Cursor), Error>)
    requires CursorOk(items, c)
    ensures c.next.None? ==> r == Err(StopIteration)
    ensures r.Ok? ==> Some(r.value.0) == c.next
    ensures r.Ok? ==> CursorOk(items, r.value.1) && Pos(r.value.1) > Pos(c)
    ensures r.Err? && c.next.Some? ==> NextContent(items, c.gen).Err? && r.error == NextContent(items, c.gen).error
  {
    if c.next.None? then Err(StopIteration)
    else
      var c' :- NextContent(items, c.gen);
      Ok((c.next.value, c'))
  }

  /** `_LinesIter`: the generator's output, how far the generator has got, and the line held
      for `peek_next`. */
  class LinesIter {
    const items: seq<LineRead>
    var gen: nat
    var nextLine: Option<Line>

    ghost predicate Valid()
      reads this
    {
      CursorOk(items, Cursor(gen, nextLine))
    }

    function Cur(): Cursor
      reads this
    {
      Cursor(gen, nextLine)
    }

    /** The first half of `__init__`: the generator over `raw`, not started yet. */
    constructor (raw: seq<string>)
      ensures items == Classify(raw) && gen == 0 && nextLine == None && Valid()
    {
      items := Classify(raw);
      gen := 0;
      nextLine := None;
    }

    /** `next(self._generator, None)` and the check on what it yields: the next content line,
        the "invalid line" error an invalid one raises, or `None` at the end. */
    method GenNext() returns (r: Result<Option<Line>, Error>)
      requires gen <= |items|
      modifies this`gen
      ensures old(gen) == |items| ==> gen == old(gen) && r == Ok(None)
      ensures old(gen) < |items| ==>
        gen == old(gen) + 1
        && r == match items[old(gen)]
          case Invalid(_, lineno, _, colno) => Err(Error(InvalidLine, Some(lineno), Some(colno)))
          case Content(l) => Ok(Some(l))
    {
      if gen == |items| {
        return Ok(None);
      }
      var l := items[gen];
      gen := gen + 1;
      match l
      case Invalid(_, lineno, _, colno) => return Err(Error(InvalidLine, Some(lineno), Some(colno)));
      case Content(line) => return Ok(Some(line));
    }

    /** `_advance_to_next_content_line`. */
    method Advance() returns (r: Result<Option<Line>, Error>)
      requires gen <= |items|
      modifies this`gen
      ensures match NextContent(items, old(gen))
        case Ok(c) => r == Ok(c.next) && gen == c.gen
        case Err(e) => r == Err(e)
    {
      var item := GenNext();
      while item.Ok? && item.value.Some? && IsIgnorable(item.value.value.kind)
        invariant gen <= |items|
        invariant item.Ok? && item.value.Some? ==>
          1 <= gen && items[gen - 1] == Content(item.value.value)
          && NextContent(items, old(gen)) == NextContent(items, gen - 1)
        invariant item.Ok? && item.value.None? ==>
          gen == |items| && NextContent(items, old(gen)) == Ok(Cursor(gen, None))
        invariant item.Err? ==> NextContent(items, old(gen)) == Err(item.error)
        decreases |items| - gen + if item.Ok? && item.value.Some? then 1 else 0
      {
        item := GenNext();
      }
      r := item;
    }

    /** The second half of `__init__`: advance to the first content line. */
    method Start() returns (r: Result<(), Error>)
      requires gen == 0 && nextLine == None
      modifies this
      ensures match NextContent(items, 0)
        case Ok(c) => r == Ok(()) && Cur() == c
        case Err(e) => r == Err(e)
      ensures r.Ok? ==> Valid()
    {
      var first := Advance();
      if first.Err? {
        return Err(first.error);
      }
      nextLine := first.value;
      return Ok(());
    }

    function PeekNext(): Option<Line>
      reads this
    {
      nextLine
    }

    /** `__next__`. */
    method Next() returns (r: Result<Line, Error>)
      requires Valid()
      modifies this
      ensures match Step(items, old(Cur()))
        case Ok(lc) => r == Ok(lc.0) && Cur() == lc.1
        case Err(e) => r == Err(e)
      ensures r.Ok? ==> Valid()
    {
      if nextLine.None? {
        return Err(StopIteration);
      }
      var held := nextLine.value;
      var adv := Advance();
      if adv.Err? {
        return Err(adv.error);
      }
      nextLine := adv.value;
      return Ok(held);
    }
  }

  // ----------------------------------------------------------------------------------------
  // The parser: what `_read_value` and the methods it calls return, on cursors

  /** The values of `DuplicateFieldBehaviour`, a `str` enumeration that compares equal to
      these strings. */
  const UseFirst: string := "use_first"
  const UseLast: string := "use_last"
  const RaiseOnDup: string := "error"

  /** `_report(message, line, colno=colno)`: the error carries the line's number. */
  function Report(k: ErrorKind, line: Line, colno: Option<nat>): (e: Error)
    ensures e.Error? && e.kind == k && e.lineno == Some(line.lineno) && e.colno == colno
  {
    Error(k, Some(line.lineno), colno)
  }

  /** The text a string or key line carries, which `_read_line` always gives them. */
  function ValueText(line: Line): string {
    if line.value.Some? then line.value.value else ""
  }

  /** `data[-1] = data[-1].rstrip("\r\n")` and then `"".join(data)`: the parts run together,
      and only the last loses its line ending. */
  function JoinBlock(parts: seq<string>): string
    requires parts != []
  {
    Concat(parts[|parts| - 1 := RStripChars(parts[|parts| - 1], LineEnds)])
  }

  /** A read that succeeded left a sound cursor that has not moved back. */
  predicate Parsed<T>(items: seq<LineRead>, c: Cursor, vc: (T, Cursor)) {
    CursorOk(items, vc.1) && Pos(vc.1) >= Pos(c)
  }

  /** `_read_value`: dispatch on the kind of the held line. The kinds of blank and comment lines
      never reach it, so its "unrecognized line" branch cannot be taken. */
  function ValueAt(items: seq<LineRead>, c: Cursor, depth: nat, onDup: string): (r: Result<(Value, Cursor), Error>)
    requires CursorOk(items, c) && c.next.Some? && depth <= c.next.value.depth
    ensures r.Ok? ==> Parsed(items, c, r.value) && Pos(r.value.1) > Pos(c)
    ensures r.Ok? && r.value.0 == Null ==> c.next.value.kind == InlineContainer
    decreases Rank(items, c), 1
  {
    match c.next.value.kind
    case StringLine => StringAt(items, c, depth, [])
    case ListItem => ListAt(items, c, depth, onDup, [])
    case ObjectItem => ObjectAt(items, c, depth, onDup, [])
    case ObjectKey => ObjectAt(items, c, depth, onDup, [])
    case InlineContainer => InlineAt(items, c)
  }

  /** `_read_inline_container`: the line is taken, and the inline parsers, which have no body
      yet, give `None`. */
  function InlineAt(items: seq<LineRead>, c: Cursor): (r: Result<(Value, Cursor), Error>)
    requires CursorOk(items, c) && c.next.Some?
    ensures r.Ok? ==> Parsed(items, c, r.value) && Pos(r.value.1) > Pos(c) && r.value.0 == Null
    ensures r.Err? ==> Step(items, c).Err? && r.error == Step(items, c).error
  {
    var lc :- Step(items, c);
    Ok((Null, lc.1))
  }

  /** The value of a list or object item whose line has been read: its own text when that is
      not empty; otherwise the block that follows when it is indented deeper; otherwise "", or,
      after a multi-line key (`afterKey`), the error that a value was expected. */
  function ItemValueAt(items: seq<LineRead>, c: Cursor, depth: nat, onDup: string, value: Option<string>, afterKey: bool): (r: Result<(Value, Cursor), Error>)
    requires CursorOk(items, c)
    ensures r.Ok? ==> Parsed(items, c, r.value)
    ensures value.Some? && value.value != "" ==> r == Ok((Str(value.value), c))
    ensures (value.None? || value.value == "") && (c.next.None? || c.next.value.depth <= depth) ==>
      r == if afterKey then Err(Error(ExpectedValueAfterKey, None, None)) else Ok((Str(""), c))
    ensures r.Ok? && Pos(r.value.1) > Pos(c) ==> c.next.Some? && c.next.value.depth > depth
    decreases Rank(items, c), 2
  {
    if value.Some? && value.value != "" then Ok((Str(value.value), c))
    else if c.next.Some? && c.next.value.depth > depth then ValueAt(items, c, c.next.value.depth, onDup)
    else if afterKey then Err(Error(ExpectedValueAfterKey, None, None))
    else Ok((Str(""), c))
  }

  /** `_read_list` from the held line, with `acc` the items read so far. The list ends at the
      end of the input or at the first line shallower than `depth`. */
  function ListAt(items: seq<LineRead>, c: Cursor, depth: nat, onDup: string, acc: seq<Value>): (r: Result<(Value, Cursor), Error>)
    requires CursorOk(items, c)
    ensures r.Ok? ==> Parsed(items, c, r.value) && r.value.0.Lst? && acc <= r.value.0.items
    ensures r.Ok? && r.value.1.next.Some? ==> r.value.1.next.value.depth < depth
    decreases Rank(items, c), 0
  {
    if c.next.None? || c.next.value.depth < depth then Ok((Lst(acc), c))
    else
      var lc :- Step(items, c);
      var line := lc.0;
      if line.depth != depth then Err(Report(InvalidIndentation, line, Some(depth)))
      else if line.kind != ListItem then Err(Report(ExpectedListItem, line, Some(depth)))
      else
        var vc :- ItemValueAt(items, lc.1, depth, onDup, line.value, false);
        ListAt(items, vc.1, depth, onDup, acc + [vc.0])
  }

  /** One field stored under the duplicate-field policy `onDup`: a new key goes last; on a
      repeated key, "use_first" keeps the first value, "error" reports the field's line and
      column, and any other policy, "use_last" among them, takes the new value in the old
      place. */
  function AddField(acc: Entries, key: string, v: Value, onDup: string, lineno: nat, depth: nat): (r: Result<Entries, Error>)
    requires UniqueKeys(acc)
    ensures r.Ok? ==> UniqueKeys(r.value) && HasKey(r.value, key) && forall k :: HasKey(acc, k) ==> HasKey(r.value, k)
    ensures !HasKey(acc, key) ==> r == Ok(acc + [(key, v)])
    ensures HasKey(acc, key) && onDup == UseFirst ==> r == Ok(acc)
    ensures HasKey(acc, key) && onDup == RaiseOnDup ==> r == Err(Error(DuplicateKey, Some(lineno), Some(depth)))
    ensures HasKey(acc, key) && onDup != UseFirst && onDup != RaiseOnDup ==>
      r.Ok? && Keys(r.value) == Keys(acc) && Lookup(r.value, key) == Some(v)
      && forall k :: k != key ==> Lookup(r.value, k) == Lookup(acc, k)
  {
    if !HasKey(acc, key) then
      PutNew(acc, key, v);
      PutUnique(acc, key, v);
      Ok(Put(acc, key, v))
    else if onDup == UseFirst then Ok(acc)
    else if onDup == RaiseOnDup then Err(Error(DuplicateKey, Some(lineno), Some(depth)))
    else
      PutUnique(acc, key, v);
      assert forall k :: k != key ==> Lookup(Put(acc, key, v), k) == Lookup(acc, k) by {
        forall k | k != key ensures Lookup(Put(acc, key, v), k) == Lookup(acc, k) {
          PutOther(acc, key, v, k);
        }
      }
      Ok(Put(acc, key, v))
  }

  /** The key of the field on the held line: an object item's own key, or the key that the
      run of `:` lines from here makes up. */
  function KeyAt(items: seq<LineRead>, c: Cursor, depth: nat): (r: Result<(string, Cursor), Error>)
    requires CursorOk(items, c) && c.next.Some? && c.next.value.depth == depth
    requires c.next.value.kind == ObjectItem || c.next.value.kind == ObjectKey
    ensures r.Ok? ==> Parsed(items, c, r.value) && Pos(r.value.1) > Pos(c)
  {
    if c.next.value.kind == ObjectItem then
      var lc :- Step(items, c);
      Ok((lc.0.key, lc.1))
    else ObjectKeyAt(items, c, depth, [])
  }

  /** `_read_object` from the held line, with `acc` the fields stored so far. */
  function ObjectAt(items: seq<LineRead>, c: Cursor, depth: nat, onDup: string, acc: Entries): (r: Result<(Value, Cursor), Error>)
    requires CursorOk(items, c) && UniqueKeys(acc)
    ensures r.Ok? ==> Parsed(items, c, r.value) && r.value.0.Dct? && UniqueKeys(r.value.0.entries)
    ensures r.Ok? ==> forall k :: HasKey(acc, k) ==> HasKey(r.value.0.entries, k)
    ensures r.Ok? && r.value.1.next.Some? ==> r.value.1.next.value.depth < depth
    decreases Rank(items, c), 0
  {
    if c.next.None? || c.next.value.depth < depth then Ok((Dct(acc), c))
    else
      var line := c.next.value;
      if line.depth != depth then Err(Report(InvalidIndentation, line, Some(depth)))
      else if line.kind != ObjectItem && line.kind != ObjectKey then Err(Report(ExpectedObjectItem, line, Some(depth)))
      else
        var kc :- KeyAt(items, c, depth);
        var value := if line.kind == ObjectItem then line.value else None;
        var vc :- ItemValueAt(items, kc.1, depth, onDup, value, line.kind == ObjectKey);
        var acc' :- AddField(acc, kc.0, vc.0, onDup, line.lineno, depth);
        ObjectAt(items, vc.1, depth, onDup, acc')
  }

  /** `_read_string` from the held line, with `acc` the values read so far: the string lines
      at `depth` or deeper that follow, each deeper one an indentation error. */
  function StringAt(items: seq<LineRead>, c: Cursor, depth: nat, acc: seq<string>): (r: Result<(Value, Cursor), Error>)
    requires CursorOk(items, c)
    requires acc != [] || (c.next.Some? && c.next.value.kind == StringLine && c.next.value.depth >= depth)
    ensures r.Ok? ==> Parsed(items, c, r.value) && r.value.0.Str? && (acc == [] ==> Pos(r.value.1) > Pos(c))
    ensures r.Ok? && r.value.1.next.Some? ==> !(r.value.1.next.value.kind == StringLine && r.value.1.next.value.depth >= depth)
    decreases Rank(items, c), 0
  {
    if c.next.Some? && c.next.value.kind == StringLine && c.next.value.depth >= depth then
      var lc :- Step(items, c);
      var line := lc.0;
      if line.depth != depth then Err(Report(InvalidIndentation, line, Some(depth)))
      else StringAt(items, lc.1, depth, acc + [ValueText(line)])
    else Ok((Str(JoinBlock(acc)), c))
  }

  /** `_read_object_key` from the held line, with `acc` the values read so far: the key lines
      at exactly `depth` that follow. */
  function ObjectKeyAt(items: seq<LineRead>, c: Cursor, depth: nat, acc: seq<string>): (r: Result<(string, Cursor), Error>)
    requires CursorOk(items, c)
    requires acc != [] || (c.next.Some? && c.next.value.kind == ObjectKey && c.next.value.depth == depth)
    ensures r.Ok? ==> Parsed(items, c, r.value) && (acc == [] ==> Pos(r.value.1) > Pos(c))
    ensures r.Ok? && r.value.1.next.Some? ==> !(r.value.1.next.value.kind == ObjectKey && r.value.1.next.value.depth == depth)
    decreases Rank(items, c)
  {
    if c.next.Some? && c.next.value.kind == ObjectKey && c.next.value.depth == depth then
      var lc :- Step(items, c);
      ObjectKeyAt(items, lc.1, depth, acc + [ValueText(lc.0)])
    else Ok((JoinBlock(acc), c))
  }

  /** `parse` on the iterator's lines: `None` for a document without content; otherwise the
      value at depth 0. Lines after a top-level string or inline container are not read. */
  function Document(items: seq<LineRead>, onDup: string): (r: Result<Value, Error>)
    ensures r == Ok(Null) ==>
      AllIgnorable(items)
      || (NextContent(items, 0).Ok? && NextContent(items, 0).value.next.Some?
          && NextContent(items, 0).value.next.value.kind == InlineContainer)
  {
    var c :- NextContent(items, 0);
    if c.next.None? then Ok(Null)
    else
      var vc :- ValueAt(items, c, 0, onDup);
      Ok(vc.0)
  }

  /** `_Parser(on_dup=onDup).parse(lines)`. */
  function Parsing(raw: seq<string>, onDup: string): Result<Value, Error> {
    Document(Classify(raw), onDup)
  }

  /** `loads`: the document made of the lines `io.StringIO(content)` yields. */
  function Loaded(content: string, onDup: string): (r: Result<Value, Error>)
    ensures content == "" ==> r == Ok(Null)
  {
    Parsing(StreamLines(content), onDup)
  }

  // ----------------------------------------------------------------------------------------
  // Properties of the parser

  /** The parts after the first run on from it. */
  lemma JoinBlockCons(parts: seq<string>)
    requires |parts| >= 2
    ensures JoinBlock(parts) == parts[0] + JoinBlock(parts[1..])
  {
    var n := |parts|;
    var x := RStripChars(parts[n - 1], LineEnds);
    assert parts[n - 1 := x] == [parts[0]] + parts[1..][n - 2 := x];
  }

  /** A block of lines that each end in a newline reads as their texts joined with newlines:
      the line endings in between stay, and only the last one is stripped. */
  lemma {:induction false} JoinBlockLines(texts: seq<string>, parts: seq<string>)
    requires texts != [] && |parts| == |texts|
    requires forall i :: 0 <= i < |texts| ==> parts[i] == texts[i] + "\n"
    requires var t := texts[|texts| - 1]; t == "" || t[|t| - 1] !in LineEnds
    ensures JoinBlock(parts) == Join("\n", texts)
    decreases |texts|
  {
    if |texts| == 1 {
      RStripEnds(texts[0], "\n");
      assert parts[0 := texts[0]] == [texts[0]];
      assert Concat([texts[0]]) == texts[0] + Concat([]);
    } else {
      JoinBlockCons(parts);
      JoinBlockLines(texts[1..], parts[1..]);
    }
  }

  /** No line but blank and comment lines. */
  predicate AllIgnorable(items: seq<LineRead>) {
    forall i :: 0 <= i < |items| ==> items[i].Content? && IsIgnorable(items[i].line.kind)
  }

  /** From a point where only blank and comment lines are left, the iterator runs out. */
  lemma {:induction false} SkipToEnd(items: seq<LineRead>, gen: nat)
    requires gen <= |items| && forall i :: gen <= i < |items| ==> items[i].Content? && IsIgnorable(items[i].line.kind)
    ensures NextContent(items, gen) == Ok(Cursor(|items|, None))
    decreases |items| - gen
  {
    if gen < |items| {
      SkipToEnd(items, gen + 1);
    }
  }

  /** A document of blank and comment lines parses to `None`; and `None` comes only from such a
      document or from one whose first content line is an inline container. */
  lemma EmptyDocument(items: seq<LineRead>, onDup: string)
    ensures AllIgnorable(items) ==> Document(items, onDup) == Ok(Null)
    ensures Document(items, onDup) == Ok(Null) ==>
      AllIgnorable(items)
      || (NextContent(items, 0).Ok? && NextContent(items, 0).value.next.Some?
          && NextContent(items, 0).value.next.value.kind == InlineContainer)
  {
    if AllIgnorable(items) {
      SkipToEnd(items, 0);
    }
  }

  /** A line of whitespace only, or one whose first non-whitespace character is `#`, is blank
      or a comment. */
  lemma IgnorableLine(line: string, lineno: nat)
    requires Strip(line) == "" || (LStrip(line) != "" && LStrip(line)[0] == '#')
    ensures ReadLine(line, lineno).Content? && IsIgnorable(ReadLine(line, lineno).line.kind)
  {
    StripEmpty(line);
    if !AllSpace(line) {
      var text := RStripChars(line, LineEnds);
      ContentStart(line);
      var k := LeadingSpace(line);
      LeadingSpaceAll(line);
      assert k < |line| && !IsSpace(line[k]) && line[k] == '#';
      assert line[k] !in LineEnds;
      assert k < |text|;
      assert forall i :: 0 <= i < |text| ==> text[i] == line[i];
      LeadingSpaceIs(text, k);
    }
  }

  /** A text of blank and comment lines loads as `None`, whatever the policy. */
  lemma BlankInput(raw: seq<string>, onDup: string)
    requires forall i :: 0 <= i < |raw| ==> Strip(raw[i]) == "" || (LStrip(raw[i]) != "" && LStrip(raw[i])[0] == '#')
    ensures Parsing(raw, onDup) == Ok(Null)
  {
    var items := Classify(raw);
    forall i | 0 <= i < |raw| ensures items[i].Content? && IsIgnorable(items[i].line.kind) {
      IgnorableLine(raw[i], i + 1);
    }
    EmptyDocument(items, onDup);
  }

  /** Advancing onto an invalid line, past blank and comment lines only, raises "invalid line"
      with its number and column. */
  lemma {:induction false} InvalidLineRaises(items: seq<LineRead>, gen: nat, i: nat)
    requires gen <= i < |items| && items[i].Invalid?
    requires forall j :: gen <= j < i ==> items[j].Content? && IsIgnorable(items[j].line.kind)
    ensures NextContent(items, gen) == Err(Error(InvalidLine, Some(items[i].lineno), Some(items[i].colno)))
    decreases i - gen
  {
    if gen < i {
      InvalidLineRaises(items, gen + 1, i);
    }
  }

  /** A tab after two spaces of indentation makes the line invalid, with column 2. */
  lemma TabInIndentation()
    ensures ReadLine("  \t- b\n", 2) == Invalid("  \t- b\n", 2, NonSpaceIndent, 2)
  {
    var bad := "  \t- b\n";
    ReadLineShape(bad, 2);
    TabLineText();
    TabLineIndent();
  }

  lemma TabLineText()
    ensures RStripChars("  \t- b\n", LineEnds) == "  \t- b" && !AllSpace("  \t- b\n")
  {
    var bad := "  \t- b\n";
    assert TrailingIn(bad, LineEnds) == 1;
    assert !IsSpace(bad[3]);
  }

  lemma TabLineIndent()
    ensures var text := "  \t- b";
      LeadingChar(text, ' ') == 2 && IsSpace(text[2]) && LStrip(text) == "- b"
  {
    var text := "  \t- b";
    assert LeadingChar(text, ' ') == 2;
    LeadingSpaceIs(text, 3);
  }

  /** `- a` read at line 1: a list item with the value `a`. */
  lemma ListItemA()
    ensures ReadLine("- a\n", 1) == Content(Line("- a\n", 1, ListItem, 0, "", Some("a")))
  {
    var v := "a";
    assert Spaces(0) + ("-" + (if v == "" then "" else " " + v) + "\n") == "- a\n";
    ReadLineListItem(0, v, "\n", 1);
  }

  /** A list whose second line has a tab in its indentation fails with "invalid line: 2:2" as
      soon as the first item is taken. */
  lemma TabbedList(onDup: string)
    ensures Parsing(["- a\n", "  \t- b\n"], onDup) == Err(Error(InvalidLine, Some(2), Some(2)))
  {
    var l1 := Line("- a\n", 1, ListItem, 0, "", Some("a"));
    var raw := ["- a\n", "  \t- b\n"];
    var items := [Content(l1), Invalid("  \t- b\n", 2, NonSpaceIndent, 2)];
    forall i | 0 <= i < |raw| ensures ReadLine(raw[i], i + 1) == items[i] {
      if i == 0 {
        ListItemA();
      } else {
        TabInIndentation();
      }
    }
    ClassifyIs(raw, items);
    TabbedListItems(items, onDup);
  }

  lemma TabbedListItems(items: seq<LineRead>, onDup: string)
    requires items == [Content(Line("- a\n", 1, ListItem, 0, "", Some("a"))), Invalid("  \t- b\n", 2, NonSpaceIndent, 2)]
    ensures Document(items, onDup) == Err(Error(InvalidLine, Some(2), Some(2)))
  {
    var c := Cursor(1, Some(items[0].line));
    assert NextContent(items, 0) == Ok(c);
    assert Step(items, c) == Err(Error(InvalidLine, Some(2), Some(2)));
    assert ListAt(items, c, 0, onDup, []) == Err(Error(InvalidLine, Some(2), Some(2)));
    assert ValueAt(items, c, 0, onDup) == ListAt(items, c, 0, onDup, []);
  }

  /** A multi-line key without a deeper line after it raises "expected value after multiline
      object key", which carries no line number. */
  lemma KeyNeedsValue(items: seq<LineRead>, c: Cursor, depth: nat, onDup: string, acc: Entries)
    requires CursorOk(items, c) && UniqueKeys(acc) && c.next.Some?
    requires c.next.value.kind == ObjectKey && c.next.value.depth == depth
    requires ObjectKeyAt(items, c, depth, []).Ok?
    requires var after := ObjectKeyAt(items, c, depth, []).value.1;
      after.next.None? || after.next.value.depth <= depth
    ensures ObjectAt(items, c, depth, onDup, acc) == Err(Error(ExpectedValueAfterKey, None, None))
  {
    var kc := ObjectKeyAt(items, c, depth, []).value;
    assert KeyAt(items, c, depth) == Ok(kc);
    assert ItemValueAt(items, kc.1, depth, onDup, None, true) == Err(Error(ExpectedValueAfterKey, None, None));
  }

  lemma KeyLineA()
    ensures ReadLine(": a\n", 1) == Content(Line(": a\n", 1, ObjectKey, 0, "", Some("a\n")))
  {
    assert Spaces(0) == "";
    assert ": a\n" == Spaces(0) + ([':', ' '] + "a\n");
    ReadLineMarked(0, ':', "a\n", 1);
  }

  lemma StringLineB()
    ensures ReadLine("  > b\n", 2) == Content(Line("  > b\n", 2, StringLine, 2, "", Some("b\n")))
  {
    assert Spaces(2) == "  ";
    assert "  > b\n" == Spaces(2) + (['>', ' '] + "b\n");
    ReadLineMarked(2, '>', "b\n", 2);
  }

  /** `: a` alone fails for want of a value, and with `  > b` below it is the field `a` with the
      value `b`: the line endings of the key and the string are gone. */
  lemma MultilineKey(onDup: string)
    ensures Parsing([": a\n"], onDup) == Err(Error(ExpectedValueAfterKey, None, None))
    ensures Parsing([": a\n", "  > b\n"], onDup) == Ok(Dct([("a", Str("b"))]))
  {
    var k := Line(": a\n", 1, ObjectKey, 0, "", Some("a\n"));
    var v := Line("  > b\n", 2, StringLine, 2, "", Some("b\n"));
    KeyLineA();
    StringLineB();
    var one := [Content(k)];
    ClassifyIs([": a\n"], one);
    KeyAloneItems(one, onDup);
    var two := [Content(k), Content(v)];
    ClassifyIs([": a\n", "  > b\n"], two);
    KeyWithValueItems(two, onDup);
  }

  lemma KeyAloneItems(items: seq<LineRead>, onDup: string)
    requires items == [Content(Line(": a\n", 1, ObjectKey, 0, "", Some("a\n")))]
    ensures Document(items, onDup) == Err(Error(ExpectedValueAfterKey, None, None))
  {
    JoinBlockLines(["a"], ["a\n"]);
    var c := Cursor(1, Some(items[0].line));
    assert NextContent(items, 0) == Ok(c);
    assert Step(items, c) == Ok((items[0].line, Cursor(1, None)));
    assert [] + [ValueText(items[0].line)] == ["a\n"];
    assert ObjectKeyAt(items, Cursor(1, None), 0, ["a\n"]) == Ok(("a", Cursor(1, None)));
    assert ObjectKeyAt(items, c, 0, []) == Ok(("a", Cursor(1, None)));
    KeyNeedsValue(items, c, 0, onDup, []);
  }

  lemma KeyWithValueItems(items: seq<LineRead>, onDup: string)
    requires items == [Content(Line(": a\n", 1, ObjectKey, 0, "", Some("a\n"))), Content(Line("  > b\n", 2, StringLine, 2, "", Some("b\n")))]
    ensures Document(items, onDup) == Ok(Dct([("a", Str("b"))]))
  {
    var c := Cursor(1, Some(items[0].line));
    var cv := Cursor(2, Some(items[1].line));
    var end := Cursor(2, None);
    assert NextContent(items, 0) == Ok(c);
    KeyWithValueKey(items);
    KeyWithValueValue(items, onDup);
    assert AddField([], "a", Str("b"), onDup, 1, 0) == Ok([("a", Str("b"))]);
    assert ObjectAt(items, end, 0, onDup, [("a", Str("b"))]) == Ok((Dct([("a", Str("b"))]), end));
    assert ObjectAt(items, c, 0, onDup, []) == Ok((Dct([("a", Str("b"))]), end));
    assert ValueAt(items, c, 0, onDup) == ObjectAt(items, c, 0, onDup, []);
  }

  /** The key line `: a` reads as the key `a`, leaving the string line held. */
  lemma KeyWithValueKey(items: seq<LineRead>)
    requires items == [Content(Line(": a\n", 1, ObjectKey, 0, "", Some("a\n"))), Content(Line("  > b\n", 2, StringLine, 2, "", Some("b\n")))]
    ensures KeyAt(items, Cursor(1, Some(items[0].line)), 0) == Ok(("a", Cursor(2, Some(items[1].line))))
  {
    JoinBlockLines(["a"], ["a\n"]);
    var c := Cursor(1, Some(items[0].line));
    var cv := Cursor(2, Some(items[1].line));
    assert Step(items, c) == Ok((items[0].line, cv));
    assert [] + [ValueText(items[0].line)] == ["a\n"];
    assert ObjectKeyAt(items, cv, 0, ["a\n"]) == Ok(("a", cv));
    assert ObjectKeyAt(items, c, 0, []) == Ok(("a", cv));
  }

  /** The string line below the key is its value `b`, and the input is used up. */
  lemma KeyWithValueValue(items: seq<LineRead>, onDup: string)
    requires items == [Content(Line(": a\n", 1, ObjectKey, 0, "", Some("a\n"))), Content(Line("  > b\n", 2, StringLine, 2, "", Some("b\n")))]
    ensures ItemValueAt(items, Cursor(2, Some(items[1].line)), 0, onDup, None, true) == Ok((Str("b"), Cursor(2, None)))
  {
    JoinBlockLines(["b"], ["b\n"]);
    var cv := Cursor(2, Some(items[1].line));
    var end := Cursor(2, None);
    assert Step(items, cv) == Ok((items[1].line, end));
    assert [] + [ValueText(items[1].line)] == ["b\n"];
    assert StringAt(items, end, 2, ["b\n"]) == Ok((Str("b"), end));
    assert StringAt(items, cv, 2, []) == Ok((Str("b"), end));
    assert ValueAt(items, cv, 2, onDup) == Ok((Str("b"), end));
  }

  /** `a: v` read at line `lineno`: an object item with the key `a` and the value `v`. */
  lemma FieldLineA(v: string, lineno: nat)
    requires v == "1" || v == "2"
    ensures ReadLine("a: " + v + "\n", lineno) == Content(Line("a: " + v + "\n", lineno, ObjectItem, 0, "a", Some(v)))
  {
    var key, ws, value := "a", "", Some(v);
    assert key + ws == "a" && !HasPair(key + ws, ':', ' ');
    assert Spaces(0) + (key + ws + ":" + (if value.Some? then " " + value.value else "") + "\n") == "a: " + v + "\n";
    ReadLineObjectItem(0, key, ws, value, "\n", lineno);
  }

  lemma FieldLineA1()
    ensures ReadLine("a: 1\n", 1) == Content(Line("a: 1\n", 1, ObjectItem, 0, "a", Some("1")))
  {
    assert "a: " + "1" + "\n" == "a: 1\n";
    FieldLineA("1", 1);
  }

  lemma FieldLineA2()
    ensures ReadLine("a: 2\n", 2) == Content(Line("a: 2\n", 2, ObjectItem, 0, "a", Some("2")))
  {
    assert "a: " + "2" + "\n" == "a: 2\n";
    FieldLineA("2", 2);
  }

  /** Two fields with the key `a`: "use_first" keeps the first value, "error" reports the second
      field's line and column, and "use_last", like any other policy, keeps the last value. */
  lemma DuplicateFields(onDup: string)
    ensures var r := Parsing(["a: 1\n", "a: 2\n"], onDup);
      (onDup == UseFirst ==> r == Ok(Dct([("a", Str("1"))])))
      && (onDup == RaiseOnDup ==> r == Err(Error(DuplicateKey, Some(2), Some(0))))
      && (onDup != UseFirst && onDup != RaiseOnDup ==> r == Ok(Dct([("a", Str("2"))])))
  {
    var raw := ["a: 1\n", "a: 2\n"];
    var items := [Content(Line("a: 1\n", 1, ObjectItem, 0, "a", Some("1"))), Content(Line("a: 2\n", 2, ObjectItem, 0, "a", Some("2")))];
    forall i | 0 <= i < |raw| ensures ReadLine(raw[i], i + 1) == items[i] {
      if i == 0 {
        FieldLineA1();
      } else {
        FieldLineA2();
      }
    }
    ClassifyIs(raw, items);
    DuplicateFieldsItems(items, onDup);
  }

  lemma DuplicateFieldsItems(items: seq<LineRead>, onDup: string)
    requires items == [Content(Line("a: 1\n", 1, ObjectItem, 0, "a", Some("1"))), Content(Line("a: 2\n", 2, ObjectItem, 0, "a", Some("2")))]
    ensures var r := Document(items, onDup);
      (onDup == UseFirst ==> r == Ok(Dct([("a", Str("1"))])))
      && (onDup == RaiseOnDup ==> r == Err(Error(DuplicateKey, Some(2), Some(0))))
      && (onDup != UseFirst && onDup != RaiseOnDup ==> r == Ok(Dct([("a", Str("2"))])))
  {
    DuplicateFirstField(items, onDup);
    if onDup == UseFirst {
      DuplicateKeepsFirst(items);
    } else if onDup == RaiseOnDup {
      DuplicateRaises(items);
    } else {
      DuplicateKeepsLast(items, onDup);
    }
  }

  /** After the first field the document is the object `{a: 1}` read on from the second line. */
  lemma DuplicateFirstField(items: seq<LineRead>, onDup: string)
    requires items == [Content(Line("a: 1\n", 1, ObjectItem, 0, "a", Some("1"))), Content(Line("a: 2\n", 2, ObjectItem, 0, "a", Some("2")))]
    ensures NextContent(items, 0) == Ok(Cursor(1, Some(items[0].line)))
    ensures ValueAt(items, Cursor(1, Some(items[0].line)), 0, onDup)
      == ObjectAt(items, Cursor(2, Some(items[1].line)), 0, onDup, [("a", Str("1"))])
  {
    var c1 := Cursor(1, Some(items[0].line));
    var c2 := Cursor(2, Some(items[1].line));
    assert NextContent(items, 0) == Ok(c1);
    assert KeyAt(items, c1, 0) == Ok(("a", c2));
    assert ItemValueAt(items, c2, 0, onDup, Some("1"), false) == Ok((Str("1"), c2));
    assert AddField([], "a", Str("1"), onDup, 1, 0) == Ok([("a", Str("1"))]);
    assert ObjectAt(items, c1, 0, onDup, []) == ObjectAt(items, c2, 0, onDup, [("a", Str("1"))]);
    assert ValueAt(items, c1, 0, onDup) == ObjectAt(items, c1, 0, onDup, []);
  }

  lemma DuplicateKeepsFirst(items: seq<LineRead>)
    requires items == [Content(Line("a: 1\n", 1, ObjectItem, 0, "a", Some("1"))), Content(Line("a: 2\n", 2, ObjectItem, 0, "a", Some("2")))]
    ensures ObjectAt(items, Cursor(2, Some(items[1].line)), 0, UseFirst, [("a", Str("1"))]) == Ok((Dct([("a", Str("1"))]), Cursor(2, None)))
  {
    var c2 := Cursor(2, Some(items[1].line));
    var end := Cursor(2, None);
    var first := [("a", Str("1"))];
    assert KeyAt(items, c2, 0) == Ok(("a", end));
    assert ItemValueAt(items, end, 0, UseFirst, Some("2"), false) == Ok((Str("2"), end));
    assert HasKey(first, "a");
    assert ObjectAt(items, end, 0, UseFirst, first) == Ok((Dct(first), end));
  }

  lemma DuplicateRaises(items: seq<LineRead>)
    requires items == [Content(Line("a: 1\n", 1, ObjectItem, 0, "a", Some("1"))), Content(Line("a: 2\n", 2, ObjectItem, 0, "a", Some("2")))]
    ensures ObjectAt(items, Cursor(2, Some(items[1].line)), 0, RaiseOnDup, [("a", Str("1"))]) == Err(Error(DuplicateKey, Some(2), Some(0)))
  {
    var c2 := Cursor(2, Some(items[1].line));
    var end := Cursor(2, None);
    var first := [("a", Str("1"))];
    assert KeyAt(items, c2, 0) == Ok(("a", end));
    assert ItemValueAt(items, end, 0, RaiseOnDup, Some("2"), false) == Ok((Str("2"), end));
    assert HasKey(first, "a");
    assert AddField(first, "a", Str("2"), RaiseOnDup, 2, 0) == Err(Error(DuplicateKey, Some(2), Some(0)));
  }

  lemma DuplicateKeepsLast(items: seq<LineRead>, onDup: string)
    requires items == [Content(Line("a: 1\n", 1, ObjectItem, 0, "a", Some("1"))), Content(Line("a: 2\n", 2, ObjectItem, 0, "a", Some("2")))]
    requires onDup != UseFirst && onDup != RaiseOnDup
    ensures ObjectAt(items, Cursor(2, Some(items[1].line)), 0, onDup, [("a", Str("1"))]) == Ok((Dct([("a", Str("2"))]), Cursor(2, None)))
  {
    var c2 := Cursor(2, Some(items[1].line));
    var end := Cursor(2, None);
    var first := [("a", Str("1"))];
    var last := [("a", Str("2"))];
    assert KeyAt(items, c2, 0) == Ok(("a", end));
    assert ItemValueAt(items, end, 0, onDup, Some("2"), false) == Ok((Str("2"), end));
    assert HasKey(first, "a");
    assert Put(first, "a", Str("2")) == last;
    assert AddField(first, "a", Str("2"), onDup, 2, 0) == Ok(last);
    assert ObjectAt(items, end, 0, onDup, last) == Ok((Dct(last), end));
  }

  /** The lines of the valid mixture of list items, nested list items, a string line, and
      object items with and without a value. */
  function MixtureText(): seq<string> {
    ["- list item\n", "-\n", "  - nested\n", "  -\n", "  > string\n", "  key1: val\n", "  key2 :\n"]
  }

  lemma MixtureFirstItem()
    ensures ReadLine("- list item\n", 1) == Content(Line("- list item\n", 1, ListItem, 0, "", Some("list item")))
  {
    var v := "list item";
    assert Spaces(0) + ("-" + (if v == "" then "" else " " + v) + "\n") == "- list item\n";
    ReadLineListItem(0, v, "\n", 1);
  }

  lemma MixtureNestedItem()
    ensures ReadLine("  - nested\n", 3) == Content(Line("  - nested\n", 3, ListItem, 2, "", Some("nested")))
  {
    assert Spaces(2) == "  ";
    var v := "nested";
    assert Spaces(2) + ("-" + (if v == "" then "" else " " + v) + "\n") == "  - nested\n";
    ReadLineListItem(2, v, "\n", 3);
  }

  lemma MixtureBareItems()
    ensures ReadLine("-\n", 2) == Content(Line("-\n", 2, ListItem, 0, "", None))
    ensures ReadLine("  -\n", 4) == Content(Line("  -\n", 4, ListItem, 2, "", None))
  {
    assert Spaces(0) == "" && Spaces(2) == "  ";
    assert "-\n" == Spaces(0) + ("-" + "" + "\n");
    ReadLineListItem(0, "", "\n", 2);
    assert "  -\n" == Spaces(2) + ("-" + "" + "\n");
    ReadLineListItem(2, "", "\n", 4);
  }

  lemma MixtureString()
    ensures ReadLine("  > string\n", 5) == Content(Line("  > string\n", 5, StringLine, 2, "", Some("string\n")))
  {
    assert Spaces(2) == "  ";
    assert "  > string\n" == Spaces(2) + (['>', ' '] + "string\n");
    ReadLineMarked(2, '>', "string\n", 5);
  }

  lemma MixtureField()
    ensures ReadLine("  key1: val\n", 6) == Content(Line("  key1: val\n", 6, ObjectItem, 2, "key1", Some("val")))
  {
    assert Spaces(2) == "  ";
    var key, ws, v := "key1", "", Some("val");
    assert key + ws == "key1" && !HasPair(key + ws, ':', ' ');
    assert Spaces(2) + (key + ws + ":" + (if v.Some? then " " + v.value else "") + "\n") == "  key1: val\n";
    ReadLineObjectItem(2, key, ws, v, "\n", 6);
  }

  /** Lines read one by one make up the generator's output. */
  lemma ClassifyIs(raw: seq<string>, items: seq<LineRead>)
    requires |raw| == |items| && forall i :: 0 <= i < |raw| ==> ReadLine(raw[i], i + 1) == items[i]
    ensures Classify(raw) == items
  {
  }

  /** What `_read_lines` makes of them: the list items keep their value without the line ending,
      the string line keeps its line ending, and the object items carry their key apart. */
  function MixtureItems(): seq<LineRead> {
    [Content(Line("- list item\n", 1, ListItem, 0, "", Some("list item"))),
     Content(Line("-\n", 2, ListItem, 0, "", None)),
     Content(Line("  - nested\n", 3, ListItem, 2, "", Some("nested"))),
     Content(Line("  -\n", 4, ListItem, 2, "", None)),
     Content(Line("  > string\n", 5, StringLine, 2, "", Some("string\n"))),
     Content(Line("  key1: val\n", 6, ObjectItem, 2, "key1", Some("val"))),
     Content(Line("  key2 :\n", 7, ObjectItem, 2, "key2", None))]
  }

  /** The test's mixture is read line by line as `MixtureItems` lists. */
  lemma MixtureLines(raw: seq<string>)
    requires raw == MixtureText()
    ensures Classify(raw) == MixtureItems()
  {
    forall i | 0 <= i < |raw| ensures ReadLine(raw[i], i + 1) == MixtureItems()[i] {
      MixtureLine(raw, i);
    }
    ClassifyIs(raw, MixtureItems());
  }

  /** Line `i` of the mixture. */
  lemma MixtureLine(raw: seq<string>, i: nat)
    requires raw == MixtureText() && i < |raw|
    ensures ReadLine(raw[i], i + 1) == MixtureItems()[i]
  {
    if i == 0 {
      MixtureFirstItem();
    } else if i == 1 || i == 3 {
      MixtureBareItems();
    } else if i == 2 {
      MixtureNestedItem();
    } else if i == 4 {
      MixtureString();
    } else if i == 5 {
      MixtureField();
    } else {
      ReadLineKeyWithoutValue();
    }
  }

  // ----------------------------------------------------------------------------------------
  // The parser as the source runs it, on a `LinesIter`

  /** A method's outcome is the one `spec` describes, the iterator left where `spec` says. */
  predicate Agrees<T(==)>(spec: Result<(T, Cursor), Error>, r: Result<T, Error>, c: Cursor) {
    match spec
    case Ok(vc) => r == Ok(vc.0) && c == vc.1
    case Err(e) => r == Err(e)
  }

  /** `_Parser`, which keeps the duplicate-field policy it was made with. */
  class Parser {
    const onDup: string

    constructor (onDup: string)
      ensures this.onDup == onDup
    {
      this.onDup := onDup;
    }

    /** `parse`: the lines read into a value, `None` (`Null`) for no content. */
    method Parse(raw: seq<string>) returns (r: Result<Value, Error>)
      ensures r == Parsing(raw, onDup)
    {
      var lines := new LinesIter(raw);
      var started := lines.Start();
      if started.Err? {
        return Err(started.error);
      }
      if lines.PeekNext().None? {
        return Ok(Null);
      }
      r := ReadValue(lines, 0);
    }

    method ReadValue(lines: LinesIter, depth: nat) returns (r: Result<Value, Error>)
      requires lines.Valid() && lines.nextLine.Some? && depth <= lines.nextLine.value.depth
      modifies lines
      ensures Agrees(ValueAt(lines.items, old(lines.Cur()), depth, onDup), r, lines.Cur())
      decreases Rank(lines.items, lines.Cur()), 1
    {
      match lines.PeekNext().value.kind
      case StringLine => r := ReadString(lines, depth);
      case ListItem => r := ReadList(lines, depth);
      case ObjectItem => r := ReadObject(lines, depth);
      case ObjectKey => r := ReadObject(lines, depth);
      case InlineContainer => r := ReadInlineContainer(lines);
    }

    method ReadInlineContainer(lines: LinesIter) returns (r: Result<Value, Error>)
      requires lines.Valid() && lines.nextLine.Some?
      modifies lines
      ensures Agrees(InlineAt(lines.items, old(lines.Cur())), r, lines.Cur())
    {
      var line :- lines.Next();
      return Ok(Null);
    }

    /** The value of the item just read, as `_read_list` and `_read_object` find it. */
    method ReadItemValue(lines: LinesIter, depth: nat, value: Option<string>, afterKey: bool) returns (r: Result<Value, Error>)
      requires lines.Valid()
      modifies lines
      ensures Agrees(ItemValueAt(lines.items, old(lines.Cur()), depth, onDup, value, afterKey), r, lines.Cur())
      decreases Rank(lines.items, lines.Cur()), 2
    {
      if value.Some? && value.value != "" {
        return Ok(Str(value.value));
      }
      var next := lines.PeekNext();
      if next.Some? && next.value.depth > depth {
        r := ReadValue(lines, next.value.depth);
      } else if afterKey {
        r := Err(Error(ExpectedValueAfterKey, None, None));
      } else {
        r := Ok(Str(""));
      }
    }

    method ReadList(lines: LinesIter, depth: nat) returns (r: Result<Value, Error>)
      requires lines.Valid()
      modifies lines
      ensures Agrees(ListAt(lines.items, old(lines.Cur()), depth, onDup, []), r, lines.Cur())
      decreases Rank(lines.items, lines.Cur()), 0
    {
      var data: seq<Value> := [];
      while lines.PeekNext().Some? && lines.PeekNext().value.depth >= depth
        invariant lines.Valid()
        invariant Pos(lines.Cur()) >= Pos(old(lines.Cur()))
        invariant ListAt(lines.items, old(lines.Cur()), depth, onDup, []) == ListAt(lines.items, lines.Cur(), depth, onDup, data)
        decreases Rank(lines.items, lines.Cur())
      {
        var line :- lines.Next();
        if line.depth != depth {
          return Err(Report(InvalidIndentation, line, Some(depth)));
        }
        if line.kind != ListItem {
          return Err(Report(ExpectedListItem, line, Some(depth)));
        }
        var value :- ReadItemValue(lines, depth, line.value, false);
        data := data + [value];
      }
      return Ok(Lst(data));
    }

    method ReadObject(lines: LinesIter, depth: nat) returns (r: Result<Value, Error>)
      requires lines.Valid()
      modifies lines
      ensures Agrees(ObjectAt(lines.items, old(lines.Cur()), depth, onDup, []), r, lines.Cur())
      decreases Rank(lines.items, lines.Cur()), 0
    {
      var data: Entries := [];
      while lines.PeekNext().Some? && lines.PeekNext().value.depth >= depth
        invariant lines.Valid() && UniqueKeys(data)
        invariant Pos(lines.Cur()) >= Pos(old(lines.Cur()))
        invariant ObjectAt(lines.items, old(lines.Cur()), depth, onDup, []) == ObjectAt(lines.items, lines.Cur(), depth, onDup, data)
        decreases Rank(lines.items, lines.Cur())
      {
        var line := lines.PeekNext().value;
        if line.depth != depth {
          return Err(Report(InvalidIndentation, line, Some(depth)));
        }
        var key: string;
        var value: Option<string>;
        if line.kind == ObjectItem {
          var taken :- lines.Next();
          key, value := line.key, line.value;
        } else if line.kind == ObjectKey {
          key :- ReadObjectKey(lines, depth);
          value := None;
        } else {
          return Err(Report(ExpectedObjectItem, line, Some(depth)));
        }
        var v :- ReadItemValue(lines, depth, value, line.kind == ObjectKey);
        if HasKey(data, key) {
          if onDup == UseFirst {
            continue;
          } else if onDup == RaiseOnDup {
            return Err(Report(DuplicateKey, line, Some(depth)));
          }
        }
        data := AddField(data, key, v, onDup, line.lineno, depth).value;
      }
      return Ok(Dct(data));
    }

    method ReadString(lines: LinesIter, depth: nat) returns (r: Result<Value, Error>)
      requires lines.Valid() && lines.nextLine.Some?
      requires lines.nextLine.value.kind == StringLine && lines.nextLine.value.depth >= depth
      modifies lines
      ensures Agrees(StringAt(lines.items, old(lines.Cur()), depth, []), r, lines.Cur())
    {
      var data: seq<string> := [];
      while lines.PeekNext().Some? && lines.PeekNext().value.kind == StringLine && lines.PeekNext().value.depth >= depth
        invariant lines.Valid()
        invariant data != [] || (lines.nextLine.Some? && lines.nextLine.value.kind == StringLine && lines.nextLine.value.depth >= depth)
        invariant StringAt(lines.items, old(lines.Cur()), depth, []) == StringAt(lines.items, lines.Cur(), depth, data)
        decreases Rank(lines.items, lines.Cur())
      {
        var line :- lines.Next();
        data := data + [ValueText(line)];
        if line.depth != depth {
          return Err(Report(InvalidIndentation, line, Some(depth)));
        }
      }
      data := data[|data| - 1 := RStripChars(data[|data| - 1], LineEnds)];
      return Ok(Str(Concat(data)));
    }

    method ReadObjectKey(lines: LinesIter, depth: nat) returns (r: Result<string, Error>)
      requires lines.Valid() && lines.nextLine.Some?
      requires lines.nextLine.value.kind == ObjectKey && lines.nextLine.value.depth == depth
      modifies lines
      ensures Agrees(ObjectKeyAt(lines.items, old(lines.Cur()), depth, []), r, lines.Cur())
    {
      var data: seq<string> := [];
      while lines.PeekNext().Some? && lines.PeekNext().value.kind == ObjectKey && lines.PeekNext().value.depth == depth
        invariant lines.Valid()
        invariant data != [] || (lines.nextLine.Some? && lines.nextLine.value.kind == ObjectKey && lines.nextLine.value.depth == depth)
        invariant ObjectKeyAt(lines.items, old(lines.Cur()), depth, []) == ObjectKeyAt(lines.items, lines.Cur(), depth, data)
        decreases Rank(lines.items, lines.Cur())
      {
        var line :- lines.Next();
        data := data + [ValueText(line)];
      }
      data := data[|data| - 1 := RStripChars(data[|data| - 1], LineEnds)];
      return Ok(Concat(data));
    }
  }

  /** `loads(content, on_dup=onDup)`. */
  method Loads(content: string, onDup: string) returns (r: Result<Value, Error>)
    ensures r == Loaded(content, onDup)
  {
    var parser := new Parser(onDup);
    r := parser.Parse(StreamLines(content));
  }

  // ----------------------------------------------------------------------------------------
  // The emitter's key check `_render_key`

  /** `_render_key` as written: a key holding a line break is refused, and so is every key that
      would need quoting, the quoting being unfinished; any other key is written as it is. */
  function RenderKeyAsWritten(s: string): (r: Result<string, Error>)
    ensures r.Ok? <==> '\n' !in s && !NeedsQuotes(s, StripSpaces(s))
    ensures r.Ok? ==> r.value == s
    ensures '\n' in s ==> r == Err(Error(KeyHasNewline, None, None))
    ensures r.Err? && '\n' !in s ==> r == Err(Error(CannotDisambiguateKey, None, None))
  {
    if '\n' in s then Err(Error(KeyHasNewline, None, None))
    else if NeedsQuotes(s, StripSpaces(s)) then Err(Error(CannotDisambiguateKey, None, None))
    else Ok(s)
  }

  /** The key `[a` passes the check, yet the line `[a: b` written with it reads back as an inline
      container, not as the field `[a`. */
  lemma RenderKeyAsWrittenAcceptsBracket()
    ensures RenderKeyAsWritten("[a") == Ok("[a")
    ensures ReadLine(AddPrefix("[a" + ":", "b") + "\n", 1) == Content(Line("[a: b\n", 1, InlineContainer, 0, "", Some("[a: b")))
  {
    BracketKeyPasses();
    assert AddPrefix("[a" + ":", "b") + "\n" == "[a: b\n";
    BracketLineIsInline();
  }

  lemma BracketKeyPasses()
    ensures RenderKeyAsWritten("[a") == Ok("[a")
  {
    var s := "[a";
    assert '\n' !in s;
    assert TrailingIn(s, {' '}) == 0 && RStripChars(s, {' '}) == s;
    assert LeadingChar(s, ' ') == 0 && StripSpaces(s) == s;
    assert !HasPair(s, ':', ' ') && !StartsWith(s, "- ") && !StartsWith(s, "> ");
    assert !NeedsQuotes(s, StripSpaces(s));
  }

  lemma BracketLineIsInline()
    ensures ReadLine("[a: b\n", 1) == Content(Line("[a: b\n", 1, InlineContainer, 0, "", Some("[a: b")))
  {
    var t, eol := "[a: b", "\n";
    var c := (InlineContainer, "", Some(t));
    RStripEnds(t, eol);
    assert t[0] == '[' && !Marked(t, '-') && !Marked(t, '>') && !Marked(t, ':');
    assert ReadContent(t, t + eol) == Some(c);
    assert Spaces(0) + (t + eol) == "[a: b\n";
    ReadIndented(0, t + eol, 1, c);
  }

  /** The keys that can be written bare and read back: besides passing the check above, they are
      not empty, neither start nor end with whitespace of any kind, and do not start like an
      inline container. */
  predicate BareKey(s: string) {
    s != "" && '\n' !in s && !NeedsQuotes(s, StripSpaces(s))
    && !IsSpace(s[0]) && !IsSpace(s[|s| - 1]) && s[0] != '[' && s[0] != '{'
  }

  /** `_render_key` with the check it evidently intends: a key it lets through is one the line
      reader gives back. */
  function RenderKey(s: string): (r: Result<string, Error>)
    ensures r.Ok? <==> BareKey(s)
    ensures r.Ok? ==> r.value == s
    ensures '\n' in s ==> r == Err(Error(KeyHasNewline, None, None))
    ensures r.Err? && '\n' !in s ==> r == Err(Error(CannotDisambiguateKey, None, None))
  {
    if '\n' in s then Err(Error(KeyHasNewline, None, None))
    else if !BareKey(s) then Err(Error(CannotDisambiguateKey, None, None))
    else Ok(s)
  }

  /** A key the corrected check accepts, followed by `:` and a one-line value by `_add_prefix`
      and indented by any number of spaces, reads back as an object item with that key and that
      value, `None` for an empty one. */
  lemma RenderedKeyReadsBack(s: string, n: nat, v: string, eol: string, lineno: nat)
    requires RenderKey(s).Ok?
    requires '\n' !in v && (v == "" || v[|v| - 1] !in LineEnds)
    requires forall i :: 0 <= i < |eol| ==> eol[i] in LineEnds
    ensures var line := Spaces(n) + (AddPrefix(RenderKey(s).value + ":", v) + eol);
      ReadLine(line, lineno) == Content(Line(line, lineno, ObjectItem, n, s, NonEmpty(v)))
  {
    var value := NonEmpty(v);
    assert s + "" == s;
    assert AddPrefix(s + ":", v) == s + "" + ":" + (if value.Some? then " " + value.value else "");
    ReadLineObjectItem(n, s, "", value, eol, lineno);
  }
}
