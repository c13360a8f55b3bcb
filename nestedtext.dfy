/** The complete NestedText implementation (`nestedtext.py`): a line classifier, a peekable
    iterator over the classified lines, the indentation-driven recursive-descent reader, and the
    emitter `dumps`. */
module NestedText {
  import opened Wrappers
  import opened PyText
  import opened Values

  // ----------------------------------------------------------------------------------------
  // Errors

  /** The failures the reader and the emitter report, one per message template. */
  datatype ErrorKind =
    | UnrecognizedLine
    | InvalidIndentChar(ch: char)
    | TopLevelColumn1
    | IndentAfterValue(whitespaceOnly: bool)
    | PartialDedent
    | InvalidIndentation
    | ExpectedListItem
    | ExpectedDictItem
    | DuplicateKey(key: string)
    | UnknownOnDup(policy: string)
    | KeyHasNewline
    | CannotDisambiguateKey
    | UnsupportedType
    | UndefinedName(name: string)
    | IndentNotPositive
    | StopIteration

  /** An error and the number of the line it was found on, when there is one. (`UnknownOnDup`
      is Python's plain `ValueError`, `UndefinedName` a `NameError` and `IndentNotPositive` the
      `AssertionError` of `dumps`.) */
  datatype Error = Error(kind: ErrorKind, lineno: Option<nat>)

  // ----------------------------------------------------------------------------------------
  // Lines

  datatype LineType = Blank | Comment | StringLine | ListLine | DictLine | Eof | Unrecognised

  predicate IsIgnorable(k: LineType) {
    k == Blank || k == Comment
  }

  /** What the indentation error message consults about the previous content line. */
  datatype PrevLine = PrevLine(kind: LineType, depth: nat, value: string)

  /** A classified line. Blank and comment lines have no depth and no key in the source; here
      they carry depth 0 and key "", which no reader looks at. */
  datatype Line = Line(text: string, lineno: nat, kind: LineType, depth: nat, key: string,
                       value: string, prev: Option<PrevLine>)

  /** The sentinel the line generator yields after the last line. */
  const EofLine := Line("", 0, Eof, 0, "", "", None)

  function Summary(l: Line): PrevLine {
    PrevLine(l.kind, l.depth, l.value)
  }


  // ----------------------------------------------------------------------------------------
  // The dict item recogniser `(["']?)(.*?)\1\s*:(?: (.*))?`, as a full match

  datatype DictMatch = DictMatch(quote: string, key: string, value: Option<string>)

  /** What a full match decomposes its subject into: the quote, the key, the quote again, and a
      `ColonTail` from there. */
  predicate Decomposes(s: string, m: DictMatch) {
    var p := 2 * |m.quote| + |m.key|;
    p <= |s| && s[..p] == m.quote + m.key + m.quote && '\n' !in m.key
    && ColonTail(s, p) == Some(m.value)
  }

  /** Where the lazy key ends: the first position from `b` on after which the rest of the
      pattern matches, the key growing one character at a time over any character but `\n`,
      which `.` does not match. The rest matches there, and at no earlier position tried. */
  function FirstClose(s: string, quote: string, b: nat): (r: Option<nat>)
    requires b <= |s|
    ensures r.Some? ==>
      b <= r.value <= |s| && ClosingTail(s, quote, r.value).Some?
      && (forall i :: b <= i < r.value ==> s[i] != '\n')
      && forall c :: b <= c < r.value ==> ClosingTail(s, quote, c).None?
    decreases |s| - b
  {
    if ClosingTail(s, quote, b).Some? then Some(b)
    else if b < |s| && s[b] != '\n' then
      FirstClose(s, quote, b + 1)
    else None
  }

  /** Conversely, a position the key can grow to after which the rest matches is found, so
      the first such position is the one the lazy key ends at. */
  lemma {:induction false} FirstCloseFinds(s: string, quote: string, b: nat, n: nat)
    requires b <= n <= |s| && (forall i :: b <= i < n ==> s[i] != '\n')
    requires ClosingTail(s, quote, n).Some?
    ensures FirstClose(s, quote, b).Some?
    decreases n - b
  {
    if ClosingTail(s, quote, b).None? {
      FirstCloseFinds(s, quote, b + 1, n);
    }
  }

  /** The lazy key with the quote group fixed to `quote`. */
  function MatchKey(s: string, quote: string): (r: Option<DictMatch>)
    requires |quote| <= |s| && s[..|quote|] == quote
    ensures r.Some? ==> r.value.quote == quote && Decomposes(s, r.value)
  {
    match FirstClose(s, quote, |quote|)
    case None => None
    case Some(e) =>
      ClosingTailDecomposes(s, quote, e);
      Some(DictMatch(quote, s[|quote|..e], ClosingTail(s, quote, e).value))
  }

  /** The key the lazy match finds is the first one after which the rest matches. */
  lemma MatchKeyFirst(s: string, quote: string, n: nat)
    requires |quote| <= n <= |s| && s[..|quote|] == quote && (forall i :: |quote| <= i < n ==> s[i] != '\n')
    requires forall b :: |quote| <= b < n ==> ClosingTail(s, quote, b).None?
    requires ClosingTail(s, quote, n).Some?
    ensures MatchKey(s, quote) == Some(DictMatch(quote, s[|quote|..n], ClosingTail(s, quote, n).value))
  {
    FirstCloseFinds(s, quote, |quote|, n);
    var e := FirstClose(s, quote, |quote|).value;
    assert e == n;
  }

  /** The rest of the pattern once the key has been taken up to `b`: the quote again, then the
      colon tail. */
  function ClosingTail(s: string, quote: string, b: nat): Option<Option<string>>
    requires b <= |s|
  {
    if b + |quote| <= |s| && s[b..b + |quote|] == quote then ColonTail(s, b + |quote|) else None
  }

  lemma ClosingTailDecomposes(s: string, quote: string, b: nat)
    requires |quote| <= b <= |s| && s[..|quote|] == quote && (forall i :: |quote| <= i < b ==> s[i] != '\n')
    requires ClosingTail(s, quote, b).Some?
    ensures Decomposes(s, DictMatch(quote, s[|quote|..b], ClosingTail(s, quote, b).value))
  {
    assert '\n' !in s[|quote|..b] by {
      forall i | 0 <= i < b - |quote| ensures s[|quote|..b][i] != '\n' {
        assert s[|quote|..b][i] == s[|quote| + i];
      }
    }
    assert s[..b + |quote|] == s[..|quote|] + s[|quote|..b] + s[b..b + |quote|];
  }

  /** `dict_item_recognizer.fullmatch(s)`: the greedy `["']?` first tries to take a leading
      quote, and falls back to no quote. */
  function MatchDictItem(s: string): Option<DictMatch> {
    var quoted := if |s| >= 1 && IsQuote(s[0]) then MatchKey(s, [s[0]]) else None;
    if quoted.Some? then quoted else MatchKey(s, "")
  }

  /** A match splits its subject into quote, key, the same quote and the colon tail, the quote
      being empty or the subject's own first character. */
  lemma MatchDictItemSound(s: string)
    ensures var r := MatchDictItem(s);
      r.Some? ==> (Decomposes(s, r.value)
        && (r.value.quote == "" || (|s| >= 1 && IsQuote(s[0]) && r.value.quote == [s[0]])))
  {
  }

  // ----------------------------------------------------------------------------------------
  // The line generator `_read_lines`

  /** The kind, key and value of a line whose `stripped` text is neither empty nor a comment.
      An unrecognised line's value is the whole line, which the caller fills in. */
  function ClassifyContent(stripped: string): (LineType, string, string) {
    if Marked(stripped, '-') then (ListLine, "", Drop(stripped, 2))
    else if Marked(stripped, '>') then (StringLine, "", Drop(stripped, 2))
    else match MatchDictItem(stripped)
      case Some(m) => (DictLine, m.key, m.value.GetOr(""))
      case None => (Unrecognised, "", "")
  }

  /** `-` alone or followed by a space makes a list item and `>` likewise a string line, the
      value being what follows the marker and its space; only then is the dict recogniser
      consulted, and a line it rejects is unrecognised. */
  lemma ClassifyContentSpec(stripped: string)
    ensures var r := ClassifyContent(stripped);
      (r.0 == ListLine <==> Marked(stripped, '-'))
      && (r.0 == StringLine <==> !Marked(stripped, '-') && Marked(stripped, '>'))
      && ((r.0 == ListLine || r.0 == StringLine) ==> r.1 == "" && r.2 == Drop(stripped, 2))
      && (r.0 == DictLine <==>
            !Marked(stripped, '-') && !Marked(stripped, '>') && MatchDictItem(stripped).Some?)
      && (r.0 == DictLine ==>
            r.1 == MatchDictItem(stripped).value.key && r.2 == MatchDictItem(stripped).value.value.GetOr(""))
      && (r.0 == Unrecognised <==>
            !Marked(stripped, '-') && !Marked(stripped, '>') && MatchDictItem(stripped).None?)
  {
  }

  /** One line classified (the body of the loop in `_read_lines`). Trailing newlines go; a
      content line's depth is its leading whitespace, and what follows is never empty. */
  function ClassifyLine(raw: string, lineno: nat, prev: Option<PrevLine>): (l: Line)
    ensures l.text == RStripChars(raw, {'\n'}) && l.lineno == lineno && l.prev == prev
    ensures l.kind != Eof
    ensures IsIgnorable(l.kind) ==> l.depth == 0 && l.key == ""
    ensures !IsIgnorable(l.kind) ==> l.depth == LeadingSpace(l.text) < |l.text|
  {
    var line := RStripChars(raw, {'\n'});
    var depth := LeadingSpace(line);
    var stripped := line[depth..];
    if stripped == "" then Line(line, lineno, Blank, 0, "", "", prev)
    else if stripped[0] == '#' then Line(line, lineno, Comment, 0, "", Strip(line[1..]), prev)
    else
      var c := ClassifyContent(stripped);
      Line(line, lineno, c.0, depth, c.1, if c.0 == Unrecognised then line else c.2, prev)
  }

  /** A line of whitespace is blank and one whose first non-space character is `#` is a
      comment, with the text after the line's first character, stripped, as its value; any
      other line's kind, key and value are those of its text after the indentation. */
  lemma ClassifyLineKinds(raw: string, lineno: nat, prev: Option<PrevLine>)
    ensures var l := ClassifyLine(raw, lineno, prev);
      (l.kind == Blank <==> AllSpace(l.text))
      && (l.kind == Comment <==> !AllSpace(l.text) && l.text[LeadingSpace(l.text)] == '#')
      && (l.kind == Comment ==> l.value == Strip(l.text[1..]))
      && (!IsIgnorable(l.kind) ==>
            var c := ClassifyContent(l.text[l.depth..]);
            l.kind == c.0 && l.key == c.1 && l.value == (if c.0 == Unrecognised then l.text else c.2))
  {
    LStripOfAllSpace(RStripChars(raw, {'\n'}));
  }

  /** The check `_read_lines` makes before it yields a content line: an indentation holding
      anything but spaces raises, naming the first offending character. */
  function IndentError(l: Line): (e: Option<Error>)
    requires l.depth <= |l.text|
    ensures e.None? <==> IsIgnorable(l.kind) || forall i :: 0 <= i < l.depth ==> l.text[i] == ' '
    ensures e.Some? ==>
      var i := LeadingChar(l.text, ' ');
      i < l.depth && l.text[i] != ' ' && e.value == Error(InvalidIndentChar(l.text[i]), Some(l.lineno))
  {
    var firstNonSpace := LeadingChar(l.text, ' ');
    if !IsIgnorable(l.kind) && firstNonSpace < l.depth then
      Some(Error(InvalidIndentChar(l.text[firstNonSpace]), Some(l.lineno)))
    else None
  }

  /** A rejected indentation character is whitespace other than a space, since the depth
      counts whitespace only. */
  lemma IndentErrorIsWhitespace(raw: string, lineno: nat, prev: Option<PrevLine>)
    ensures var l := ClassifyLine(raw, lineno, prev);
      IndentError(l).Some? ==> IsSpace(l.text[LeadingChar(l.text, ' ')])
  {
    LeadingSpaceAll(ClassifyLine(raw, lineno, prev).text);
  }

  /** The previous content line of line `j` (0-based): the last line before it that is neither
      blank nor a comment. */
  function LastContent(raw: seq<string>, j: nat): Option<PrevLine>
    requires j <= |raw|
  {
    if j == 0 then None
    else
      var l := ClassifyLine(raw[j - 1], j, None);
      if IsIgnorable(l.kind) then LastContent(raw, j - 1) else Some(Summary(l))
  }

  /** Line `i` of `raw` as `_read_lines` classifies it, numbered from 1. With `keepPrev`, its
      `prev_line` is its previous content line; without it, `prev_line` is `None`, which is
      what the source builds (it tracks `prev_line` but never stores it). */
  function LineAt(raw: seq<string>, keepPrev: bool, i: nat): Line
    requires i < |raw|
  {
    ClassifyLine(raw[i], i + 1, if keepPrev then LastContent(raw, i) else None)
  }

  /** The first `k` lines of `raw`, classified. */
  function Classified(raw: seq<string>, keepPrev: bool, k: nat): (r: seq<Line>)
    requires k <= |raw|
    ensures |r| == k
  {
    seq(k, i requires 0 <= i < k => LineAt(raw, keepPrev, i))
  }

  /** Classifying one more line appends it. */
  lemma ClassifiedSnoc(raw: seq<string>, keepPrev: bool, k: nat)
    requires k < |raw|
    ensures Classified(raw, keepPrev, k + 1) == Classified(raw, keepPrev, k) + [LineAt(raw, keepPrev, k)]
  {
    var a := Classified(raw, keepPrev, k + 1);
    var b := Classified(raw, keepPrev, k) + [LineAt(raw, keepPrev, k)];
    forall j | 0 <= j < k + 1 ensures a[j] == b[j] {
      if j < k {
        assert b[j] == Classified(raw, keepPrev, k)[j];
      }
    }
  }

  /** Everything the corrected `_read_lines` yields, the EOF sentinel last. The generator
      raises `IndentError` on a line just before it would yield it. */
  function Items(raw: seq<string>): (r: seq<Line>)
    ensures |r| == |raw| + 1 && r[|raw|] == EofLine
    ensures forall i :: 0 <= i < |raw| ==> r[i].lineno == i + 1 && r[i].prev == LastContent(raw, i)
  {
    var r := Classified(raw, true, |raw|) + [EofLine];
    assert forall i :: 0 <= i < |raw| ==> r[i] == LineAt(raw, true, i);
    r
  }

  /** Everything `_read_lines` yields as written. */
  function ItemsAsWritten(raw: seq<string>): (r: seq<Line>)
    ensures |r| == |raw| + 1 && r[|raw|] == EofLine
    ensures forall i :: 0 <= i < |raw| ==> r[i].lineno == i + 1 && r[i].prev.None?
  {
    var r := Classified(raw, false, |raw|) + [EofLine];
    assert forall i :: 0 <= i < |raw| ==> r[i] == LineAt(raw, false, i);
    r
  }

  /** Line `i` is `raw[i]` classified with line number `i + 1`. */
  lemma ItemsAt(raw: seq<string>, keepPrev: bool, i: nat)
    requires i < |raw|
    ensures (Classified(raw, keepPrev, |raw|) + [EofLine])[i]
      == ClassifyLine(raw[i], i + 1, if keepPrev then LastContent(raw, i) else None)
  {
    
  }

  /** Only the sentinel has kind EOF and it comes last; every depth lies within its text. */
  predicate Terminated(items: seq<Line>) {
    |items| >= 1 && items[|items| - 1] == EofLine
    && (forall i :: 0 <= i < |items| - 1 ==> items[i].kind != Eof)
    && forall i :: 0 <= i < |items| ==> items[i].depth <= |items[i].text|
  }

  lemma ItemsTerminated(raw: seq<string>, keepPrev: bool)
    ensures Terminated(Classified(raw, keepPrev, |raw|) + [EofLine])
  {
    var items := Classified(raw, keepPrev, |raw|) + [EofLine];
    forall i | 0 <= i < |items| - 1 ensures items[i].kind != Eof && items[i].depth <= |items[i].text| {
      ItemsAt(raw, keepPrev, i);
    }
  }

  /** The previous content line after line `k`, from the one before it. */
  lemma LastContentStep(raw: seq<string>, k: nat, prev: Option<PrevLine>)
    requires k < |raw| && prev == LastContent(raw, k)
    ensures LastContent(raw, k + 1) ==
      var line := ClassifyLine(raw[k], k + 1, prev);
      if IsIgnorable(line.kind) then prev else Some(Summary(line))
  {
    assert Summary(ClassifyLine(raw[k], k + 1, prev)) == Summary(ClassifyLine(raw[k], k + 1, None));
  }

  /** `_read_lines` run to the end: the loop that carries `prev_line` from line to line. */
  method ReadLines(raw: seq<string>) returns (items: seq<Line>)
    ensures items == Items(raw)
  {
    items := [];
    var prev: Option<PrevLine> := None;
    for k := 0 to |raw|
      invariant items == Classified(raw, true, k)
      invariant prev == LastContent(raw, k)
    {
      var line := ClassifyLine(raw[k], k + 1, prev);
      LastContentStep(raw, k, prev);
      assert line == LineAt(raw, true, k);
      ClassifiedSnoc(raw, true, k);
      items := items + [line];
      if !IsIgnorable(line.kind) {
        prev := Some(Summary(line));
      }
    }
    items := items + [EofLine];
  }

  // ----------------------------------------------------------------------------------------
  // The iterator `_LinesIter`

  /** The iterator's state: how many lines the generator has produced, and the line held for
      `peek_next`. */
  datatype Cursor = Cursor(gen: nat, next: Option<Line>)

  /** A held line is the last one produced, and never blank or a comment. */
  predicate CursorOk(items: seq<Line>, c: Cursor) {
    c.gen <= |items|
    && (c.next.Some? ==> 1 <= c.gen && items[c.gen - 1] == c.next.value && !IsIgnorable(c.next.value.kind))
  }

  /** The index of the held line, or of the next line the generator would produce. */
  function Pos(c: Cursor): nat {
    if c.next.Some? && c.gen >= 1 then c.gen - 1 else c.gen
  }

  function Rank(items: seq<Line>, c: Cursor): nat
    requires CursorOk(items, c)
  {
    |items| - Pos(c)
  }

  /** `_advance_to_next_content_line` with the generator at `gen`: blank and comment lines are
      skipped, the generator raises on a bad indentation, and `None` means it is exhausted. */
  function NextContent(items: seq<Line>, gen: nat): (r: Result<Cursor, Error>)
    requires Terminated(items) && gen <= |items|
    ensures r.Ok? ==> CursorOk(items, r.value) && Pos(r.value) >= gen
    ensures r.Ok? ==> forall i :: gen <= i < Pos(r.value) ==> IsIgnorable(items[i].kind)
    ensures r.Ok? ==> (r.value.next.None? <==> gen == |items|)
    ensures r.Ok? && r.value.next.Some? ==> IndentError(r.value.next.value).None?
    ensures r.Err? ==>
      exists i :: gen <= i < |items| && IndentError(items[i]) == Some(r.error)
        && forall j :: gen <= j < i ==> IsIgnorable(items[j].kind)
    decreases |items| - gen
  {
    if gen == |items| then Ok(Cursor(gen, None))
    else
      var l := items[gen];
      match IndentError(l)
      case Some(e) => Err(e)
      case None => if IsIgnorable(l.kind) then NextContent(items, gen + 1) else Ok(Cursor(gen + 1, Some(l)))
  }

  /** `__next__`: hand out the held line after advancing past it; raise `StopIteration` when
      nothing is held, and "unrecognized line" for an unrecognised one. */
  function Step(items: seq<Line>, c: Cursor): (r: Result<(Line, Cursor), Error>)
    requires Terminated(items) && CursorOk(items, c)
    ensures c.next.None? ==> r == Err(Error(StopIteration, None))
    ensures r.Ok? ==> Some(r.value.0) == c.next && r.value.0.kind != Unrecognised
    ensures r.Ok? ==> CursorOk(items, r.value.1) && Pos(r.value.1) > Pos(c)
    ensures r.Ok? ==> forall i :: Pos(c) < i < Pos(r.value.1) ==> IsIgnorable(items[i].kind)
    ensures r.Ok? ==> (r.value.1.next.Some? <==> r.value.0.kind != Eof)
    ensures c.next.Some? && c.next.value.kind == Unrecognised ==> r.Err?
  {
    if c.next.None? then Err(Error(StopIteration, None))
    else
      var held := c.next.value;
      var c' :- NextContent(items, c.gen);
      if held.kind == Unrecognised then Err(Error(UnrecognizedLine, Some(held.lineno)))
      else Ok((held, c'))
  }

  /** `_LinesIter`: the generator's output, how far the generator has got, and the line held
      for `peek_next`. */
  class LinesIter {
    const items: seq<Line>
    var gen: nat
    var nextLine: Option<Line>

    ghost predicate Valid()
      reads this
    {
      Terminated(items) && CursorOk(items, Cursor(gen, nextLine))
    }

    function Cur(): Cursor
      reads this
    {
      Cursor(gen, nextLine)
    }

    /** The first half of `__init__`: the generator over `raw`, not started yet. */
    constructor (raw: seq<string>)
      ensures items == Items(raw) && gen == 0 && nextLine == None && Valid()
    {
      var lines := ReadLines(raw);
      ItemsTerminated(raw, true);
      items := lines;
      gen := 0;
      nextLine := None;
    }

    /** `next(self._generator, None)`: the generator's next line, or the error it raises
        instead of yielding it. */
    method GenNext() returns (r: Result<Option<Line>, Error>)
      requires Terminated(items) && gen <= |items|
      modifies this`gen
      ensures old(gen) == |items| ==> gen == old(gen) && r == Ok(None)
      ensures old(gen) < |items| ==>
        gen == old(gen) + 1
        && r == match IndentError(items[old(gen)]) case Some(e) => Err(e) case None => Ok(Some(items[old(gen)]))
    {
      if gen == |items| {
        return Ok(None);
      }
      var l := items[gen];
      gen := gen + 1;
      match IndentError(l)
      case Some(e) => return Err(e);
      case None => return Ok(Some(l));
    }

    /** `_advance_to_next_content_line`. */
    method Advance() returns (r: Result<Option<Line>, Error>)
      requires Terminated(items) && gen <= |items|
      modifies this`gen
      ensures match NextContent(items, old(gen))
        case Ok(c) => r == Ok(c.next) && gen == c.gen
        case Err(e) => r == Err(e)
    {
      var item := GenNext();
      while item.Ok? && item.value.Some? && IsIgnorable(item.value.value.kind)
        invariant gen <= |items|
        invariant item.Ok? && item.value.Some? ==>
          1 <= gen && item.value.value == items[gen - 1] && IndentError(items[gen - 1]).None?
          && NextContent(items, old(gen)) == NextContent(items, gen - 1)
        invariant item.Ok? && item.value.None? ==>
          gen == |items| && NextContent(items, old(gen)) == Ok(Cursor(gen, None))
        invariant item.Err? ==> NextContent(items, old(gen)) == Err(item.error)
        decreases |items| - gen
      {
        item := GenNext();
      }
      r := item;
    }

    /** The second half of `__init__`: advance to the first content line. */
    method Start() returns (r: Result<(), Error>)
      requires Terminated(items) && gen == 0 && nextLine == None
      modifies this
      ensures match NextContent(items, 0)
        case Ok(c) => r == Ok(()) && Cur() == c
        case Err(e) => r == Err(e)
      ensures r.Ok? ==> Valid()
    {
      var first := Advance();
      if first.Err? {
        return Err(first.error);
      }
      nextLine := first.value;
      return Ok(());
    }

    function PeekNext(): Option<Line>
      reads this
    {
      nextLine
    }

    /** `__next__`. */
    method Next() returns (r: Result<Line, Error>)
      requires Valid()
      modifies this
      ensures match Step(items, old(Cur()))
        case Ok(lc) => r == Ok(lc.0) && Cur() == lc.1
        case Err(e) => r == Err(e)
      ensures r.Ok? ==> Valid()
    {
      if nextLine.None? {
        return Err(Error(StopIteration, None));
      }
      var held := nextLine.value;
      var adv := Advance();
      if adv.Err? {
        return Err(adv.error);
      }
      nextLine := adv.value;
      if held.kind == Unrecognised {
        return Err(Error(UnrecognizedLine, Some(held.lineno)));
      }
      return Ok(held);
    }
  }

  // ----------------------------------------------------------------------------------------
  // The reader: what `_read_value` and the functions it calls return, on cursors

  /** `_indentation_error` for `line`, found where a line at `depth` was expected. The message
      depends on the previous content line, which the corrected generator records. */
  function IndentationError(line: Line, depth: nat): (e: Error)
    ensures e.lineno == Some(line.lineno)
    ensures line.prev.None? ==> e.kind == (if depth == 0 then TopLevelColumn1 else InvalidIndentation)
    ensures e.kind == PartialDedent ==> line.prev.Some? && line.prev.value.depth > line.depth
  {
    var prev := line.prev;
    var kind :=
      if prev.None? && depth == 0 then TopLevelColumn1
      else if prev.Some? && prev.value.value != "" && prev.value.depth < line.depth
              && (prev.value.kind == ListLine || prev.value.kind == DictLine) then
        IndentAfterValue(Strip(prev.value.value) == "")
      else if prev.Some? && prev.value.depth > line.depth then PartialDedent
      else InvalidIndentation;
    Error(kind, Some(line.lineno))
  }

  /** A read that succeeded: the cursor is sound and has not moved back, and no `None` was
      produced. */
  predicate Parsed(items: seq<Line>, c: Cursor, vc: (Value, Cursor)) {
    CursorOk(items, vc.1) && Pos(vc.1) >= Pos(c) && NoNull(vc.0)
  }

  /** `_read_value`: dispatch on the kind of the held line. */
  function ValueAt(items: seq<Line>, c: Cursor, depth: nat, onDup: Option<string>): (r: Result<(Value, Cursor), Error>)
    requires Terminated(items) && CursorOk(items, c) && c.next.Some?
    ensures r.Ok? ==> Parsed(items, c, r.value)
    ensures r.Ok? && depth > 0 ==> r.value.1.next.Some?
    decreases Rank(items, c), 1
  {
    var kind := c.next.value.kind;
    if kind == ListLine then ListAt(items, c, depth, onDup, [])
    else if kind == DictLine then DictAt(items, c, depth, onDup, [])
    else if kind == StringLine then StringAt(items, c, depth, [])
    else
      var lc :- Step(items, c);
      Err(Error(UnrecognizedLine, Some(lc.0.lineno)))
  }

  /** The value of a list or dict item whose line has been read: its own text when it has any;
      otherwise the following block when that is indented deeper; otherwise "". */
  function ItemValueAt(items: seq<Line>, c: Cursor, depth: nat, onDup: Option<string>, text: string): (r: Result<(Value, Cursor), Error>)
    requires Terminated(items) && CursorOk(items, c) && c.next.Some?
    ensures r.Ok? ==> Parsed(items, c, r.value) && r.value.1.next.Some?
    ensures text != "" ==> r == Ok((Str(text), c))
    ensures text == "" && c.next.value.depth <= depth ==> r == Ok((Str(""), c))
    decreases Rank(items, c), 2
  {
    if text != "" then Ok((Str(text), c))
    else
      var next := c.next.value.depth;
      if next > depth then ValueAt(items, c, next, onDup) else Ok((Str(""), c))
  }

  /** `_read_list` from the held line, with `acc` the items read so far. The list ends at the
      first line shallower than `depth`, or at the end of the input. */
  function ListAt(items: seq<Line>, c: Cursor, depth: nat, onDup: Option<string>, acc: seq<Value>): (r: Result<(Value, Cursor), Error>)
    requires Terminated(items) && CursorOk(items, c) && c.next.Some?
    requires forall i :: 0 <= i < |acc| ==> NoNull(acc[i])
    ensures r.Ok? ==> Parsed(items, c, r.value) && r.value.0.Lst?
    ensures r.Ok? && depth > 0 ==> r.value.1.next.Some?
    ensures r.Ok? && r.value.1.next.Some? ==> r.value.1.next.value.depth < depth
    decreases Rank(items, c), 0
  {
    if c.next.value.depth < depth then Ok((Lst(acc), c))
    else
      var lc :- Step(items, c);
      var line := lc.0;
      if line.kind == Eof then Ok((Lst(acc), lc.1))
      else if line.depth != depth then Err(IndentationError(line, depth))
      else if line.kind != ListLine then Err(Error(ExpectedListItem, Some(line.lineno)))
      else
        var vc :- ItemValueAt(items, lc.1, depth, onDup, line.value);
        ListAt(items, vc.1, depth, onDup, acc + [vc.0])
  }

  /** One dict item stored under the duplicate-key policy `onDup`: a new key goes last; on a
      repeated key, `None` is an error, "ignore" keeps the first value, "replace" takes the
      new one in the old place, and any other policy is a `ValueError`. */
  function AddItem(acc: Entries, key: string, v: Value, onDup: Option<string>, lineno: nat): (r: Result<Entries, Error>)
    requires UniqueKeys(acc)
    ensures r.Ok? ==> UniqueKeys(r.value) && HasKey(r.value, key)
    ensures !HasKey(acc, key) ==> r == Ok(acc + [(key, v)])
    ensures HasKey(acc, key) && onDup.None? ==> r == Err(Error(DuplicateKey(key), Some(lineno)))
    ensures HasKey(acc, key) && onDup == Some("ignore") ==> r == Ok(acc)
    ensures HasKey(acc, key) && onDup == Some("replace") ==>
      r.Ok? && Keys(r.value) == Keys(acc) && Lookup(r.value, key) == Some(v)
      && forall k :: k != key ==> Lookup(r.value, k) == Lookup(acc, k)
    ensures HasKey(acc, key) && onDup.Some? && onDup.value != "ignore" && onDup.value != "replace" ==>
      r == Err(Error(UnknownOnDup(onDup.value), None))
  {
    if !HasKey(acc, key) then
      PutNew(acc, key, v);
      PutUnique(acc, key, v);
      Ok(Put(acc, key, v))
    else if onDup.None? then Err(Error(DuplicateKey(key), Some(lineno)))
    else if onDup.value == "ignore" then Ok(acc)
    else if onDup.value != "replace" then Err(Error(UnknownOnDup(onDup.value), None))
    else
      PutUnique(acc, key, v);
      assert forall k :: k != key ==> Lookup(Put(acc, key, v), k) == Lookup(acc, k) by {
        forall k | k != key ensures Lookup(Put(acc, key, v), k) == Lookup(acc, k) {
          PutOther(acc, key, v, k);
        }
      }
      Ok(Put(acc, key, v))
  }

  /** `_read_dict` from the held line, with `acc` the items stored so far. */
  function DictAt(items: seq<Line>, c: Cursor, depth: nat, onDup: Option<string>, acc: Entries): (r: Result<(Value, Cursor), Error>)
    requires Terminated(items) && CursorOk(items, c) && c.next.Some?
    requires UniqueKeys(acc) && forall i :: 0 <= i < |acc| ==> NoNull(acc[i].1)
    ensures r.Ok? ==> Parsed(items, c, r.value) && r.value.0.Dct? && UniqueKeys(r.value.0.entries)
    ensures r.Ok? ==> forall k :: HasKey(acc, k) ==> HasKey(r.value.0.entries, k)
    ensures r.Ok? && depth > 0 ==> r.value.1.next.Some?
    ensures r.Ok? && r.value.1.next.Some? ==> r.value.1.next.value.depth < depth
    decreases Rank(items, c), 0
  {
    if c.next.value.depth < depth then Ok((Dct(acc), c))
    else
      var lc :- Step(items, c);
      var line := lc.0;
      if line.kind == Eof then Ok((Dct(acc), lc.1))
      else if line.depth != depth then Err(IndentationError(line, depth))
      else if line.kind != DictLine then Err(Error(ExpectedDictItem, Some(line.lineno)))
      else
        var vc :- ItemValueAt(items, lc.1, depth, onDup, line.value);
        var acc' :- AddItem(acc, line.key, vc.0, onDup, line.lineno);
        AddItemKeeps(acc, line.key, vc.0, onDup, line.lineno);
        DictAt(items, vc.1, depth, onDup, acc')
  }

  /** A stored item keeps every key seen before and brings no `None`. */
  lemma AddItemKeeps(acc: Entries, key: string, v: Value, onDup: Option<string>, lineno: nat)
    requires UniqueKeys(acc) && NoNull(v) && forall i :: 0 <= i < |acc| ==> NoNull(acc[i].1)
    requires AddItem(acc, key, v, onDup, lineno).Ok?
    ensures var r := AddItem(acc, key, v, onDup, lineno).value;
      (forall k :: HasKey(acc, k) ==> HasKey(r, k)) && forall i :: 0 <= i < |r| ==> NoNull(r[i].1)
  {
    if !HasKey(acc, key) {
      AppendKeeps(acc, (key, v));
    } else if onDup == Some("replace") {
      PutNoNull(acc, key, v);
    }
  }

  lemma AppendKeeps(acc: Entries, e: (string, Value))
    ensures forall k :: HasKey(acc, k) ==> HasKey(acc + [e], k)
  {
    forall k | HasKey(acc, k) ensures HasKey(acc + [e], k) {
      var i :| 0 <= i < |acc| && Keys(acc)[i] == k;
      assert Keys(acc + [e])[i] == k;
    }
  }

  /** `_read_string` from the held line, with `acc` the values read so far: the string lines
      at `depth` that follow, joined with newlines. */
  function StringAt(items: seq<Line>, c: Cursor, depth: nat, acc: seq<string>): (r: Result<(Value, Cursor), Error>)
    requires Terminated(items) && CursorOk(items, c) && c.next.Some?
    ensures r.Ok? ==> Parsed(items, c, r.value) && r.value.0.Str? && r.value.1.next.Some?
    ensures r.Ok? ==> !(r.value.1.next.value.kind == StringLine && r.value.1.next.value.depth >= depth)
    ensures c.next.value.kind == StringLine && c.next.value.depth > depth ==> r.Err?
    decreases Rank(items, c), 0
  {
    var next := c.next.value;
    if next.kind == StringLine && next.depth >= depth then
      var lc :- Step(items, c);
      var line := lc.0;
      if line.depth != depth then Err(IndentationError(line, depth))
      else StringAt(items, lc.1, depth, acc + [line.value])
    else Ok((Str(Join("\n", acc)), c))
  }

  /** `_read_all` on the generator's output: `None` for a document with no content; otherwise
      the value at depth 0. */
  function Document(items: seq<Line>, onDup: Option<string>): (r: Result<Value, Error>)
    requires Terminated(items)
    ensures r.Ok? && r.value != Null ==> NoNull(r.value)
    ensures r == Ok(Null) ==> NextContent(items, 0).Ok? && NextContent(items, 0).value.next == Some(EofLine)
  {
    var c :- NextContent(items, 0);
    if c.next.value.kind == Eof then Ok(Null)
    else
      var vc :- ValueAt(items, c, 0, onDup);
      Ok(vc.0)
  }

  /** `_read_all` on a sequence of lines. */
  function Read(raw: seq<string>, onDup: Option<string>): (r: Result<Value, Error>)
    ensures raw == [] ==> r == Ok(Null)
    ensures r.Ok? && r.value != Null ==> NoNull(r.value)
  {
    ItemsTerminated(raw, true);
    Document(Items(raw), onDup)
  }

  /** `loads`: the document made of `content`'s lines. */
  function Loaded(content: string, onDup: Option<string>): (r: Result<Value, Error>)
    ensures content == "" ==> r == Ok(Null)
    ensures r.Ok? && r.value != Null ==> NoNull(r.value)
  {
    Read(SplitLines(content), onDup)
  }

  // ----------------------------------------------------------------------------------------
  // The reader as the source runs it, on a `LinesIter`

  /** A method's outcome is the one `spec` describes, the iterator left where `spec` says. */
  predicate Agrees(spec: Result<(Value, Cursor), Error>, r: Result<Value, Error>, c: Cursor) {
    match spec
    case Ok(vc) => r == Ok(vc.0) && c == vc.1
    case Err(e) => r == Err(e)
  }

  method ReadValue(lines: LinesIter, depth: nat, onDup: Option<string>) returns (r: Result<Value, Error>)
    requires lines.Valid() && lines.nextLine.Some?
    modifies lines
    ensures Agrees(ValueAt(lines.items, old(lines.Cur()), depth, onDup), r, lines.Cur())
    decreases Rank(lines.items, lines.Cur()), 1
  {
    var kind := lines.PeekNext().value.kind;
    if kind == ListLine {
      r := ReadList(lines, depth, onDup);
    } else if kind == DictLine {
      r := ReadDict(lines, depth, onDup);
    } else if kind == StringLine {
      r := ReadString(lines, depth);
    } else {
      var line :- lines.Next();
      r := Err(Error(UnrecognizedLine, Some(line.lineno)));
    }
  }

  /** The value of a list or dict item: its own text, or else the indented block below it,
      or else the empty string. */
  method ReadItemValue(lines: LinesIter, depth: nat, onDup: Option<string>, text: string) returns (r: Result<Value, Error>)
    requires lines.Valid() && lines.nextLine.Some?
    modifies lines
    ensures Agrees(ItemValueAt(lines.items, old(lines.Cur()), depth, onDup, text), r, lines.Cur())
    decreases Rank(lines.items, lines.Cur()), 2
  {
    if text != "" {
      return Ok(Str(text));
    }
    var next := lines.PeekNext().value.depth;
    if next > depth {
      r := ReadValue(lines, next, onDup);
    } else {
      r := Ok(Str(""));
    }
  }

  method ReadList(lines: LinesIter, depth: nat, onDup: Option<string>) returns (r: Result<Value, Error>)
    requires lines.Valid() && lines.nextLine.Some?
    modifies lines
    ensures Agrees(ListAt(lines.items, old(lines.Cur()), depth, onDup, []), r, lines.Cur())
    decreases Rank(lines.items, lines.Cur()), 0
  {
    var data: seq<Value> := [];
    while lines.PeekNext().value.depth >= depth
      invariant lines.Valid() && lines.nextLine.Some?
      invariant forall i :: 0 <= i < |data| ==> NoNull(data[i])
      invariant Pos(lines.Cur()) >= Pos(old(lines.Cur()))
      invariant ListAt(lines.items, old(lines.Cur()), depth, onDup, []) == ListAt(lines.items, lines.Cur(), depth, onDup, data)
      decreases Rank(lines.items, lines.Cur())
    {
      var line :- lines.Next();
      if line.kind == Eof {
        return Ok(Lst(data));
      }
      if line.depth != depth {
        return Err(IndentationError(line, depth));
      }
      if line.kind != ListLine {
        return Err(Error(ExpectedListItem, Some(line.lineno)));
      }
      var value :- ReadItemValue(lines, depth, onDup, line.value);
      data := data + [value];
    }
    return Ok(Lst(data));
  }

  method ReadDict(lines: LinesIter, depth: nat, onDup: Option<string>) returns (r: Result<Value, Error>)
    requires lines.Valid() && lines.nextLine.Some?
    modifies lines
    ensures Agrees(DictAt(lines.items, old(lines.Cur()), depth, onDup, []), r, lines.Cur())
    decreases Rank(lines.items, lines.Cur()), 0
  {
    var data: Entries := [];
    while lines.PeekNext().value.depth >= depth
      invariant lines.Valid() && lines.nextLine.Some?
      invariant UniqueKeys(data) && forall i :: 0 <= i < |data| ==> NoNull(data[i].1)
      invariant Pos(lines.Cur()) >= Pos(old(lines.Cur()))
      invariant DictAt(lines.items, old(lines.Cur()), depth, onDup, []) == DictAt(lines.items, lines.Cur(), depth, onDup, data)
      decreases Rank(lines.items, lines.Cur())
    {
      var line :- lines.Next();
      if line.kind == Eof {
        return Ok(Dct(data));
      }
      if line.depth != depth {
        return Err(IndentationError(line, depth));
      }
      if line.kind != DictLine {
        return Err(Error(ExpectedDictItem, Some(line.lineno)));
      }
      var value :- ReadItemValue(lines, depth, onDup, line.value);
      if HasKey(data, line.key) {
        if onDup.None? {
          return Err(Error(DuplicateKey(line.key), Some(line.lineno)));
        }
        if onDup.value == "ignore" {
          continue;
        }
        if onDup.value != "replace" {
          return Err(Error(UnknownOnDup(onDup.value), None));
        }
      }
      assert AddItem(data, line.key, value, onDup, line.lineno) == Ok(Put(data, line.key, value));
      AddItemKeeps(data, line.key, value, onDup, line.lineno);
      data := Put(data, line.key, value);
    }
    return Ok(Dct(data));
  }

  method ReadString(lines: LinesIter, depth: nat) returns (r: Result<Value, Error>)
    requires lines.Valid() && lines.nextLine.Some?
    modifies lines
    ensures Agrees(StringAt(lines.items, old(lines.Cur()), depth, []), r, lines.Cur())
  {
    var data: seq<string> := [];
    var next := lines.PeekNext().value;
    while next.kind == StringLine && next.depth >= depth
      invariant lines.Valid() && lines.nextLine == Some(next)
      invariant StringAt(lines.items, old(lines.Cur()), depth, []) == StringAt(lines.items, lines.Cur(), depth, data)
      decreases Rank(lines.items, lines.Cur())
    {
      var line :- lines.Next();
      data := data + [line.value];
      if line.depth != depth {
        return Err(IndentationError(line, depth));
      }
      next := lines.PeekNext().value;
    }
    return Ok(Str(Join("\n", data)));
  }

  /** `_read_all`, with a string or no `on_dup`. */
  method ReadAll(raw: seq<string>, onDup: Option<string>) returns (r: Result<Value, Error>)
    ensures r == Read(raw, onDup)
  {
    var lines := new LinesIter(raw);
    var started := lines.Start();
    if started.Err? {
      return Err(started.error);
    }
    if lines.PeekNext().value.kind == Eof {
      return Ok(Null);
    }
    r := ReadValue(lines, 0, onDup);
  }

  method Loads(content: string, onDup: Option<string>) returns (r: Result<Value, Error>)
    ensures r == Loaded(content, onDup)
  {
    r := ReadAll(SplitLines(content), onDup);
  }
}
