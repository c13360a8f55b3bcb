/** The reader's half of `loads(dumps(v)) == v`: the lines `dumps` writes for a value are read
    back, line by line, as that value. */
module ReadBack {
  import opened Wrappers
  import opened PyText
  import opened Values
  import opened NestedText
  import opened Layout
  import opened NestedTextDump
  import opened RoundTrip

  // ----------------------------------------------------------------------------------------
  // The reader's lines for rendered text

  /** The iterator holding line `p`. */
  function At(items: seq<Line>, p: nat): Cursor
    requires p < |items|
  {
    Cursor(p + 1, Some(items[p]))
  }

  /** A line the generator yields without raising and the iterator hands out. */
  predicate Content(l: Line) {
    !IsIgnorable(l.kind) && l.kind != Unrecognised && l.depth <= |l.text| && IndentError(l).None?
  }

  /** Line `i` is content. (Kept apart so that the facts about a line are drawn only for the
      lines a proof names.) */
  predicate ContentAt(items: seq<Line>, i: nat) {
    i < |items| && Content(items[i])
  }

  predicate AllContent(items: seq<Line>) {
    Terminated(items) && forall i :: 0 <= i < |items| ==> ContentAt(items, i)
  }

  /** Line `l` is the rendered line `r` indented `d` further. */
  predicate Matches(l: Line, r: RLine, d: nat) {
    l.kind == r.kind && l.depth == r.depth + d && l.key == r.key && l.value == r.value
  }

  /** The lines from `p` on are `ls` indented by `d`, and at least one line follows them. */
  predicate Agree(items: seq<Line>, p: nat, ls: seq<RLine>, d: nat) {
    p + |ls| < |items| && forall i :: 0 <= i < |ls| ==> MatchesAt(items, p, ls, d, i)
  }

  /** Line `p + i` is `ls[i]` indented by `d`. */
  predicate MatchesAt(items: seq<Line>, p: nat, ls: seq<RLine>, d: nat, i: nat) {
    p + i < |items| && i < |ls| && Matches(items[p + i], ls[i], d)
  }

  /** Line `q` ends a block at depth `d`: it is the end of the input or a shallower line. */
  predicate Closes(items: seq<Line>, q: nat, d: nat) {
    q < |items| && (items[q].kind == Eof || items[q].depth < d)
  }

  /** Line `q` ends an item at depth `d`: it is no deeper than the item. */
  predicate Follows(items: seq<Line>, q: nat, d: nat) {
    q < |items| && items[q].depth <= d
  }

  /** Where the iterator is left by a list or dict whose block is closed by line `e`: on that
      line, unless it is the end of the input at the block's depth, which is handed out. */
  function Exit(items: seq<Line>, e: nat, d: nat): Cursor
    requires e < |items|
  {
    if items[e].depth < d then At(items, e) else Cursor(|items|, None)
  }

  lemma AgreeSplit(items: seq<Line>, p: nat, a: seq<RLine>, b: seq<RLine>, d: nat)
    requires Agree(items, p, a + b, d)
    ensures Agree(items, p, a, d) && Agree(items, p + |a|, b, d)
  {
    forall i | 0 <= i < |a| ensures MatchesAt(items, p, a, d, i) {
      assert MatchesAt(items, p, a + b, d, i);
      assert (a + b)[i] == a[i];
    }
    var p' := p + |a|;
    forall i | 0 <= i < |b| ensures MatchesAt(items, p', b, d, i) {
      assert MatchesAt(items, p, a + b, d, |a| + i);
      assert (a + b)[|a| + i] == b[i];
    }
  }

  lemma AgreeShift(items: seq<Line>, p: nat, ls: seq<RLine>, n: nat, d: nat)
    requires Agree(items, p, Shift(ls, n), d)
    ensures Agree(items, p, ls, d + n)
  {
    var d' := d + n;
    forall i | 0 <= i < |ls| ensures MatchesAt(items, p, ls, d', i) {
      assert MatchesAt(items, p, Shift(ls, n), d, i);
    }
  }

  /** The end of the input is the last line, at depth 0. */
  lemma EofAt(items: seq<Line>, q: nat)
    requires AllContent(items) && q < |items| && items[q].kind == Eof
    ensures q == |items| - 1 && items[q].depth == 0
  {
  }

  /** Handing out line `p` moves the iterator to line `p + 1`. */
  lemma StepAt(items: seq<Line>, p: nat)
    requires AllContent(items) && p + 1 < |items|
    ensures CursorOk(items, At(items, p)) && Step(items, At(items, p)) == Ok((items[p], At(items, p + 1)))
  {
    assert ContentAt(items, p) && ContentAt(items, p + 1);
  }

  /** Handing out the last line leaves the iterator exhausted. */
  lemma StepLast(items: seq<Line>, p: nat)
    requires AllContent(items) && p + 1 == |items|
    ensures CursorOk(items, At(items, p)) && Step(items, At(items, p)) == Ok((items[p], Cursor(|items|, None)))
  {
    assert ContentAt(items, p);
  }

  lemma {:induction false} LeadingSpaceSpaces(n: nat, body: string)
    requires body != [] && !IsSpace(body[0])
    ensures LeadingSpace(Spaces(n) + body) == n
  {
    if n > 0 {
      assert (Spaces(n) + body)[1..] == Spaces(n - 1) + body;
      LeadingSpaceSpaces(n - 1, body);
    }
  }

  /** A good rendered line, indented, is classified as rendered and its indentation passes. */
  lemma ClassifyRendered(l: RLine, lineno: nat, prev: Option<PrevLine>)
    requires Good(l)
    ensures var c := ClassifyLine(Text(l), lineno, prev);
      Content(c) && c.kind == l.kind && c.depth == l.depth && c.key == l.key && c.value == l.value
  {
    TextParts(l);
    ClassifyIndented(Text(l), lineno, prev, l.depth, l.body, l.kind, l.key, l.value);
  }

  /** A line with no line break to strip, indented by `depth` spaces before a `body` that is
      not a comment and is classified as `kind`, is a content line of that kind. */
  lemma ClassifyIndented(raw: string, lineno: nat, prev: Option<PrevLine>, depth: nat, body: string,
                         kind: LineType, key: string, value: string)
    requires RStripChars(raw, {'\n'}) == raw && LeadingSpace(raw) == depth && depth <= |raw| && raw[depth..] == body
    requires forall i :: 0 <= i < depth ==> raw[i] == ' '
    requires body != "" && body[0] != '#'
    requires ClassifyContent(body) == (kind, key, value) && (kind == StringLine || kind == ListLine || kind == DictLine)
    ensures var c := ClassifyLine(raw, lineno, prev);
      Content(c) && c.kind == kind && c.depth == depth && c.key == key && c.value == value
  {
    var c := ClassifyLine(raw, lineno, prev);
    assert c == Line(raw, lineno, kind, depth, key, value, prev);
  }

  /** The text of a rendered line has no line break to strip, and its indentation is the line's
      depth, followed by its body. */
  lemma TextParts(l: RLine)
    requires l.body != "" && !IsSpace(l.body[0]) && NoLineBreak(l.body)
    ensures var s := Text(l);
      RStripChars(s, {'\n'}) == s && LeadingSpace(s) == l.depth && s[l.depth..] == l.body
      && forall i :: 0 <= i < l.depth ==> s[i] == ' '
  {
    var s := Text(l);
    assert s[|s| - 1] == l.body[|l.body| - 1];
    assert TrailingIn(s, {'\n'}) == 0;
    LeadingSpaceSpaces(l.depth, l.body);
    assert s[l.depth..] == l.body;
  }

  /** The reader's lines for the text of good rendered lines: those lines, as content, then
      the end of the input. */
  lemma ItemsOfRendered(ls: seq<RLine>)
    requires AllGood(ls)
    ensures var items := Items(TextsOf(ls));
      AllContent(items) && |items| == |ls| + 1 && Agree(items, 0, ls, 0) && items[|ls|] == EofLine
  {
    var raw := TextsOf(ls);
    var items := Items(raw);
    ItemsTerminated(raw, true);
    forall i | 0 <= i < |ls| ensures ContentAt(items, i) && MatchesAt(items, 0, ls, 0, i) {
      ItemsAt(raw, true, i);
      assert Good(ls[i]);
      ClassifyRendered(ls[i], i + 1, LastContent(raw, i));
    }
    assert items[|ls|] == EofLine;
    assert ContentAt(items, |ls|);
  }

  // ----------------------------------------------------------------------------------------
  // The layout of a value on the reader's lines

  /** How many lines `dumps` writes for `v`. */
  function Size(v: Value): nat
    decreases v, 2
  {
    match v
    case Str(t) => |Split(t, '\n')|
    case Lst(_) => ItemsSize(v, 0)
    case Dct(_) => EntriesSize(v, 0)
    case Null => 0
  }

  /** The lines of one list or dict item: its own line, and below it the value unless that is
      written inline. */
  function ItemSize(x: Value): nat
    decreases x, 3
  {
    if Inline(x) then 1 else 1 + Size(x)
  }

  function ItemsSize(parent: Value, j: nat): nat
    requires parent.Lst? && j <= |parent.items|
    decreases parent, 1, |parent.items| - j
  {
    if j == |parent.items| then 0 else ItemSize(parent.items[j]) + ItemsSize(parent, j + 1)
  }

  function EntriesSize(parent: Value, j: nat): nat
    requires parent.Dct? && j <= |parent.entries|
    decreases parent, 1, |parent.entries| - j
  {
    if j == |parent.entries| then 0 else ItemSize(parent.entries[j].1) + EntriesSize(parent, j + 1)
  }

  /** Line `q` has the kind, depth, key and value given. */
  predicate LineIs(items: seq<Line>, q: nat, kind: LineType, d: nat, key: string, value: string) {
    q < |items| && items[q].kind == kind && items[q].depth == d && items[q].key == key && items[q].value == value
  }

  /** Line `p + i` is the string line for part `i`. */
  predicate PartAt(items: seq<Line>, p: nat, parts: seq<string>, d: nat, i: nat) {
    i < |parts| && LineIs(items, p + i, StringLine, d, "", parts[i])
  }

  /** The lines from `p` on are a value written at depth `d`, as the reader sees them: for a
      string one string line per part, for a list or dict one item after another. */
  predicate Laid(items: seq<Line>, p: nat, v: Value, d: nat, indent: nat)
    decreases v, 2
  {
    match v
    case Str(t) => forall i :: 0 <= i < |Split(t, '\n')| ==> PartAt(items, p, Split(t, '\n'), d, i)
    case Lst(_) => ItemsLaid(items, p, v, 0, d, indent)
    case Dct(_) => EntriesLaid(items, p, v, 0, d, indent)
    case Null => false
  }

  /** Line `p` is an item of kind `kind` holding `x`: with `x`'s text when `x` is inline and
      none otherwise, and then `x` one indentation deeper. */
  predicate ItemLaid(items: seq<Line>, p: nat, kind: LineType, key: string, x: Value, d: nat, indent: nat)
    decreases x, 3
  {
    LineIs(items, p, kind, d, key, if Inline(x) then x.text else "")
    && (!Inline(x) ==> Laid(items, p + 1, x, d + indent, indent))
  }

  predicate ItemsLaid(items: seq<Line>, p: nat, parent: Value, j: nat, d: nat, indent: nat)
    requires parent.Lst? && j <= |parent.items|
    decreases parent, 1, |parent.items| - j
  {
    j == |parent.items|
    || (ItemLaid(items, p, ListLine, "", parent.items[j], d, indent)
        && ItemsLaid(items, p + ItemSize(parent.items[j]), parent, j + 1, d, indent))
  }

  predicate EntriesLaid(items: seq<Line>, p: nat, parent: Value, j: nat, d: nat, indent: nat)
    requires parent.Dct? && j <= |parent.entries|
    decreases parent, 1, |parent.entries| - j
  {
    j == |parent.entries|
    || (ItemLaid(items, p, DictLine, parent.entries[j].0, parent.entries[j].1, d, indent)
        && EntriesLaid(items, p + ItemSize(parent.entries[j].1), parent, j + 1, d, indent))
  }

  // ----------------------------------------------------------------------------------------
  // The rendered lines are the layout

  /** The first line of an item: at the item's depth, of its kind, with the item's text when
      the item is inline and none otherwise. */
  lemma ChunkHead(prefix: string, kind: LineType, key: string, x: Value, block: seq<RLine>, indent: nat)
    ensures var chunk := ItemChunk(prefix, kind, key, x, block, indent);
      |chunk| >= 1 && chunk[0].depth == 0 && chunk[0].kind == kind && chunk[0].key == key
      && chunk[0].value == (if Inline(x) then x.text else "")
      && (Inline(x) ==> |chunk| == 1)
      && (!Inline(x) ==> chunk == [chunk[0]] + Shift(block, indent))
  {
  }

  /** Lines that agree with `v`'s rendered lines hold `v` laid out, on `Size(v)` lines. */
  lemma {:induction false} RenderLaid(items: seq<Line>, p: nat, v: Value, d: nat, indent: nat)
    requires Representable(v) && Agree(items, p, Render(v, indent), d)
    ensures Laid(items, p, v, d, indent) && |Render(v, indent)| == Size(v)
    decreases v, 2
  {
    match v
    case Str(t) =>
      forall i | 0 <= i < |Split(t, '\n')| ensures PartAt(items, p, Split(t, '\n'), d, i) {
        assert MatchesAt(items, p, StringLines(Split(t, '\n')), d, i);
      }
    case Lst(_) =>
      ItemsRenderLaid(items, p, v, 0, d, indent);
    case Dct(_) =>
      EntriesRenderLaid(items, p, v, 0, d, indent);
  }

  lemma {:induction false} ChunkLaid(items: seq<Line>, p: nat, prefix: string, kind: LineType, key: string,
                                     x: Value, d: nat, indent: nat)
    requires Representable(x) && Agree(items, p, ItemChunk(prefix, kind, key, x, Render(x, indent), indent), d)
    ensures ItemLaid(items, p, kind, key, x, d, indent)
      && |ItemChunk(prefix, kind, key, x, Render(x, indent), indent)| == ItemSize(x)
    decreases x, 3, 1
  {
    if Inline(x) {
      var chunk := ItemChunk(prefix, kind, key, x, Render(x, indent), indent);
      ChunkHead(prefix, kind, key, x, Render(x, indent), indent);
      assert MatchesAt(items, p, chunk, d, 0);
    } else {
      BlockChunkLaid(items, p, prefix, kind, key, x, d, indent);
    }
  }

  /** The same for an item whose value is a block below its own line. */
  lemma BlockChunkLaid(items: seq<Line>, p: nat, prefix: string, kind: LineType, key: string,
                       x: Value, d: nat, indent: nat)
    requires Representable(x) && !Inline(x) && Agree(items, p, ItemChunk(prefix, kind, key, x, Render(x, indent), indent), d)
    ensures ItemLaid(items, p, kind, key, x, d, indent)
      && |ItemChunk(prefix, kind, key, x, Render(x, indent), indent)| == ItemSize(x)
    decreases x, 3, 0
  {
    var block := Render(x, indent);
    var chunk := ItemChunk(prefix, kind, key, x, block, indent);
    ChunkHead(prefix, kind, key, x, block, indent);
    assert MatchesAt(items, p, chunk, d, 0);
    AgreeSplit(items, p, [chunk[0]], Shift(block, indent), d);
    AgreeShift(items, p + 1, block, indent, d);
    RenderLaid(items, p + 1, x, d + indent, indent);
  }

  /** Lines that agree with an item's chunk followed by more lines hold the item laid out,
      and the lines after the chunk agree with the rest. */
  lemma ChunkSplitLaid(items: seq<Line>, p: nat, q: nat, prefix: string, kind: LineType, key: string, x: Value,
                       rest: seq<RLine>, d: nat, indent: nat)
    requires Representable(x) && Agree(items, p, ItemChunk(prefix, kind, key, x, Render(x, indent), indent) + rest, d)
    requires q == p + ItemSize(x)
    ensures ItemLaid(items, p, kind, key, x, d, indent) && Agree(items, q, rest, d)
      && |ItemChunk(prefix, kind, key, x, Render(x, indent), indent)| == ItemSize(x)
    decreases x, 4
  {
    AgreeSplit(items, p, ItemChunk(prefix, kind, key, x, Render(x, indent), indent), rest, d);
    ChunkLaid(items, p, prefix, kind, key, x, d, indent);
  }

  /** One item of a list's rendered lines: its chunk is laid out, and the lines after it agree
      with the remaining items' lines. */
  lemma ItemChunkLaid(items: seq<Line>, p: nat, q: nat, parent: Value, j: nat, d: nat, indent: nat)
    requires parent.Lst? && Representable(parent) && j < |parent.items|
    requires Agree(items, p, ItemsLines(parent, j, indent), d) && q == p + ItemSize(parent.items[j])
    ensures ItemLaid(items, p, ListLine, "", parent.items[j], d, indent)
    ensures Agree(items, q, ItemsLines(parent, j + 1, indent), d)
    ensures |ItemsLines(parent, j, indent)| == ItemSize(parent.items[j]) + |ItemsLines(parent, j + 1, indent)|
    decreases parent, 0
  {
    ItemsLinesStep(parent, j, indent);
    assert Representable(parent.items[j]);
    ChunkSplitLaid(items, p, q, "-", ListLine, "", parent.items[j],
                   ItemsLines(parent, j + 1, indent), d, indent);
  }

  lemma {:induction false} ItemsRenderLaid(items: seq<Line>, p: nat, parent: Value, j: nat, d: nat, indent: nat)
    requires parent.Lst? && Representable(parent) && j <= |parent.items|
    requires Agree(items, p, ItemsLines(parent, j, indent), d)
    ensures ItemsLaid(items, p, parent, j, d, indent) && |ItemsLines(parent, j, indent)| == ItemsSize(parent, j)
    decreases parent, 1, |parent.items| - j
  {
    if j < |parent.items| {
      var q := p + ItemSize(parent.items[j]);
      ItemChunkLaid(items, p, q, parent, j, d, indent);
      ItemsRenderLaid(items, q, parent, j + 1, d, indent);
      ItemsLaidStep(items, p, q, parent, j, d, indent);
    }
  }

  /** An item laid out at `p` followed by the remaining items laid out at `q`, where the item ends. */
  lemma ItemsLaidStep(items: seq<Line>, p: nat, q: nat, parent: Value, j: nat, d: nat, indent: nat)
    requires parent.Lst? && j < |parent.items| && q == p + ItemSize(parent.items[j])
    requires ItemLaid(items, p, ListLine, "", parent.items[j], d, indent)
    requires ItemsLaid(items, q, parent, j + 1, d, indent)
    ensures ItemsLaid(items, p, parent, j, d, indent)
    ensures ItemsSize(parent, j) == ItemSize(parent.items[j]) + ItemsSize(parent, j + 1)
  {
  }

  /** One entry of a dict's rendered lines: its chunk is laid out, and the lines after it agree
      with the remaining entries' lines. */
  lemma EntryChunkLaid(items: seq<Line>, p: nat, q: nat, parent: Value, j: nat, d: nat, indent: nat)
    requires parent.Dct? && Representable(parent) && j < |parent.entries|
    requires Agree(items, p, EntriesLines(parent, j, indent), d) && q == p + ItemSize(parent.entries[j].1)
    ensures ItemLaid(items, p, DictLine, parent.entries[j].0, parent.entries[j].1, d, indent)
    ensures Agree(items, q, EntriesLines(parent, j + 1, indent), d)
    ensures |EntriesLines(parent, j, indent)| == ItemSize(parent.entries[j].1) + |EntriesLines(parent, j + 1, indent)|
    decreases parent, 0
  {
    EntriesLinesStep(parent, j, indent);
    EntryRepresentable(parent, j);
    ChunkSplitLaid(items, p, q, KeyText(parent.entries[j].0) + ":", DictLine,
                   parent.entries[j].0, parent.entries[j].1, EntriesLines(parent, j + 1, indent), d, indent);
  }

  lemma {:induction false} EntriesRenderLaid(items: seq<Line>, p: nat, parent: Value, j: nat, d: nat, indent: nat)
    requires parent.Dct? && Representable(parent) && j <= |parent.entries|
    requires Agree(items, p, EntriesLines(parent, j, indent), d)
    ensures EntriesLaid(items, p, parent, j, d, indent) && |EntriesLines(parent, j, indent)| == EntriesSize(parent, j)
    decreases parent, 1, |parent.entries| - j
  {
    if j < |parent.entries| {
      var q := p + ItemSize(parent.entries[j].1);
      EntryChunkLaid(items, p, q, parent, j, d, indent);
      EntriesRenderLaid(items, q, parent, j + 1, d, indent);
      EntriesLaidStep(items, p, q, parent, j, d, indent);
    }
  }

  /** An entry laid out at `p` followed by the remaining entries laid out at `q`, where the entry
      ends. */
  lemma EntriesLaidStep(items: seq<Line>, p: nat, q: nat, parent: Value, j: nat, d: nat, indent: nat)
    requires parent.Dct? && j < |parent.entries| && q == p + ItemSize(parent.entries[j].1)
    requires ItemLaid(items, p, DictLine, parent.entries[j].0, parent.entries[j].1, d, indent)
    requires EntriesLaid(items, q, parent, j + 1, d, indent)
    ensures EntriesLaid(items, p, parent, j, d, indent)
    ensures EntriesSize(parent, j) == ItemSize(parent.entries[j].1) + EntriesSize(parent, j + 1)
  {
  }

  // ----------------------------------------------------------------------------------------
  // The reader's steps

  /** A laid-out value starts with a line at its depth that says what kind of value it is. */
  lemma LaidHead(items: seq<Line>, p: nat, v: Value, d: nat, indent: nat)
    requires Representable(v) && Laid(items, p, v, d, indent)
    ensures p < |items| && items[p].depth == d && Size(v) >= 1
      && items[p].kind == (if v.Str? then StringLine else if v.Lst? then ListLine else DictLine)
  {
    match v
    case Str(t) =>
      assert PartAt(items, p, Split(t, '\n'), d, 0);
    case Lst(xs) =>
      assert ItemLaid(items, p, ListLine, "", xs[0], d, indent);
    case Dct(es) =>
      assert ItemLaid(items, p, DictLine, es[0].0, es[0].1, d, indent);
  }

  /** `_read_value` dispatches on the kind of the held line. */
  lemma ValueDispatch(items: seq<Line>, p: nat, d: nat, onDup: Option<string>)
    requires AllContent(items) && p < |items|
    ensures var c := At(items, p);
      CursorOk(items, c)
      && (items[p].kind == StringLine ==> ValueAt(items, c, d, onDup) == StringAt(items, c, d, []))
      && (items[p].kind == ListLine ==> ValueAt(items, c, d, onDup) == ListAt(items, c, d, onDup, []))
      && (items[p].kind == DictLine ==> ValueAt(items, c, d, onDup) == DictAt(items, c, d, onDup, []))
  {
    assert ContentAt(items, p);
  }

  /** A string line at the string's depth is taken and the string goes on. */
  lemma StringNext(items: seq<Line>, p: nat, d: nat, acc: seq<string>)
    requires AllContent(items) && p + 1 < |items|
    requires items[p].kind == StringLine && items[p].depth == d
    ensures CursorOk(items, At(items, p)) && CursorOk(items, At(items, p + 1))
    ensures StringAt(items, At(items, p), d, acc) == StringAt(items, At(items, p + 1), d, acc + [items[p].value])
  {
    StepAt(items, p);
  }

  /** A line that closes the string ends it, and the iterator stays on that line. */
  lemma StringEnd(items: seq<Line>, p: nat, d: nat, acc: seq<string>)
    requires AllContent(items) && Closes(items, p, d)
    ensures CursorOk(items, At(items, p))
    ensures StringAt(items, At(items, p), d, acc) == Ok((Str(Join("\n", acc)), At(items, p)))
  {
    assert ContentAt(items, p);
  }

  /** A list item at the list's depth is taken with its value and the list goes on. */
  lemma ListNext(items: seq<Line>, p: nat, q: nat, d: nat, onDup: Option<string>, acc: seq<Value>, x: Value)
    requires AllContent(items) && p + 1 < |items| && q < |items|
    requires items[p].kind == ListLine && items[p].depth == d
    requires NoNull(x) && forall i :: 0 <= i < |acc| ==> NoNull(acc[i])
    requires CursorOk(items, At(items, p + 1))
    requires ItemValueAt(items, At(items, p + 1), d, onDup, items[p].value) == Ok((x, At(items, q)))
    ensures CursorOk(items, At(items, p)) && CursorOk(items, At(items, q))
    ensures var acc' := acc + [x];
      (forall i :: 0 <= i < |acc'| ==> NoNull(acc'[i]))
      && ListAt(items, At(items, p), d, onDup, acc) == ListAt(items, At(items, q), d, onDup, acc')
  {
    StepAt(items, p);
    assert ContentAt(items, q);
  }

  /** A line that closes the list ends it; the iterator stays on that line unless it is the
      end of the input at depth 0. */
  lemma ListEnd(items: seq<Line>, p: nat, d: nat, onDup: Option<string>, acc: seq<Value>)
    requires AllContent(items) && Closes(items, p, d)
    requires forall i :: 0 <= i < |acc| ==> NoNull(acc[i])
    ensures CursorOk(items, At(items, p))
    ensures ListAt(items, At(items, p), d, onDup, acc) == Ok((Lst(acc), Exit(items, p, d)))
  {
    assert ContentAt(items, p);
    if items[p].depth >= d {
      EofAt(items, p);
      StepLast(items, p);
    }
  }

  /** Storing a new key last keeps the keys unique and brings no `None`. */
  lemma ExtendEntries(acc: Entries, k: string, x: Value)
    requires !HasKey(acc, k) && NoNull(x) && UniqueKeys(acc) && forall i :: 0 <= i < |acc| ==> NoNull(acc[i].1)
    ensures var acc' := acc + [(k, x)];
      UniqueKeys(acc') && forall i :: 0 <= i < |acc'| ==> NoNull(acc'[i].1)
  {
    var acc' := acc + [(k, x)];
    forall i | 0 <= i < |acc| ensures acc[i].0 != k {
      assert Keys(acc)[i] == acc[i].0;
    }
  }

  /** A dict item at the dict's depth with a new key is stored last and the dict goes on. */
  lemma DictNext(items: seq<Line>, p: nat, q: nat, d: nat, onDup: Option<string>, acc: Entries, x: Value)
    requires Terminated(items) && p + 1 < |items| && q < |items|
    requires ContentAt(items, p) && ContentAt(items, p + 1) && ContentAt(items, q)
    requires items[p].kind == DictLine && items[p].depth == d && !HasKey(acc, items[p].key)
    requires NoNull(x) && UniqueKeys(acc) && forall i :: 0 <= i < |acc| ==> NoNull(acc[i].1)
    requires UniqueKeys(acc + [(items[p].key, x)])
    requires forall i :: 0 <= i < |acc| + 1 ==> NoNull((acc + [(items[p].key, x)])[i].1)
    requires ItemValueAt(items, At(items, p + 1), d, onDup, items[p].value) == Ok((x, At(items, q)))
    ensures CursorOk(items, At(items, p))
    ensures DictAt(items, At(items, p), d, onDup, acc)
      == DictAt(items, At(items, q), d, onDup, acc + [(items[p].key, x)])
  {
    var l := items[p];
    assert Step(items, At(items, p)) == Ok((l, At(items, p + 1)));
    assert AddItem(acc, l.key, x, onDup, l.lineno) == Ok(acc + [(l.key, x)]);
  }

  /** A line that closes the dict ends it, as for a list. */
  lemma DictEnd(items: seq<Line>, p: nat, d: nat, onDup: Option<string>, acc: Entries)
    requires AllContent(items) && Closes(items, p, d)
    requires UniqueKeys(acc) && forall i :: 0 <= i < |acc| ==> NoNull(acc[i].1)
    ensures CursorOk(items, At(items, p))
    ensures DictAt(items, At(items, p), d, onDup, acc) == Ok((Dct(acc), Exit(items, p, d)))
  {
    assert ContentAt(items, p);
    if items[p].depth >= d {
      EofAt(items, p);
      StepLast(items, p);
    }
  }

  lemma SnocPrefix<T>(s: seq<T>, j: nat)
    requires j < |s|
    ensures s[..j] + [s[j]] == s[..j + 1]
  {
  }

  lemma EmptyPrefix<T>(s: seq<T>)
    ensures s[..0] == []
  {
  }

  lemma WholePrefix<T>(s: seq<T>, j: nat)
    requires j == |s|
    ensures s[..j] == s
  {
  }

  /** An item with no text of its own, followed by a deeper line, has the block there. */
  lemma ItemBlock(items: seq<Line>, c: Cursor, d: nat, onDup: Option<string>)
    requires Terminated(items) && CursorOk(items, c) && c.next.Some? && c.next.value.depth > d
    ensures ItemValueAt(items, c, d, onDup, "") == ValueAt(items, c, c.next.value.depth, onDup)
  {
  }

  /** The line after a list's items from `j` on, when there are some, is the next item's line. */
  lemma ItemsFollow(items: seq<Line>, parent: Value, j: nat, p: nat, e: nat, d: nat, indent: nat)
    requires parent.Lst? && j <= |parent.items| && AllContent(items)
    requires ItemsLaid(items, p, parent, j, d, indent) && e == p + ItemsSize(parent, j) && Closes(items, e, d)
    ensures Follows(items, p, d)
  {
    if j < |parent.items| {
      assert ItemLaid(items, p, ListLine, "", parent.items[j], d, indent);
    } else if items[p].kind == Eof {
      EofAt(items, p);
    }
  }

  lemma EntriesFollow(items: seq<Line>, parent: Value, j: nat, p: nat, e: nat, d: nat, indent: nat)
    requires parent.Dct? && j <= |parent.entries| && AllContent(items)
    requires EntriesLaid(items, p, parent, j, d, indent) && e == p + EntriesSize(parent, j) && Closes(items, e, d)
    ensures Follows(items, p, d)
  {
    if j < |parent.entries| {
      assert ItemLaid(items, p, DictLine, parent.entries[j].0, parent.entries[j].1, d, indent);
    } else if items[p].kind == Eof {
      EofAt(items, p);
    }
  }

  // ----------------------------------------------------------------------------------------
  // Reading a laid-out value back

  /** The string lines from part `j` on are read as the parts joined with newlines. */
  lemma {:induction false} ParseString(items: seq<Line>, parts: seq<string>, j: nat, p: nat, d: nat)
    requires AllContent(items) && j <= |parts| && Closes(items, p + |parts|, d)
    requires forall i :: 0 <= i < |parts| ==> PartAt(items, p, parts, d, i)
    ensures CursorOk(items, At(items, p + j))
      && StringAt(items, At(items, p + j), d, parts[..j]) == Ok((Str(Join("\n", parts)), At(items, p + |parts|)))
    decreases |parts| - j
  {
    assert ContentAt(items, p + j);
    if j < |parts| {
      assert PartAt(items, p, parts, d, j);
      StringNext(items, p + j, d, parts[..j]);
      SnocPrefix(parts, j);
      ParseString(items, parts, j + 1, p, d);
    } else {
      WholePrefix(parts, j);
      StringEnd(items, p + j, d, parts);
    }
  }

  lemma ParseStringValue(items: seq<Line>, t: string, p: nat, e: nat, d: nat, indent: nat)
    requires AllContent(items) && Laid(items, p, Str(t), d, indent)
    requires e == p + Size(Str(t)) && Closes(items, e, d)
    ensures CursorOk(items, At(items, p)) && StringAt(items, At(items, p), d, []) == Ok((Str(t), At(items, e)))
  {
    ParseString(items, Split(t, '\n'), 0, p, d);
    EmptyPrefix(Split(t, '\n'));
    JoinSplit(t, '\n');
  }

  /** A value laid out at depth `d` from line `p`, up to a line `e` that closes it, is read as
      the value; the iterator is left on line `e` unless that is the end of the input at depth 0. */
  lemma {:induction false} ParseValue(items: seq<Line>, v: Value, p: nat, e: nat, d: nat, indent: nat,
                                      onDup: Option<string>)
    requires AllContent(items) && Representable(v) && indent > 0
    requires Laid(items, p, v, d, indent) && e == p + Size(v) && Closes(items, e, d)
    ensures CursorOk(items, At(items, p))
    ensures var r := ValueAt(items, At(items, p), d, onDup);
      r.Ok? && r.value.0 == v && (items[e].depth < d ==> r.value.1 == At(items, e))
    decreases v, 3
  {
    LaidHead(items, p, v, d, indent);
    ValueDispatch(items, p, d, onDup);
    match v
    case Str(t) =>
      ParseStringValue(items, t, p, e, d, indent);
    case Lst(_) =>
      ParseListValue(items, v, p, e, d, indent, onDup);
    case Dct(_) =>
      ParseDictValue(items, v, p, e, d, indent, onDup);
  }

  lemma {:induction false} ParseListValue(items: seq<Line>, v: Value, p: nat, e: nat, d: nat, indent: nat,
                                          onDup: Option<string>)
    requires v.Lst? && AllContent(items) && Representable(v) && indent > 0
    requires ItemsLaid(items, p, v, 0, d, indent) && e == p + Size(v) && Closes(items, e, d)
    ensures CursorOk(items, At(items, p))
    ensures ListAt(items, At(items, p), d, onDup, []) == Ok((v, Exit(items, e, d)))
    decreases v, 2
  {
    RepresentableNoNull(v);
    EmptyPrefix(v.items);
    ParseItems(items, v, 0, p, e, d, indent, onDup, []);
  }

  lemma {:induction false} ParseDictValue(items: seq<Line>, v: Value, p: nat, e: nat, d: nat, indent: nat,
                                          onDup: Option<string>)
    requires v.Dct? && AllContent(items) && Representable(v) && indent > 0
    requires EntriesLaid(items, p, v, 0, d, indent) && e == p + Size(v) && Closes(items, e, d)
    ensures CursorOk(items, At(items, p))
    ensures DictAt(items, At(items, p), d, onDup, []) == Ok((v, Exit(items, e, d)))
    decreases v, 2
  {
    EmptyPrefix(v.entries);
    ParseEntries(items, v, 0, p, e, d, indent, onDup, []);
  }

  /** The value of an item whose own line `p` has been handed out: its text when it is inline,
      otherwise the block below, read at the block's depth; the item ends before line `q`. */
  lemma {:induction false} ParseItemValue(items: seq<Line>, kind: LineType, key: string, x: Value, p: nat, q: nat,
                                           d: nat, indent: nat, onDup: Option<string>)
    requires AllContent(items) && Representable(x) && indent > 0
    requires ItemLaid(items, p, kind, key, x, d, indent) && q == p + ItemSize(x) && Follows(items, q, d)
    ensures p + 1 < |items| && CursorOk(items, At(items, p + 1))
    ensures ItemValueAt(items, At(items, p + 1), d, onDup, items[p].value) == Ok((x, At(items, q)))
    decreases x, 4
  {
    if Inline(x) {
      ParseInlineValue(items, kind, key, x, p, q, d, indent, onDup);
    } else {
      assert ContentAt(items, p + 1);
      LaidHead(items, p + 1, x, d + indent, indent);
      ItemBlock(items, At(items, p + 1), d, onDup);
      ParseValue(items, x, p + 1, q, d + indent, indent, onDup);
    }
  }

  /** An inline value is the text on the item's own line. */
  lemma ParseInlineValue(items: seq<Line>, kind: LineType, key: string, x: Value, p: nat, q: nat,
                         d: nat, indent: nat, onDup: Option<string>)
    requires AllContent(items) && Representable(x) && Inline(x)
    requires ItemLaid(items, p, kind, key, x, d, indent) && q == p + ItemSize(x) && Follows(items, q, d)
    ensures p + 1 < |items| && CursorOk(items, At(items, p + 1))
    ensures ItemValueAt(items, At(items, p + 1), d, onDup, items[p].value) == Ok((x, At(items, q)))
  {
    assert ContentAt(items, p + 1);
  }

  /** Reading item `j` of a list takes the cursor from its line `p` to the next item's line `q`. */
  lemma {:induction false} ItemStep(items: seq<Line>, parent: Value, j: nat, p: nat, q: nat, d: nat, indent: nat,
                                    onDup: Option<string>, acc: seq<Value>)
    requires parent.Lst? && Representable(parent) && indent > 0 && j < |parent.items| && AllContent(items)
    requires forall i :: 0 <= i < |acc| ==> NoNull(acc[i])
    requires ItemLaid(items, p, ListLine, "", parent.items[j], d, indent)
    requires q == p + ItemSize(parent.items[j]) && Follows(items, q, d)
    ensures CursorOk(items, At(items, p)) && CursorOk(items, At(items, q))
    ensures NoNull(parent.items[j])
    ensures ListAt(items, At(items, p), d, onDup, acc) == ListAt(items, At(items, q), d, onDup, acc + [parent.items[j]])
    decreases parent, 0
  {
    assert Representable(parent.items[j]);
    RepresentableNoNull(parent.items[j]);
    ParseItemValue(items, ListLine, "", parent.items[j], p, q, d, indent, onDup);
    ListNext(items, p, q, d, onDup, acc, parent.items[j]);
  }

  /** Item `j` of a list is laid out first, up to line `q`; the remaining items follow it on the
      same depth. */
  lemma ItemsLaidNext(items: seq<Line>, parent: Value, j: nat, p: nat, q: nat, e: nat, d: nat, indent: nat)
    requires parent.Lst? && j < |parent.items| && AllContent(items)
    requires ItemsLaid(items, p, parent, j, d, indent) && e == p + ItemsSize(parent, j) && Closes(items, e, d)
    requires q == p + ItemSize(parent.items[j])
    ensures ItemLaid(items, p, ListLine, "", parent.items[j], d, indent)
    ensures ItemsLaid(items, q, parent, j + 1, d, indent) && e == q + ItemsSize(parent, j + 1)
    ensures Follows(items, q, d)
  {
    ItemsFollow(items, parent, j + 1, q, e, d, indent);
  }

  /** The items read so far, with item `j`, are the items before `j + 1`, and hold no `None`. */
  lemma ItemsAccNext(parent: Value, j: nat, acc: seq<Value>)
    requires parent.Lst? && j < |parent.items| && acc == parent.items[..j] && NoNull(parent)
    ensures acc + [parent.items[j]] == parent.items[..j + 1]
    ensures forall i :: 0 <= i < |acc| + 1 ==> NoNull((acc + [parent.items[j]])[i])
  {
    SnocPrefix(parent.items, j);
  }

  /** A list's items from `j` on are read as the list, given the items before `j`. */
  lemma {:induction false} ParseItems(items: seq<Line>, parent: Value, j: nat, p: nat, e: nat, d: nat, indent: nat,
                                      onDup: Option<string>, acc: seq<Value>)
    requires parent.Lst? && Representable(parent) && NoNull(parent) && indent > 0 && j <= |parent.items|
    requires AllContent(items) && acc == parent.items[..j] && forall i :: 0 <= i < |acc| ==> NoNull(acc[i])
    requires ItemsLaid(items, p, parent, j, d, indent) && e == p + ItemsSize(parent, j) && Closes(items, e, d)
    ensures CursorOk(items, At(items, p))
    ensures ListAt(items, At(items, p), d, onDup, acc) == Ok((parent, Exit(items, e, d)))
    decreases parent, 1, |parent.items| - j
  {
    if j == |parent.items| {
      WholePrefix(parent.items, j);
      ListEnd(items, p, d, onDup, acc);
    } else {
      var q := p + ItemSize(parent.items[j]);
      var acc' := acc + [parent.items[j]];
      ItemsLaidNext(items, parent, j, p, q, e, d, indent);
      ItemStep(items, parent, j, p, q, d, indent, onDup, acc);
      ItemsAccNext(parent, j, acc);
      ParseItems(items, parent, j + 1, q, e, d, indent, onDup, acc');
    }
  }

  /** A dict entry's key is not among the keys before it. */
  lemma FreshKey(es: Entries, j: nat)
    requires UniqueKeys(es) && j < |es|
    ensures !HasKey(es[..j], es[j].0)
  {
    var ks := Keys(es[..j]);
    forall i | 0 <= i < j ensures ks[i] != es[j].0 {
      assert ks[i] == es[i].0;
    }
  }

  /** Reading entry `j` of a dict takes the cursor from its line `p` to the next entry's line
      `q`, and stores the entry last. */
  lemma {:induction false} EntryStep(items: seq<Line>, parent: Value, j: nat, p: nat, q: nat, d: nat, indent: nat,
                                     onDup: Option<string>, acc: Entries)
    requires parent.Dct? && Representable(parent) && indent > 0 && j < |parent.entries| && AllContent(items)
    requires acc == parent.entries[..j] && forall i :: 0 <= i < |acc| ==> NoNull(acc[i].1)
    requires ItemLaid(items, p, DictLine, parent.entries[j].0, parent.entries[j].1, d, indent)
    requires q == p + ItemSize(parent.entries[j].1) && Follows(items, q, d)
    ensures CursorOk(items, At(items, p)) && CursorOk(items, At(items, q))
    ensures UniqueKeys(acc + [parent.entries[j]])
    ensures forall i :: 0 <= i < |acc| + 1 ==> NoNull((acc + [parent.entries[j]])[i].1)
    ensures DictAt(items, At(items, p), d, onDup, acc) == DictAt(items, At(items, q), d, onDup, acc + [parent.entries[j]])
    decreases parent, 0
  {
    EntryValueOk(parent, j);
    RepresentableNoNull(parent.entries[j].1);
    ParseItemValue(items, DictLine, parent.entries[j].0, parent.entries[j].1, p, q, d, indent, onDup);
    FreshKey(parent.entries, j);
    ExtendEntries(acc, parent.entries[j].0, parent.entries[j].1);
    assert ContentAt(items, p) && ContentAt(items, p + 1) && ContentAt(items, q);
    DictNext(items, p, q, d, onDup, acc, parent.entries[j].1);
  }

  /** Entry `j` of a dict is laid out first, up to line `q`; the remaining entries follow it on
      the same depth. */
  lemma EntriesLaidNext(items: seq<Line>, parent: Value, j: nat, p: nat, q: nat, e: nat, d: nat, indent: nat)
    requires parent.Dct? && j < |parent.entries| && AllContent(items)
    requires EntriesLaid(items, p, parent, j, d, indent) && e == p + EntriesSize(parent, j) && Closes(items, e, d)
    requires q == p + ItemSize(parent.entries[j].1)
    ensures ItemLaid(items, p, DictLine, parent.entries[j].0, parent.entries[j].1, d, indent)
    ensures EntriesLaid(items, q, parent, j + 1, d, indent) && e == q + EntriesSize(parent, j + 1)
    ensures Follows(items, q, d)
  {
    EntriesFollow(items, parent, j + 1, q, e, d, indent);
  }

  /** A dict's entries from `j` on are read as the dict, given the entries before `j`. */
  lemma {:induction false} ParseEntries(items: seq<Line>, parent: Value, j: nat, p: nat, e: nat, d: nat, indent: nat,
                                        onDup: Option<string>, acc: Entries)
    requires parent.Dct? && Representable(parent) && indent > 0 && j <= |parent.entries| && AllContent(items)
    requires acc == parent.entries[..j] && UniqueKeys(acc) && forall i :: 0 <= i < |acc| ==> NoNull(acc[i].1)
    requires EntriesLaid(items, p, parent, j, d, indent) && e == p + EntriesSize(parent, j) && Closes(items, e, d)
    ensures CursorOk(items, At(items, p))
    ensures DictAt(items, At(items, p), d, onDup, acc) == Ok((parent, Exit(items, e, d)))
    decreases parent, 1, |parent.entries| - j
  {
    if j == |parent.entries| {
      WholePrefix(parent.entries, j);
      DictEnd(items, p, d, onDup, acc);
    } else {
      var q := p + ItemSize(parent.entries[j].1);
      var acc' := acc + [parent.entries[j]];
      EntriesLaidNext(items, parent, j, p, q, e, d, indent);
      EntryStep(items, parent, j, p, q, d, indent, onDup, acc);
      SnocPrefix(parent.entries, j);
      ParseEntries(items, parent, j + 1, q, e, d, indent, onDup, acc');
    }
  }

  // ----------------------------------------------------------------------------------------
  // The round trip

  /** The reader takes the lines of a representable value back to the value. */
  lemma ReadRendered(v: Value, indent: nat, onDup: Option<string>)
    requires Representable(v) && indent > 0
    ensures Read(TextsOf(Render(v, indent)), onDup) == Ok(v)
  {
    RenderGood(v, indent);
    ItemsOfRendered(Render(v, indent));
    var items := Items(TextsOf(Render(v, indent)));
    RenderLaid(items, 0, v, 0, indent);
    LaidHead(items, 0, v, 0, indent);
    assert ContentAt(items, 0);
    assert NextContent(items, 0) == Ok(At(items, 0));
    ParseValue(items, v, 0, Size(v), 0, indent, onDup);
  }

  /** An indented line of text holds no line break and is not empty. */
  lemma TextPlain(l: RLine)
    requires l.body != "" && NoLineBreak(l.body)
    ensures Text(l) != "" && NoLineBreak(Text(l))
  {
    var s := Text(l);
    forall i | 0 <= i < |s| ensures !IsLineBreak(s[i]) {
      if i >= l.depth {
        assert s[i] == l.body[i - l.depth];
      }
    }
  }

  /** `loads(dumps(v)) == v` for every representable value, under any duplicate-key policy,
      when `dumps` keeps the dict order and indents by a positive amount. */
  lemma DumpsLoads(v: Value, opts: DumpOptions, onDup: Option<string>)
    requires Representable(v) && opts.indent > 0 && !opts.sortKeys
    ensures Dumps(v, opts, 0).Ok? && Loaded(Dumps(v, opts, 0).value, onDup) == Ok(v)
  {
    var indent := opts.indent as nat;
    DumpsLines(v, opts, 0);
    var ls := Render(v, indent);
    var raw := TextsOf(ls);
    RenderPlain(v, indent);
    forall i | 0 <= i < |raw| ensures raw[i] != "" && NoLineBreak(raw[i]) {
      TextPlain(ls[i]);
    }
    SplitLinesJoin(raw);
    ReadRendered(v, indent, onDup);
  }
}
