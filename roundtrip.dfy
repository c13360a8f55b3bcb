/** `loads(dumps(v)) == v`: the lines `dumps` writes for a value, and how the reader takes
    them back. */
module RoundTrip {
  import opened Wrappers
  import opened PyText
  import opened Values
  import opened NestedText
  import opened Layout
  import opened NestedTextDump

  // ----------------------------------------------------------------------------------------
  // The values that survive the round trip

  /** Text with no line break but `\n`, which is where `dumps` starts new lines. */
  predicate PlainText(t: string) {
    forall i :: 0 <= i < |t| ==> IsLineBreak(t[i]) ==> t[i] == '\n'
  }

  /** A value that `dumps` writes and `loads` reads back unchanged: strings free of line breaks
      other than `\n` (`dumps` turns `\r` into `\n`, and `splitlines` breaks at the rest),
      non-empty lists and dicts (an empty one is written as an empty string), keys `_render_key`
      accepts and that hold no line break, and no `None`. */
  predicate Representable(v: Value)
    decreases v, 1
  {
    match v
    case Str(t) => PlainText(t)
    case Lst(xs) => xs != [] && forall i :: 0 <= i < |xs| ==> Representable(xs[i])
    case Dct(es) => es != [] && UniqueKeys(es) && forall i :: 0 <= i < |es| ==> EntryOk(v, i)
    case Null => false
  }

  /** Entry `i` of a dict: a key `_render_key` accepts, with no line break, and a representable
      value. */
  predicate EntryOk(parent: Value, i: nat)
    requires parent.Dct? && i < |parent.entries|
    decreases parent, 0
  {
    var e := parent.entries[i];
    RenderKey(e.0).Ok? && NoLineBreak(e.0) && Representable(e.1)
  }

  /** The value of an entry of a representable dict is representable. */
  lemma EntryRepresentable(parent: Value, j: nat)
    requires parent.Dct? && Representable(parent) && j < |parent.entries|
    ensures Representable(parent.entries[j].1)
  {
    assert EntryOk(parent, j);
  }

  /** What a representable dict promises about one of its entries. */
  lemma EntryValueOk(parent: Value, j: nat)
    requires parent.Dct? && Representable(parent) && j < |parent.entries|
    ensures var e := parent.entries[j];
      RenderKey(e.0).Ok? && NoLineBreak(e.0) && Representable(e.1) && UniqueKeys(parent.entries)
  {
    assert EntryOk(parent, j);
  }

  lemma {:induction false} RepresentableNoNull(v: Value)
    requires Representable(v)
    ensures NoNull(v)
    decreases v
  {
    match v
    case Str(_) =>
    case Lst(xs) =>
      forall i | 0 <= i < |xs| ensures NoNull(xs[i]) {
        RepresentableNoNull(xs[i]);
      }
    case Dct(es) =>
      forall i | 0 <= i < |es| ensures NoNull(es[i].1) {
        assert EntryOk(v, i);
        RepresentableNoNull(es[i].1);
      }
  }

  // ----------------------------------------------------------------------------------------
  // Rendered lines

  /** One line of output: its indentation, the kind, key and value the reader finds in it, and
      its text after the indentation. */
  datatype RLine = RLine(depth: nat, kind: LineType, key: string, value: string, body: string)

  function Text(l: RLine): string {
    Spaces(l.depth) + l.body
  }

  function TextsOf(ls: seq<RLine>): (r: seq<string>)
    ensures |r| == |ls| && forall i :: 0 <= i < |ls| ==> r[i] == Text(ls[i])
  {
    if ls == [] then [] else [Text(ls[0])] + TextsOf(ls[1..])
  }

  /** The lines `ls` indented `n` further. */
  function Shift(ls: seq<RLine>, n: nat): (r: seq<RLine>)
    ensures |r| == |ls| && forall i :: 0 <= i < |ls| ==> r[i] == ls[i].(depth := ls[i].depth + n)
  {
    if ls == [] then [] else [ls[0].(depth := ls[0].depth + n)] + Shift(ls[1..], n)
  }

  /** A string `dumps` writes on its item's own line rather than as an indented block. */
  predicate Inline(v: Value) {
    v.Str? && '\n' !in v.text
  }

  /** The `> ` lines of a string, one per `\n`-separated part. */
  function StringLines(parts: seq<string>): (r: seq<RLine>)
    ensures |r| == |parts|
    ensures forall i :: 0 <= i < |parts| ==>
      r[i] == RLine(0, StringLine, "", parts[i], if parts[i] != "" then "> " + parts[i] else RStrip("> "))
  {
    if parts == [] then []
    else
      var body := if parts[0] != "" then "> " + parts[0] else RStrip("> ");
      [RLine(0, StringLine, "", parts[0], body)] + StringLines(parts[1..])
  }

  /** The key as `_render_key` writes it. */
  function KeyText(k: string): string {
    if RenderKey(k).Ok? then RenderKey(k).value else k
  }

  /** The lines of one list or dict item written with `prefix` (`-`, or the key and `:`): an
      inline string goes on the item's line after a space, anything else on the lines below,
      indented by `indent`. */
  function ItemChunk(prefix: string, kind: LineType, key: string, x: Value, block: seq<RLine>, indent: nat): seq<RLine> {
    if Inline(x) then [RLine(0, kind, key, x.text, if x.text == "" then prefix else prefix + " " + x.text)]
    else [RLine(0, kind, key, "", prefix)] + Shift(block, indent)
  }

  /** The lines `dumps` writes for `v` at the top level, indentation relative to `v`'s own. */
  function Render(v: Value, indent: nat): seq<RLine>
    decreases v, 2
  {
    match v
    case Str(t) => StringLines(Split(t, '\n'))
    case Lst(_) => ItemsLines(v, 0, indent)
    case Dct(_) => EntriesLines(v, 0, indent)
    case Null => []
  }

  /** The lines of the list items from item `j` on. */
  function ItemsLines(parent: Value, j: nat, indent: nat): seq<RLine>
    requires parent.Lst? && j <= |parent.items|
    decreases parent, 1, |parent.items| - j
  {
    if j == |parent.items| then []
    else
      var x := parent.items[j];
      ItemChunk("-", ListLine, "", x, Render(x, indent), indent) + ItemsLines(parent, j + 1, indent)
  }

  /** The lines of the dict items from entry `j` on. */
  function EntriesLines(parent: Value, j: nat, indent: nat): seq<RLine>
    requires parent.Dct? && j <= |parent.entries|
    decreases parent, 1, |parent.entries| - j
  {
    if j == |parent.entries| then []
    else
      var e := parent.entries[j];
      ItemChunk(KeyText(e.0) + ":", DictLine, e.0, e.1, Render(e.1, indent), indent)
        + EntriesLines(parent, j + 1, indent)
  }

  // ----------------------------------------------------------------------------------------
  // Every rendered line is classified as it was meant

  /** What `_read_lines` makes of a line: the body is no indentation, no comment and holds no
      line break, and its kind, key and value are the recorded ones. */
  predicate Good(l: RLine) {
    l.body != "" && !IsSpace(l.body[0]) && l.body[0] != '#' && NoLineBreak(l.body)
    && (l.kind == StringLine || l.kind == ListLine || l.kind == DictLine)
    && ClassifyContent(l.body) == (l.kind, l.key, l.value)
  }

  predicate AllGood(ls: seq<RLine>) {
    forall i :: 0 <= i < |ls| ==> Good(ls[i])
  }

  /** Lines with something after the indentation and no line break. */
  predicate Plain(ls: seq<RLine>) {
    forall i :: 0 <= i < |ls| ==> ls[i].body != "" && NoLineBreak(ls[i].body)
  }

  /** Every character of a part of a split comes from the string split. */
  lemma {:induction false} SplitChars(s: string, c: char)
    ensures forall i, j :: 0 <= i < |Split(s, c)| && 0 <= j < |Split(s, c)[i]| ==> Split(s, c)[i][j] in s
  {
    if s != [] {
      SplitChars(s[1..], c);
      var t := Split(s[1..], c);
      forall i, j | 0 <= i < |Split(s, c)| && 0 <= j < |Split(s, c)[i]| ensures Split(s, c)[i][j] in s {
        if s[0] == c {
          assert Split(s, c)[i] == ([""] + t)[i];
          if i > 0 {
            assert Split(s, c)[i] == t[i - 1];
            assert t[i - 1][j] in s[1..];
          }
        } else {
          var r := [[s[0]] + t[0]] + t[1..];
          if i == 0 {
            assert Split(s, c)[0] == [s[0]] + t[0];
            if j > 0 {
              assert t[0][j - 1] in s[1..];
            }
          } else {
            assert Split(s, c)[i] == t[i];
            assert t[i][j] in s[1..];
          }
        }
      }
    }
  }

  lemma RStripLeader()
    ensures RStrip("> ") == ">"
  {
    assert TrailingSpace("> ") == 1 by {
      assert TrailingSpace(">") == 0;
      assert ("> ")[..1] == ">";
    }
  }

  /** The lines of a string's parts are string lines giving those parts back. */
  lemma StringLinesGood(t: string)
    requires PlainText(t)
    ensures AllGood(StringLines(Split(t, '\n')))
  {
    var parts := Split(t, '\n');
    var ls := StringLines(parts);
    SplitChars(t, '\n');
    RStripLeader();
    forall i | 0 <= i < |ls| ensures Good(ls[i]) {
      var p := parts[i];
      forall j | 0 <= j < |p| ensures !IsLineBreak(p[j]) {
        assert p[j] in t && p[j] != '\n';
      }
      if p != "" {
        var b := "> " + p;
        assert b[..2] == "> ";
        assert !Marked(b, '-') && Marked(b, '>');
        assert Drop(b, 2) == p;
      } else {
        assert Drop(">", 2) == "";
      }
    }
  }

  /** A list item's own line. */
  lemma ListLineGood(t: string)
    requires '\n' !in t && PlainText(t)
    ensures Good(RLine(0, ListLine, "", t, if t == "" then "-" else "-" + " " + t))
  {
    if t != "" {
      var b := "-" + " " + t;
      assert b[..2] == "- ";
      assert Drop(b, 2) == t;
    } else {
      assert Drop("-", 2) == "";
    }
  }

  /** A dict item's line, given what the reader makes of its rendered key `r`. */
  lemma DictLineOf(r: string, k: string, t: string)
    requires '\n' !in t && PlainText(t) && NoLineBreak(r + ":")
    requires !IsSpace((r + ":")[0]) && (r + ":")[0] != '#'
    requires ClassifyContent(r + ":") == (DictLine, k, "")
    requires ClassifyContent(r + ": " + t) == (DictLine, k, t)
    ensures var p := r + ":"; Good(RLine(0, DictLine, k, t, if t == "" then p else p + " " + t))
  {
    var p := r + ":";
    if t != "" {
      var b := p + " " + t;
      assert b == r + ": " + t;
      assert b[0] == p[0];
      forall i | 0 <= i < |b| ensures !IsLineBreak(b[i]) {
        if i < |p| {
          assert b[i] == p[i];
        } else if i > |p| {
          assert b[i] == t[i - |p| - 1];
        }
      }
    }
  }

  /** A dict item's own line. */
  lemma DictLineGood(k: string, t: string)
    requires RenderKey(k).Ok? && NoLineBreak(k) && '\n' !in t && PlainText(t)
    ensures var p := KeyText(k) + ":";
      Good(RLine(0, DictLine, k, t, if t == "" then p else p + " " + t))
  {
    KeyReadsBack(k, t);
    DictLineOf(RenderKey(k).value, k, t);
  }

  lemma ShiftGood(ls: seq<RLine>, n: nat)
    requires AllGood(ls)
    ensures AllGood(Shift(ls, n))
  {
  }

  /** The chunk of an item whose own line is good and whose block is good. */
  lemma ChunkGood(prefix: string, kind: LineType, key: string, x: Value, block: seq<RLine>, indent: nat)
    requires Inline(x) ==> Good(RLine(0, kind, key, x.text, if x.text == "" then prefix else prefix + " " + x.text))
    requires !Inline(x) ==> Good(RLine(0, kind, key, "", prefix)) && AllGood(block)
    ensures AllGood(ItemChunk(prefix, kind, key, x, block, indent))
  {
    if !Inline(x) {
      ShiftGood(block, indent);
    }
  }

  /** Every line `dumps` writes for a representable value is classified as recorded. */
  lemma {:induction false} RenderGood(v: Value, indent: nat)
    requires Representable(v)
    ensures AllGood(Render(v, indent))
    decreases v, 2
  {
    match v
    case Str(t) => StringLinesGood(t);
    case Lst(_) => ItemsGood(v, 0, indent);
    case Dct(_) => EntriesGood(v, 0, indent);
  }

  lemma {:induction false} ItemsGood(parent: Value, j: nat, indent: nat)
    requires parent.Lst? && Representable(parent) && j <= |parent.items|
    ensures AllGood(ItemsLines(parent, j, indent))
    decreases parent, 1, |parent.items| - j
  {
    if j < |parent.items| {
      var x := parent.items[j];
      if Inline(x) {
        ListLineGood(x.text);
      } else {
        ListLineGood("");
        RenderGood(x, indent);
      }
      ChunkGood("-", ListLine, "", x, Render(x, indent), indent);
      ItemsGood(parent, j + 1, indent);
    }
  }

  lemma {:induction false} EntriesGood(parent: Value, j: nat, indent: nat)
    requires parent.Dct? && Representable(parent) && j <= |parent.entries|
    ensures AllGood(EntriesLines(parent, j, indent))
    decreases parent, 1, |parent.entries| - j
  {
    if j < |parent.entries| {
      var e := parent.entries[j];
      assert EntryOk(parent, j);
      assert Representable(e.1);
      if Inline(e.1) {
        DictLineGood(e.0, e.1.text);
      } else {
        DictLineGood(e.0, "");
        RenderGood(e.1, indent);
      }
      ChunkGood(KeyText(e.0) + ":", DictLine, e.0, e.1, Render(e.1, indent), indent);
      EntriesGood(parent, j + 1, indent);
    }
  }

  // ----------------------------------------------------------------------------------------
  // What `dumps` returns is these lines

  /** `dumps(v)` at `level`: an inline string below the top level is its own text; anything
      else is its lines, joined, and below the top level indented and started on a new line. */
  function Emitted(v: Value, indent: nat, level: nat): string {
    if level > 0 && Inline(v) then v.text
    else if level == 0 then Join("\n", TextsOf(Render(v, indent)))
    else "\n" + Join("\n", TextsOf(Shift(Render(v, indent), indent)))
  }

  lemma {:induction false} JoinAppend(a: seq<string>, b: seq<string>, sep: string)
    requires |a| >= 1 && |b| >= 1
    ensures Join(sep, a + b) == Join(sep, a) + sep + Join(sep, b)
  {
    if |a| == 1 {
      assert (a + b)[1..] == b;
    } else {
      JoinAppend(a[1..], b, sep);
      assert (a + b)[1..] == a[1..] + b;
    }
  }

  lemma TextsAppend(a: seq<RLine>, b: seq<RLine>)
    ensures TextsOf(a + b) == TextsOf(a) + TextsOf(b)
  {
    assert forall i :: 0 <= i < |a + b| ==> TextsOf(a + b)[i] == Text((a + b)[i]);
  }

  lemma SpacesAdd(m: nat, n: nat)
    ensures Spaces(m) + Spaces(n) == Spaces(m + n)
  {
    assert forall i :: 0 <= i < m + n ==> (Spaces(m) + Spaces(n))[i] == ' ';
  }

  /** A line indented `n` further has `n` more spaces in front. */
  lemma ShiftedText(l: RLine, n: nat)
    ensures Spaces(n) + Text(l) == Text(l.(depth := l.depth + n))
  {
    SpacesAdd(n, l.depth);
    assert Spaces(n) + (Spaces(l.depth) + l.body) == (Spaces(n) + Spaces(l.depth)) + l.body;
  }

  /** Line `i` of the texts indented by `n` spaces is the text of line `i` shifted by `n`. */
  lemma ShiftedTextAt(ls: seq<RLine>, n: nat, i: nat)
    requires Plain(ls) && i < |ls|
    ensures Lead(TextsOf(ls), Spaces(n))[i] == TextsOf(Shift(ls, n))[i]
  {
    var t := TextsOf(ls)[i];
    assert t == Spaces(ls[i].depth) + ls[i].body;
    assert ls[i].body != "";
    assert t != "";
    ShiftedText(ls[i], n);
  }

  /** Indenting the texts of lines by `n` spaces is shifting the lines by `n`. */
  lemma ShiftedTexts(ls: seq<RLine>, n: nat)
    requires Plain(ls)
    ensures Lead(TextsOf(ls), Spaces(n)) == TextsOf(Shift(ls, n))
  {
    forall i | 0 <= i < |ls| ensures Lead(TextsOf(ls), Spaces(n))[i] == TextsOf(Shift(ls, n))[i] {
      ShiftedTextAt(ls, n, i);
    }
  }

  /** The rendered lines of a representable value are plain. */
  lemma RenderPlain(v: Value, indent: nat)
    requires Representable(v)
    ensures Plain(Render(v, indent)) && |Render(v, indent)| >= 1
  {
    RenderGood(v, indent);
    RenderNonEmpty(v, indent);
  }

  /** A rendered key and its colon hold no newline. */
  lemma KeyTextPlain(k: string)
    requires RenderKey(k).Ok? && NoLineBreak(k)
    ensures '\n' !in KeyText(k) + ":"
  {
    KeyReadsBack(k, "");
  }

  /** The lines `_add_leader(text, "> ")` makes are the `> ` lines of the text's parts. */
  lemma StringTexts(parts: seq<string>)
    ensures TextsOf(StringLines(parts)) == Lead(parts, "> ")
  {
    forall i | 0 <= i < |parts| ensures TextsOf(StringLines(parts))[i] == Lead(parts, "> ")[i] {
      assert Spaces(0) == "";
      assert Text(StringLines(parts)[i]) == StringLines(parts)[i].body;
    }
  }

  lemma {:induction false} RenderNonEmpty(v: Value, indent: nat)
    requires Representable(v)
    ensures |Render(v, indent)| >= 1
  {
    match v
    case Str(_) =>
    case Lst(_) =>
    case Dct(_) =>
  }

  lemma JoinNonEmpty(parts: seq<string>)
    requires |parts| >= 1 && parts[0] != ""
    ensures Join("\n", parts) != ""
  {
  }

  /** The indented block `dumps` makes of a value's content below the top level. */
  lemma BlockEmitted(content: string, ls: seq<RLine>, indent: nat, level: nat)
    requires content == Join("\n", TextsOf(ls)) && |ls| >= 1 && Plain(ls)
    ensures Indented(content, true, indent, level)
      == if level == 0 then content else "\n" + Join("\n", TextsOf(Shift(ls, indent)))
  {
    if level > 0 {
      var ts := TextsOf(ls);
      forall i | 0 <= i < |ts| ensures ts[i] != "" && '\n' !in ts[i] {
        assert ts[i] == Spaces(ls[i].depth) + ls[i].body;
        assert ts[i][ls[i].depth] == ls[i].body[0];
        assert forall c :: c in ts[i] ==> c == ' ' || c in ls[i].body;
      }
      JoinNonEmpty(ts);
      AddLeaderJoin(ts, Spaces(indent));
      ShiftedTexts(ls, indent);
    }
  }

  /** An item's line and block, joined, are what `_add_prefix` makes of its prefix and the
      item's value as `dumps` writes it one level down. */
  lemma ChunkText(prefix: string, kind: LineType, key: string, x: Value, indent: nat, level: nat)
    requires Representable(x)
    ensures Join("\n", TextsOf(ItemChunk(prefix, kind, key, x, Render(x, indent), indent)))
      == AddPrefix(prefix, Emitted(x, indent, level + 1))
  {
    if Inline(x) {
      InlineChunkText(prefix, kind, key, x.text);
    } else {
      RenderNonEmpty(x, indent);
      BlockChunkText(prefix, kind, key, Shift(Render(x, indent), indent));
    }
  }

  lemma InlineChunkText(prefix: string, kind: LineType, key: string, t: string)
    requires '\n' !in t
    ensures var l := RLine(0, kind, key, t, if t == "" then prefix else prefix + " " + t);
      Join("\n", TextsOf([l])) == AddPrefix(prefix, t)
  {
    assert Spaces(0) == "";
    var l := RLine(0, kind, key, t, if t == "" then prefix else prefix + " " + t);
    assert Text(l) == l.body;
    assert TextsOf([l]) == [l.body];
    assert t != "" ==> t[0] != '\n';
  }

  lemma BlockChunkText(prefix: string, kind: LineType, key: string, block: seq<RLine>)
    requires |block| >= 1
    ensures Join("\n", TextsOf([RLine(0, kind, key, "", prefix)] + block))
      == AddPrefix(prefix, "\n" + Join("\n", TextsOf(block)))
  {
    HeadTexts(prefix, kind, key, block);
    JoinAfterHead(prefix, TextsOf(block));
  }

  /** An item's own line, at depth 0, is its prefix. */
  lemma HeadTexts(prefix: string, kind: LineType, key: string, block: seq<RLine>)
    ensures TextsOf([RLine(0, kind, key, "", prefix)] + block) == [prefix] + TextsOf(block)
  {
    assert Spaces(0) == "";
    var head := RLine(0, kind, key, "", prefix);
    assert Text(head) == prefix;
    TextsAppend([head], block);
    assert TextsOf([head]) == [prefix];
  }

  /** Joining a first line with further lines is `_add_prefix` with the rest after a newline. */
  lemma JoinAfterHead(prefix: string, rest: seq<string>)
    requires |rest| >= 1
    ensures Join("\n", [prefix] + rest) == AddPrefix(prefix, "\n" + Join("\n", rest))
  {
    var ts := [prefix] + rest;
    assert ts[1..] == rest;
    assert Join("\n", ts) == prefix + "\n" + Join("\n", rest);
  }

  /** `dumps` on a string. */
  lemma DumpsStr(t: string, opts: DumpOptions, level: nat)
    requires PlainText(t) && opts.indent > 0
    ensures Dumps(Str(t), opts, level) == Ok(Emitted(Str(t), opts.indent as nat, level))
  {
    var indent := opts.indent as nat;
    var v := Str(t);
    RenderPlain(v, indent);
    assert forall i :: 0 <= i < |t| ==> t[i] != '\r';
    assert NormalizeNewlines(t) == t;
    if '\n' in t || level == 0 {
      StringTexts(Split(t, '\n'));
      BlockEmitted(AddLeader(t, "> "), Render(v, indent), indent, level);
    }
  }

  /** `dumps` on a list, given what its items come to. */
  lemma DumpsList(v: Value, opts: DumpOptions, level: nat)
    requires v.Lst? && Representable(v) && opts.indent > 0
    requires DumpItems(v, 0, opts, level).Ok?
    requires Join("\n", DumpItems(v, 0, opts, level).value) == Join("\n", TextsOf(Render(v, opts.indent as nat)))
    ensures Dumps(v, opts, level) == Ok(Emitted(v, opts.indent as nat, level))
  {
    var indent := opts.indent as nat;
    RenderPlain(v, indent);
    BlockEmitted(Join("\n", DumpItems(v, 0, opts, level).value), Render(v, indent), indent, level);
  }

  /** `dumps` on a dict, given what its entries come to. */
  lemma DumpsDict(v: Value, opts: DumpOptions, level: nat)
    requires v.Dct? && Representable(v) && opts.indent > 0 && !opts.sortKeys
    requires DumpEntries(v, v.entries, opts, level).Ok?
    requires Join("\n", DumpEntries(v, v.entries, opts, level).value) == Join("\n", TextsOf(Render(v, opts.indent as nat)))
    ensures Dumps(v, opts, level) == Ok(Emitted(v, opts.indent as nat, level))
  {
    var indent := opts.indent as nat;
    RenderPlain(v, indent);
    BlockEmitted(Join("\n", DumpEntries(v, v.entries, opts, level).value), Render(v, indent), indent, level);
  }

  /** `dumps` writes exactly the rendered lines of a representable value. */
  lemma {:induction false} DumpsLines(v: Value, opts: DumpOptions, level: nat)
    requires Representable(v) && opts.indent > 0 && !opts.sortKeys
    ensures Dumps(v, opts, level) == Ok(Emitted(v, opts.indent as nat, level))
    decreases v, 2
  {
    match v
    case Str(t) => DumpsStr(t, opts, level);
    case Lst(xs) =>
      DumpItemsLines(v, 0, opts, level);
      DumpsList(v, opts, level);
    case Dct(es) =>
      assert es[0..] == es;
      DumpEntriesLines(v, 0, opts, level);
      DumpsDict(v, opts, level);
  }

  /** The joined parts of an item followed by the joined rest are the joined lines of both. */
  lemma JoinCons(head: string, rest: seq<string>, chunk: seq<RLine>, later: seq<RLine>)
    requires Join("\n", TextsOf(chunk)) == head && |chunk| >= 1
    requires rest == [] <==> later == []
    requires rest != [] ==> Join("\n", rest) == Join("\n", TextsOf(later))
    ensures Join("\n", [head] + rest) == Join("\n", TextsOf(chunk + later))
  {
    TextsAppend(chunk, later);
    JoinConsTexts(head, rest, TextsOf(chunk), TextsOf(later));
  }

  lemma JoinConsTexts(head: string, rest: seq<string>, a: seq<string>, b: seq<string>)
    requires Join("\n", a) == head && |a| >= 1
    requires rest == [] <==> b == []
    requires rest != [] ==> Join("\n", rest) == Join("\n", b)
    ensures Join("\n", [head] + rest) == Join("\n", a + b)
  {
    if rest == [] {
      assert [head] + rest == [head];
      assert a + b == a;
    } else {
      JoinFirst(head, rest);
      JoinAppend(a, b, "\n");
    }
  }

  lemma JoinFirst(head: string, rest: seq<string>)
    requires rest != []
    ensures Join("\n", [head] + rest) == head + "\n" + Join("\n", rest)
  {
    assert ([head] + rest)[1..] == rest;
  }

  lemma ItemsLinesStep(parent: Value, j: nat, indent: nat)
    requires parent.Lst? && j < |parent.items|
    ensures var x := parent.items[j];
      var chunk := ItemChunk("-", ListLine, "", x, Render(x, indent), indent);
      ItemsLines(parent, j, indent) == chunk + ItemsLines(parent, j + 1, indent) && |chunk| >= 1
      && (j + 1 < |parent.items| <==> ItemsLines(parent, j + 1, indent) != [])
  {
    if j + 1 < |parent.items| {
      var y := parent.items[j + 1];
      assert |ItemChunk("-", ListLine, "", y, Render(y, indent), indent)| >= 1;
    }
  }

  lemma EntriesLinesStep(parent: Value, j: nat, indent: nat)
    requires parent.Dct? && j < |parent.entries|
    ensures var e := parent.entries[j];
      var chunk := ItemChunk(KeyText(e.0) + ":", DictLine, e.0, e.1, Render(e.1, indent), indent);
      EntriesLines(parent, j, indent) == chunk + EntriesLines(parent, j + 1, indent) && |chunk| >= 1
      && (j + 1 < |parent.entries| <==> EntriesLines(parent, j + 1, indent) != [])
  {
    if j + 1 < |parent.entries| {
      var f := parent.entries[j + 1];
      assert |ItemChunk(KeyText(f.0) + ":", DictLine, f.0, f.1, Render(f.1, indent), indent)| >= 1;
    }
  }

  /** One step of the list branch when the value and the rest render. */
  lemma DumpItemsStep(parent: Value, j: nat, opts: DumpOptions, level: nat)
    requires parent.Lst? && j < |parent.items|
    requires Dumps(parent.items[j], opts, level + 1).Ok? && DumpItems(parent, j + 1, opts, level).Ok?
    ensures DumpItems(parent, j, opts, level)
      == Ok([AddPrefix("-", Dumps(parent.items[j], opts, level + 1).value)] + DumpItems(parent, j + 1, opts, level).value)
    ensures DumpItems(parent, j + 1, opts, level).value == [] <==> j + 1 == |parent.items|
  {
  }

  lemma {:induction false} DumpItemsLines(parent: Value, j: nat, opts: DumpOptions, level: nat)
    requires parent.Lst? && Representable(parent) && j < |parent.items| && opts.indent > 0 && !opts.sortKeys
    ensures DumpItems(parent, j, opts, level).Ok?
    ensures Join("\n", DumpItems(parent, j, opts, level).value)
      == Join("\n", TextsOf(ItemsLines(parent, j, opts.indent as nat)))
    decreases parent, 1, |parent.items| - j
  {
    var indent := opts.indent as nat;
    var x := parent.items[j];
    DumpsLines(x, opts, level + 1);
    ChunkText("-", ListLine, "", x, indent, level);
    if j + 1 < |parent.items| {
      DumpItemsLines(parent, j + 1, opts, level);
    }
    DumpItemsStep(parent, j, opts, level);
    ItemsLinesStep(parent, j, indent);
    JoinCons(AddPrefix("-", Emitted(x, indent, level + 1)), DumpItems(parent, j + 1, opts, level).value,
      ItemChunk("-", ListLine, "", x, Render(x, indent), indent), ItemsLines(parent, j + 1, indent));
  }

  /** One step of the dict branch when the key, the value and the rest all render. */
  lemma DumpEntriesStep(parent: Value, j: nat, opts: DumpOptions, level: nat)
    requires parent.Dct? && j < |parent.entries|
    requires RenderKey(parent.entries[j].0).Ok? && Dumps(parent.entries[j].1, opts, level + 1).Ok?
    requires DumpEntries(parent, parent.entries[j + 1..], opts, level).Ok?
    ensures DumpEntries(parent, parent.entries[j..], opts, level)
      == Ok([AddPrefix(KeyText(parent.entries[j].0) + ":", Dumps(parent.entries[j].1, opts, level + 1).value)]
            + DumpEntries(parent, parent.entries[j + 1..], opts, level).value)
    ensures DumpEntries(parent, parent.entries[j + 1..], opts, level).value == [] <==> j + 1 == |parent.entries|
  {
    var es := parent.entries[j..];
    assert es[0] == parent.entries[j] && es[1..] == parent.entries[j + 1..];
  }

  lemma {:induction false} DumpEntriesLines(parent: Value, j: nat, opts: DumpOptions, level: nat)
    requires parent.Dct? && Representable(parent) && j < |parent.entries| && opts.indent > 0 && !opts.sortKeys
    ensures DumpEntries(parent, parent.entries[j..], opts, level).Ok?
    ensures Join("\n", DumpEntries(parent, parent.entries[j..], opts, level).value)
      == Join("\n", TextsOf(EntriesLines(parent, j, opts.indent as nat)))
    decreases parent, 1, |parent.entries| - j
  {
    var indent := opts.indent as nat;
    var e := parent.entries[j];
    assert EntryOk(parent, j);
    DumpsLines(e.1, opts, level + 1);
    ChunkText(KeyText(e.0) + ":", DictLine, e.0, e.1, indent, level);
    if j + 1 < |parent.entries| {
      DumpEntriesLines(parent, j + 1, opts, level);
    } else {
      assert parent.entries[j + 1..] == [];
    }
    DumpEntriesStep(parent, j, opts, level);
    EntriesLinesStep(parent, j, indent);
    JoinCons(AddPrefix(KeyText(e.0) + ":", Emitted(e.1, indent, level + 1)),
      DumpEntries(parent, parent.entries[j + 1..], opts, level).value,
      ItemChunk(KeyText(e.0) + ":", DictLine, e.0, e.1, Render(e.1, indent), indent),
      EntriesLines(parent, j + 1, indent));
  }
}
