/** What the reader of the complete module promises, stated over the lines it consumes. */
module ReaderProps {
  import opened Wrappers
  import opened PyText
  import opened Values
  import opened NestedText

  /** A line `_read_lines` drops: blank once its newline is stripped, or a comment. */
  predicate BlankOrComment(raw: string) {
    var t := RStripChars(raw, {'\n'});
    AllSpace(t) || (LeadingSpaceAll(t); t[LeadingSpace(t)] == '#')
  }

  lemma {:induction false} SkipToEnd(items: seq<Line>, gen: nat)
    requires Terminated(items) && gen < |items|
    requires forall i :: gen <= i < |items| - 1 ==> IsIgnorable(items[i].kind)
    ensures NextContent(items, gen) == Ok(Cursor(|items|, Some(EofLine)))
    decreases |items| - gen
  {
    if gen < |items| - 1 {
      SkipToEnd(items, gen + 1);
    }
  }

  /** A document reads as `None` exactly when every line is blank or a comment. */
  lemma {:induction false} EmptyDocument(raw: seq<string>, onDup: Option<string>)
    ensures Read(raw, onDup) == Ok(Null) <==> forall i :: 0 <= i < |raw| ==> BlankOrComment(raw[i])
  {
    ItemsTerminated(raw, true);
    var items := Items(raw);
    forall i | 0 <= i < |raw| ensures IsIgnorable(items[i].kind) <==> BlankOrComment(raw[i]) {
      ItemsAt(raw, true, i);
      ClassifyLineKinds(raw[i], i + 1, LastContent(raw, i));
    }
    if Read(raw, onDup) == Ok(Null) {
      assert Pos(NextContent(items, 0).value) == |raw|;
    }
    if forall i :: 0 <= i < |raw| ==> BlankOrComment(raw[i]) {
      SkipToEnd(items, 0);
    }
  }

  // ----------------------------------------------------------------------------------------
  // The content lines a read consumes

  /** The content lines among `items[a..b]`: neither blank, a comment, nor the sentinel. */
  function Consumed(items: seq<Line>, a: nat, b: nat): seq<Line>
    requires a <= b <= |items|
    decreases b - a
  {
    if a == b then []
    else (if IsIgnorable(items[a].kind) || items[a].kind == Eof then [] else [items[a]]) + Consumed(items, a + 1, b)
  }

  lemma {:induction false} ConsumedSplit(items: seq<Line>, a: nat, b: nat, c: nat)
    requires a <= b <= c <= |items|
    ensures Consumed(items, a, c) == Consumed(items, a, b) + Consumed(items, b, c)
    decreases b - a
  {
    if a < b {
      ConsumedSplit(items, a + 1, b, c);
    }
  }

  lemma {:induction false} ConsumedSkip(items: seq<Line>, a: nat, b: nat)
    requires a <= b <= |items|
    requires forall i :: a <= i < b ==> IsIgnorable(items[i].kind)
    ensures Consumed(items, a, b) == []
    decreases b - a
  {
    if a < b {
      ConsumedSkip(items, a + 1, b);
    }
  }

  /** One step of the iterator consumes the held line and nothing else. */
  lemma StepConsumes(items: seq<Line>, c: Cursor)
    requires Terminated(items) && CursorOk(items, c) && Step(items, c).Ok?
    ensures var lc := Step(items, c).value;
      Consumed(items, Pos(c), Pos(lc.1)) == if lc.0.kind == Eof then [] else [lc.0]
  {
    var lc := Step(items, c).value;
    ConsumedSkip(items, Pos(c) + 1, Pos(lc.1));
  }

  /** The lines of `ls` at exactly `depth`: the items of the list or dict being read. */
  function AtDepth(ls: seq<Line>, depth: nat): (r: seq<Line>)
    ensures forall i :: 0 <= i < |r| ==> r[i].depth == depth
  {
    if ls == [] then [] else (if ls[0].depth == depth then [ls[0]] else []) + AtDepth(ls[1..], depth)
  }

  lemma {:induction false} AtDepthConcat(a: seq<Line>, b: seq<Line>, depth: nat)
    ensures AtDepth(a + b, depth) == AtDepth(a, depth) + AtDepth(b, depth)
  {
    if a != [] {
      assert (a + b)[0] == a[0] && (a + b)[1..] == a[1..] + b;
      AtDepthConcat(a[1..], b, depth);
      var h := if a[0].depth == depth then [a[0]] else [];
      assert AtDepth(a + b, depth) == h + AtDepth(a[1..] + b, depth);
    } else {
      assert a + b == b;
    }
  }

  lemma {:induction false} AtDepthNone(ls: seq<Line>, depth: nat)
    requires forall i :: 0 <= i < |ls| ==> ls[i].depth > depth
    ensures AtDepth(ls, depth) == []
  {
    if ls != [] {
      assert forall i :: 0 <= i < |ls[1..]| ==> ls[1..][i] == ls[i + 1];
      AtDepthNone(ls[1..], depth);
    }
  }

  /** The values of `ls`, in order. */
  function Texts(ls: seq<Line>): (r: seq<string>)
    ensures |r| == |ls| && forall i :: 0 <= i < |ls| ==> r[i] == ls[i].value
  {
    if ls == [] then [] else [ls[0].value] + Texts(ls[1..])
  }

  /** The keys of `ls`, in order. */
  function KeysOf(ls: seq<Line>): (r: seq<string>)
    ensures |r| == |ls| && forall i :: 0 <= i < |ls| ==> r[i] == ls[i].key
  {
    if ls == [] then [] else [ls[0].key] + KeysOf(ls[1..])
  }

  predicate AllDeep(ls: seq<Line>, depth: nat) {
    forall i :: 0 <= i < |ls| ==> ls[i].depth >= depth
  }

  /** `_read_value` consumes only lines at least as deep as the block it reads. */
  lemma {:induction false} ValueAtDeep(items: seq<Line>, c: Cursor, depth: nat, onDup: Option<string>)
    requires Terminated(items) && CursorOk(items, c) && c.next.Some?
    requires ValueAt(items, c, depth, onDup).Ok?
    ensures AllDeep(Consumed(items, Pos(c), Pos(ValueAt(items, c, depth, onDup).value.1)), depth)
    decreases Rank(items, c), 1
  {
    var kind := c.next.value.kind;
    if kind == ListLine {
      ListShape(items, c, depth, onDup, []);
    } else if kind == DictLine {
      DictShape(items, c, depth, onDup, []);
    } else {
      StringJoins(items, c, depth, []);
    }
  }

  /** The block below an item line with no value of its own is deeper than the item. */
  lemma {:induction false} ItemValueDeep(items: seq<Line>, c: Cursor, depth: nat, onDup: Option<string>, text: string)
    requires Terminated(items) && CursorOk(items, c) && c.next.Some?
    requires ItemValueAt(items, c, depth, onDup, text).Ok?
    ensures AllDeep(Consumed(items, Pos(c), Pos(ItemValueAt(items, c, depth, onDup, text).value.1)), depth + 1)
    decreases Rank(items, c), 2
  {
    if text == "" && c.next.value.depth > depth {
      ValueAtDeep(items, c, c.next.value.depth, onDup);
    }
  }

  /** How one item of a list or dict splits the lines consumed: its own line, the deeper block
      below it, and the rest of the read. */
  lemma Compose(items: seq<Line>, p0: nat, p1: nat, p2: nat, p3: nat, line: Line, depth: nat)
    requires p0 <= p1 <= p2 <= p3 <= |items| && line.depth == depth
    requires Consumed(items, p0, p1) == [line]
    requires AllDeep(Consumed(items, p1, p2), depth + 1)
    ensures var rest := Consumed(items, p2, p3);
      (AllDeep(rest, depth) ==> AllDeep(Consumed(items, p0, p3), depth))
      && AtDepth(Consumed(items, p0, p3), depth) == [line] + AtDepth(rest, depth)
  {
    var mid := Consumed(items, p1, p2);
    var rest := Consumed(items, p2, p3);
    ConsumedSplit(items, p0, p1, p2);
    ConsumedSplit(items, p0, p2, p3);
    assert Consumed(items, p0, p3) == [line] + mid + rest;
    AtDepthNone(mid, depth);
    AtDepthConcat([line], mid, depth);
    AtDepthConcat([line] + mid, rest, depth);
    assert AtDepth([line], depth) == [line];
  }

  /** `vs` is `acc` followed by one element per item line of `top`, the item's own value where
      it has one. */
  predicate ElementsOf(vs: seq<Value>, acc: seq<Value>, top: seq<Line>) {
    |vs| == |acc| + |top| && vs[..|acc|] == acc
    && forall j :: 0 <= j < |top| && top[j].value != "" ==> vs[|acc| + j] == Str(top[j].value)
  }

  lemma ElementsStep(vs: seq<Value>, acc: seq<Value>, v: Value, line: Line, top: seq<Line>)
    requires ElementsOf(vs, acc + [v], top)
    requires line.value != "" ==> v == Str(line.value)
    ensures ElementsOf(vs, acc, [line] + top)
  {
    assert vs[..|acc|] == (acc + [v])[..|acc|];
    assert vs[|acc|] == (acc + [v])[|acc|];
    forall j | 1 <= j < |[line] + top| && ([line] + top)[j].value != ""
      ensures vs[|acc| + j] == Str(([line] + top)[j].value)
    {
      assert ([line] + top)[j] == top[j - 1];
      assert |acc + [v]| + (j - 1) == |acc| + j;
    }
  }

  /** `_read_list` consumes lines at least `depth` deep; those at `depth` are list items, one
      per element, and an item with a value of its own becomes that string. */
  lemma {:induction false} ListShape(items: seq<Line>, c: Cursor, depth: nat, onDup: Option<string>, acc: seq<Value>)
    requires Terminated(items) && CursorOk(items, c) && c.next.Some?
    requires forall i :: 0 <= i < |acc| ==> NoNull(acc[i])
    requires ListAt(items, c, depth, onDup, acc).Ok?
    ensures var r := ListAt(items, c, depth, onDup, acc).value;
      var ls := Consumed(items, Pos(c), Pos(r.1));
      var top := AtDepth(ls, depth);
      AllDeep(ls, depth) && (forall i :: 0 <= i < |top| ==> top[i].kind == ListLine)
      && ElementsOf(r.0.items, acc, top)
    decreases Rank(items, c), 0
  {
    if c.next.value.depth >= depth {
      StepConsumes(items, c);
      if c.next.value.kind != Eof {
        var line, c1, v, c2 := ListUnfold(items, c, depth, onDup, acc);
        ItemValueDeep(items, c1, depth, onDup, line.value);
        ListShape(items, c2, depth, onDup, acc + [v]);
        var r := ListAt(items, c2, depth, onDup, acc + [v]).value;
        Compose(items, Pos(c), Pos(c1), Pos(c2), Pos(r.1), line, depth);
        ElementsStep(r.0.items, acc, v, line, AtDepth(Consumed(items, Pos(c2), Pos(r.1)), depth));
      }
    }
  }

  /** A list read that goes on past its first line reads one item and then the rest. */
  lemma {:induction false} ListUnfold(items: seq<Line>, c: Cursor, depth: nat, onDup: Option<string>, acc: seq<Value>)
      returns (line: Line, c1: Cursor, v: Value, c2: Cursor)
    requires Terminated(items) && CursorOk(items, c) && c.next.Some?
    requires forall i :: 0 <= i < |acc| ==> NoNull(acc[i])
    requires ListAt(items, c, depth, onDup, acc).Ok?
    requires c.next.value.depth >= depth && c.next.value.kind != Eof
    ensures Step(items, c) == Ok((line, c1)) && line.depth == depth && line.kind == ListLine
    ensures CursorOk(items, c1) && c1.next.Some?
    ensures ItemValueAt(items, c1, depth, onDup, line.value) == Ok((v, c2))
    ensures CursorOk(items, c2) && c2.next.Some? && NoNull(v)
    ensures forall i :: 0 <= i < |acc + [v]| ==> NoNull((acc + [v])[i])
    ensures ListAt(items, c, depth, onDup, acc) == ListAt(items, c2, depth, onDup, acc + [v])
  {
    line, c1 := Step(items, c).value.0, Step(items, c).value.1;
    v, c2 := ItemValueAt(items, c1, depth, onDup, line.value).value.0, ItemValueAt(items, c1, depth, onDup, line.value).value.1;
  }

  /** `_read_dict` consumes lines at least `depth` deep; those at `depth` are dict items, and
      the dict's keys are the keys of those items. */
  lemma {:induction false} DictShape(items: seq<Line>, c: Cursor, depth: nat, onDup: Option<string>, acc: Entries)
    requires Terminated(items) && CursorOk(items, c) && c.next.Some?
    requires UniqueKeys(acc) && forall i :: 0 <= i < |acc| ==> NoNull(acc[i].1)
    requires DictAt(items, c, depth, onDup, acc).Ok?
    ensures var r := DictAt(items, c, depth, onDup, acc).value;
      var ls := Consumed(items, Pos(c), Pos(r.1));
      var top := AtDepth(ls, depth);
      AllDeep(ls, depth) && (forall i :: 0 <= i < |top| ==> top[i].kind == DictLine)
      && forall k :: HasKey(r.0.entries, k) <==> HasKey(acc, k) || k in KeysOf(top)
    decreases Rank(items, c), 0
  {
    if c.next.value.depth >= depth {
      StepConsumes(items, c);
      if c.next.value.kind != Eof {
        var line, c1, v, c2, acc' := DictUnfold(items, c, depth, onDup, acc);
        ItemValueDeep(items, c1, depth, onDup, line.value);
        AddItemKeys(acc, line.key, v, onDup, line.lineno);
        DictShape(items, c2, depth, onDup, acc');
        var r := DictAt(items, c2, depth, onDup, acc').value;
        Compose(items, Pos(c), Pos(c1), Pos(c2), Pos(r.1), line, depth);
        KeysStep(r.0.entries, acc, acc', line, AtDepth(Consumed(items, Pos(c2), Pos(r.1)), depth));
      }
    }
  }

  /** A dict read that goes on past its first line reads and stores one item and then the rest. */
  lemma {:induction false} DictUnfold(items: seq<Line>, c: Cursor, depth: nat, onDup: Option<string>, acc: Entries)
      returns (line: Line, c1: Cursor, v: Value, c2: Cursor, acc': Entries)
    requires Terminated(items) && CursorOk(items, c) && c.next.Some?
    requires UniqueKeys(acc) && forall i :: 0 <= i < |acc| ==> NoNull(acc[i].1)
    requires DictAt(items, c, depth, onDup, acc).Ok?
    requires c.next.value.depth >= depth && c.next.value.kind != Eof
    ensures Step(items, c) == Ok((line, c1)) && line.depth == depth && line.kind == DictLine
    ensures CursorOk(items, c1) && c1.next.Some?
    ensures ItemValueAt(items, c1, depth, onDup, line.value) == Ok((v, c2))
    ensures CursorOk(items, c2) && c2.next.Some?
    ensures UniqueKeys(acc) && AddItem(acc, line.key, v, onDup, line.lineno) == Ok(acc')
    ensures UniqueKeys(acc') && forall i :: 0 <= i < |acc'| ==> NoNull(acc'[i].1)
    ensures DictAt(items, c, depth, onDup, acc) == DictAt(items, c2, depth, onDup, acc')
  {
    line, c1 := Step(items, c).value.0, Step(items, c).value.1;
    v, c2 := ItemValueAt(items, c1, depth, onDup, line.value).value.0, ItemValueAt(items, c1, depth, onDup, line.value).value.1;
    acc' := AddItem(acc, line.key, v, onDup, line.lineno).value;
    AddItemKeeps(acc, line.key, v, onDup, line.lineno);
  }

  /** The keys after an item line are the keys before, that line's key, and those after it. */
  lemma KeysStep(r: Entries, acc: Entries, acc': Entries, line: Line, top: seq<Line>)
    requires forall k :: HasKey(acc', k) <==> HasKey(acc, k) || k == line.key
    requires forall k :: HasKey(r, k) <==> HasKey(acc', k) || k in KeysOf(top)
    ensures forall k :: HasKey(r, k) <==> HasKey(acc, k) || k in KeysOf([line] + top)
  {
    assert KeysOf([line] + top) == [line.key] + KeysOf(top);
  }

  /** The keys after storing one item are the keys before and the item's key. */
  lemma AddItemKeys(acc: Entries, key: string, v: Value, onDup: Option<string>, lineno: nat)
    requires UniqueKeys(acc) && AddItem(acc, key, v, onDup, lineno).Ok?
    ensures forall k :: HasKey(AddItem(acc, key, v, onDup, lineno).value, k) <==> HasKey(acc, k) || k == key
  {
    if !HasKey(acc, key) {
      assert Keys(acc + [(key, v)]) == Keys(acc) + [key];
    }
  }

  /** Every line of `ls` is a string line at `depth`. */
  predicate StringBlock(ls: seq<Line>, depth: nat) {
    forall i :: 0 <= i < |ls| ==> ls[i].kind == StringLine && ls[i].depth == depth
  }

  lemma StringBlockStep(line: Line, rest: seq<Line>, depth: nat, acc: seq<string>)
    requires line.kind == StringLine && line.depth == depth && StringBlock(rest, depth)
    ensures StringBlock([line] + rest, depth)
    ensures acc + [line.value] + Texts(rest) == acc + Texts([line] + rest)
  {
    assert forall i :: 1 <= i < |[line] + rest| ==> ([line] + rest)[i] == rest[i - 1];
  }

  /** `_read_string` consumes only string lines at `depth`, and returns their values joined
      with newlines. */
  lemma {:induction false} StringJoins(items: seq<Line>, c: Cursor, depth: nat, acc: seq<string>)
    requires Terminated(items) && CursorOk(items, c) && c.next.Some?
    requires StringAt(items, c, depth, acc).Ok?
    ensures var r := StringAt(items, c, depth, acc).value;
      var ls := Consumed(items, Pos(c), Pos(r.1));
      StringBlock(ls, depth) && r.0 == Str(Join("\n", acc + Texts(ls)))
    decreases Rank(items, c)
  {
    var next := c.next.value;
    if next.kind == StringLine && next.depth >= depth {
      var lc := Step(items, c).value;
      StepConsumes(items, c);
      assert StringAt(items, c, depth, acc) == StringAt(items, lc.1, depth, acc + [lc.0.value]);
      StringJoins(items, lc.1, depth, acc + [lc.0.value]);
      var r := StringAt(items, lc.1, depth, acc + [lc.0.value]).value;
      var rest := Consumed(items, Pos(lc.1), Pos(r.1));
      ConsumedSplit(items, Pos(c), Pos(lc.1), Pos(r.1));
      StringBlockStep(lc.0, rest, depth, acc);
    } else {
      assert acc + Texts([]) == acc;
    }
  }

  // ----------------------------------------------------------------------------------------
  // The previous content line in indentation errors

  lemma LineItemX(prev: Option<PrevLine>)
    ensures ClassifyLine("- x", 1, prev) == Line("- x", 1, ListLine, 0, "", "x", prev)
  {
    var line := "- x";
    assert TrailingIn(line, {'\n'}) == 0;
    assert RStripChars(line, {'\n'}) == line;
    assert LeadingSpace(line) == 0;
    assert Marked(line, '-') && Drop(line, 2) == "x";
    ClassifyContentSpec(line);
  }

  lemma LineItemY(prev: Option<PrevLine>)
    ensures ClassifyLine("  - y", 2, prev) == Line("  - y", 2, ListLine, 2, "", "y", prev)
  {
    var line := "  - y";
    assert TrailingIn(line, {'\n'}) == 0;
    assert RStripChars(line, {'\n'}) == line;
    assert LeadingSpace(line[2..]) == 0;
    assert LeadingSpace(line) == 2;
    var stripped := line[2..];
    assert stripped == "- y";
    assert Marked(stripped, '-') && Drop(stripped, 2) == "y";
    ClassifyContentSpec(stripped);
  }

  /** The lines of `- x` then `  - y`; the second records the first as its previous content
      line or, as written, records nothing. */
  lemma NestedAfterValueLines(keepPrev: bool)
    ensures var raw := ["- x", "  - y"];
      Classified(raw, keepPrev, |raw|) + [EofLine] == [
        Line("- x", 1, ListLine, 0, "", "x", None),
        Line("  - y", 2, ListLine, 2, "", "y", if keepPrev then Some(PrevLine(ListLine, 0, "x")) else None),
        EofLine]
  {
    var raw := ["- x", "  - y"];
    var prev := if keepPrev then Some(PrevLine(ListLine, 0, "x")) else None;
    LineItemX(None);
    LineItemY(prev);
    assert LastContent(raw, 0) == None;
    assert LastContent(raw, 1) == Some(Summary(ClassifyLine(raw[0], 1, None)));
  }

  /** Whatever the second line records, reading stops at it with the indentation error its
      record calls for. */
  lemma NestedAfterValueItems(items: seq<Line>, prev: Option<PrevLine>, onDup: Option<string>)
    requires items == [Line("- x", 1, ListLine, 0, "", "x", None), Line("  - y", 2, ListLine, 2, "", "y", prev), EofLine]
    ensures Terminated(items) && Document(items, onDup) == Err(IndentationError(items[1], 0))
  {
    var c1 := Cursor(1, Some(items[0]));
    var c2 := Cursor(2, Some(items[1]));
    var c3 := Cursor(3, Some(EofLine));
    assert LeadingChar(items[1].text, ' ') == 2;
    assert NextContent(items, 0) == Ok(c1);
    assert NextContent(items, 1) == Ok(c2);
    assert NextContent(items, 2) == Ok(c3);
    assert Step(items, c1) == Ok((items[0], c2));
    assert Step(items, c2) == Ok((items[1], c3));
    assert ItemValueAt(items, c2, 0, onDup, "x") == Ok((Str("x"), c2));
    assert ListAt(items, c2, 0, onDup, [Str("x")]) == Err(IndentationError(items[1], 0));
    assert ListAt(items, c1, 0, onDup, []) == Err(IndentationError(items[1], 0));
  }

  /** `- x` followed by `  - y` is an indent after an item that already has a value. The
      generator as written never records the previous line, so the error reads "top-level
      content must start in column 1" instead. */
  lemma NestedAfterValue(onDup: Option<string>)
    ensures Read(["- x", "  - y"], onDup) == Err(Error(IndentAfterValue(false), Some(2)))
    ensures var items := ItemsAsWritten(["- x", "  - y"]);
      Terminated(items) && Document(items, onDup) == Err(Error(TopLevelColumn1, Some(2)))
  {
    NestedAfterValueKept(onDup);
    NestedAfterValueDropped(onDup);
  }

  /** With the previous line recorded, the message is the one for an item that has a value. */
  lemma NestedAfterValueKept(onDup: Option<string>)
    ensures Read(["- x", "  - y"], onDup) == Err(Error(IndentAfterValue(false), Some(2)))
  {
    NestedAfterValueLines(true);
    var prev := Some(PrevLine(ListLine, 0, "x"));
    NestedAfterValueItems(Items(["- x", "  - y"]), prev, onDup);
    IndentAfterX();
  }

  lemma IndentAfterX()
    ensures IndentationError(Line("  - y", 2, ListLine, 2, "", "y", Some(PrevLine(ListLine, 0, "x"))), 0)
      == Error(IndentAfterValue(false), Some(2))
  {
    var x := "x";
    assert !IsSpace(x[0]);
    assert TrailingSpace(x) == 0;
    assert RStrip(x) == x;
    assert LeadingSpace(x) == 0;
    assert Strip(x) == x;
  }

  /** With no previous line recorded, the message is the one for top-level content. */
  lemma NestedAfterValueDropped(onDup: Option<string>)
    ensures var items := ItemsAsWritten(["- x", "  - y"]);
      Terminated(items) && Document(items, onDup) == Err(Error(TopLevelColumn1, Some(2)))
  {
    NestedAfterValueLines(false);
    var items := ItemsAsWritten(["- x", "  - y"]);
    NestedAfterValueItems(items, None, onDup);
    assert IndentationError(items[1], 0) == Error(TopLevelColumn1, Some(2));
  }
}
