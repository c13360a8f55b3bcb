/** What the rewrite's parser promises, stated over the lines it consumes. */
module ParserProps {
  import opened Wrappers
  import opened Values
  import opened NestedTextSrc

  // ----------------------------------------------------------------------------------------
  // The content lines a read consumes

  /** The content lines among `items[a..b]` that are neither blank nor comments. */
  function Consumed(items: seq<LineRead>, a: nat, b: nat): seq<Line>
    requires a <= b <= |items|
    decreases b - a
  {
    if a == b then []
    else (if items[a].Content? && !IsIgnorable(items[a].line.kind) then [items[a].line] else []) + Consumed(items, a + 1, b)
  }

  lemma {:induction false} ConsumedSplit(items: seq<LineRead>, a: nat, b: nat, c: nat)
    requires a <= b <= c <= |items|
    ensures Consumed(items, a, c) == Consumed(items, a, b) + Consumed(items, b, c)
    decreases b - a
  {
    if a < b {
      ConsumedSplit(items, a + 1, b, c);
    }
  }

  lemma {:induction false} ConsumedSkip(items: seq<LineRead>, a: nat, b: nat)
    requires a <= b <= |items|
    requires forall i :: a <= i < b ==> items[i].Content? && IsIgnorable(items[i].line.kind)
    ensures Consumed(items, a, b) == []
    decreases b - a
  {
    if a < b {
      ConsumedSkip(items, a + 1, b);
    }
  }

  /** What is consumed from a held line on starts with that line. */
  lemma ConsumedHead(items: seq<LineRead>, c: Cursor, b: nat)
    requires CursorOk(items, c) && c.next.Some? && Pos(c) < b <= |items|
    ensures Consumed(items, Pos(c), b) != [] && Consumed(items, Pos(c), b)[0] == c.next.value
  {
  }

  /** One step of the iterator consumes the held line and nothing else. */
  lemma StepConsumes(items: seq<LineRead>, c: Cursor)
    requires CursorOk(items, c) && Step(items, c).Ok?
    ensures var lc := Step(items, c).value;
      Consumed(items, Pos(c), Pos(lc.1)) == [lc.0]
  {
    var lc := Step(items, c).value;
    ConsumedSkip(items, Pos(c) + 1, Pos(lc.1));
  }

  /** The texts of `ls`, in order, "" for a line without one. */
  function ValueTexts(ls: seq<Line>): (r: seq<string>)
    ensures |r| == |ls| && forall i :: 0 <= i < |ls| ==> r[i] == ValueText(ls[i])
  {
    if ls == [] then [] else [ValueText(ls[0])] + ValueTexts(ls[1..])
  }

  /** Every line of `ls` is of `kind` at `depth`. */
  predicate Run(ls: seq<Line>, kind: LineType, depth: nat) {
    forall i :: 0 <= i < |ls| ==> ls[i].kind == kind && ls[i].depth == depth
  }

  lemma RunStep(line: Line, rest: seq<Line>, kind: LineType, depth: nat, acc: seq<string>)
    requires line.kind == kind && line.depth == depth && Run(rest, kind, depth)
    ensures Run([line] + rest, kind, depth)
    ensures acc + [ValueText(line)] + ValueTexts(rest) == acc + ValueTexts([line] + rest)
  {
    assert forall i :: 1 <= i < |[line] + rest| ==> ([line] + rest)[i] == rest[i - 1];
  }

  // ----------------------------------------------------------------------------------------
  // Strings and multi-line keys

  /** `_read_string` consumes only string lines at `depth`, and returns their texts run
      together with the last line ending stripped. */
  lemma {:induction false} StringJoins(items: seq<LineRead>, c: Cursor, depth: nat, acc: seq<string>)
    requires CursorOk(items, c)
    requires acc != [] || (c.next.Some? && c.next.value.kind == StringLine && c.next.value.depth >= depth)
    requires StringAt(items, c, depth, acc).Ok?
    ensures var r := StringAt(items, c, depth, acc).value;
      var ls := Consumed(items, Pos(c), Pos(r.1));
      Run(ls, StringLine, depth) && acc + ValueTexts(ls) != [] && r.0 == Str(JoinBlock(acc + ValueTexts(ls)))
    decreases Rank(items, c)
  {
    if c.next.Some? && c.next.value.kind == StringLine && c.next.value.depth >= depth {
      var lc := Step(items, c).value;
      StepConsumes(items, c);
      var acc' := acc + [ValueText(lc.0)];
      assert StringAt(items, c, depth, acc) == StringAt(items, lc.1, depth, acc');
      StringJoins(items, lc.1, depth, acc');
      var r := StringAt(items, lc.1, depth, acc').value;
      ConsumedSplit(items, Pos(c), Pos(lc.1), Pos(r.1));
      RunStep(lc.0, Consumed(items, Pos(lc.1), Pos(r.1)), StringLine, depth, acc);
    } else {
      assert acc + ValueTexts([]) == acc;
    }
  }

  /** `_read_object_key` consumes only key lines at exactly `depth`, and the key is their
      texts run together with the last line ending stripped. */
  lemma {:induction false} KeyJoins(items: seq<LineRead>, c: Cursor, depth: nat, acc: seq<string>)
    requires CursorOk(items, c)
    requires acc != [] || (c.next.Some? && c.next.value.kind == ObjectKey && c.next.value.depth == depth)
    requires ObjectKeyAt(items, c, depth, acc).Ok?
    ensures var r := ObjectKeyAt(items, c, depth, acc).value;
      var ls := Consumed(items, Pos(c), Pos(r.1));
      Run(ls, ObjectKey, depth) && acc + ValueTexts(ls) != [] && r.0 == JoinBlock(acc + ValueTexts(ls))
    decreases Rank(items, c)
  {
    if c.next.Some? && c.next.value.kind == ObjectKey && c.next.value.depth == depth {
      var lc := Step(items, c).value;
      StepConsumes(items, c);
      var acc' := acc + [ValueText(lc.0)];
      assert ObjectKeyAt(items, c, depth, acc) == ObjectKeyAt(items, lc.1, depth, acc');
      KeyJoins(items, lc.1, depth, acc');
      var r := ObjectKeyAt(items, lc.1, depth, acc').value;
      ConsumedSplit(items, Pos(c), Pos(lc.1), Pos(r.1));
      RunStep(lc.0, Consumed(items, Pos(lc.1), Pos(r.1)), ObjectKey, depth, acc);
    } else {
      assert acc + ValueTexts([]) == acc;
    }
  }

  /** The key of a field: an object item's line is consumed alone and gives its own key; a run
      of key lines gives their joined texts, and the line after the run is not a key line at
      the same depth. */
  lemma KeyRead(items: seq<LineRead>, c: Cursor, depth: nat)
    requires CursorOk(items, c) && c.next.Some? && c.next.value.depth == depth
    requires c.next.value.kind == ObjectItem || c.next.value.kind == ObjectKey
    requires KeyAt(items, c, depth).Ok?
    ensures var r := KeyAt(items, c, depth).value;
      var ls := Consumed(items, Pos(c), Pos(r.1));
      ls != [] && ls[0] == c.next.value
      && (c.next.value.kind == ObjectItem ==> ls == [c.next.value] && r.0 == c.next.value.key)
      && (c.next.value.kind == ObjectKey ==>
            Run(ls, ObjectKey, depth) && r.0 == JoinBlock(ValueTexts(ls))
            && (r.1.next.Some? ==> !(r.1.next.value.kind == ObjectKey && r.1.next.value.depth == depth)))
  {
    var r := KeyAt(items, c, depth).value;
    if c.next.value.kind == ObjectItem {
      StepConsumes(items, c);
    } else {
      KeyJoins(items, c, depth, []);
      assert [] + ValueTexts(Consumed(items, Pos(c), Pos(r.1))) == ValueTexts(Consumed(items, Pos(c), Pos(r.1)));
    }
    ConsumedHead(items, c, Pos(r.1));
  }
  // ----------------------------------------------------------------------------------------
  // Lists and objects

  /** The lines of `ls` at exactly `depth`: the items of the list or object being read. */
  function AtDepth(ls: seq<Line>, depth: nat): (r: seq<Line>)
    ensures forall i :: 0 <= i < |r| ==> r[i].depth == depth
  {
    if ls == [] then [] else (if ls[0].depth == depth then [ls[0]] else []) + AtDepth(ls[1..], depth)
  }

  lemma {:induction false} AtDepthConcat(a: seq<Line>, b: seq<Line>, depth: nat)
    ensures AtDepth(a + b, depth) == AtDepth(a, depth) + AtDepth(b, depth)
  {
    if a != [] {
      assert (a + b)[0] == a[0] && (a + b)[1..] == a[1..] + b;
      AtDepthConcat(a[1..], b, depth);
      var h := if a[0].depth == depth then [a[0]] else [];
      assert AtDepth(a + b, depth) == h + AtDepth(a[1..] + b, depth);
    } else {
      assert a + b == b;
    }
  }

  lemma {:induction false} AtDepthNone(ls: seq<Line>, depth: nat)
    requires AllDeep(ls, depth + 1)
    ensures AtDepth(ls, depth) == []
  {
    if ls != [] {
      assert forall i :: 0 <= i < |ls[1..]| ==> ls[1..][i] == ls[i + 1];
      AtDepthNone(ls[1..], depth);
    }
  }

  lemma {:induction false} AtDepthAll(ls: seq<Line>, depth: nat)
    requires forall i :: 0 <= i < |ls| ==> ls[i].depth == depth
    ensures AtDepth(ls, depth) == ls
  {
    if ls != [] {
      assert forall i :: 0 <= i < |ls[1..]| ==> ls[1..][i] == ls[i + 1];
      AtDepthAll(ls[1..], depth);
      assert ls == [ls[0]] + ls[1..];
    }
  }

  predicate AllDeep(ls: seq<Line>, depth: nat) {
    forall i :: 0 <= i < |ls| ==> ls[i].depth >= depth
  }

  /** The number of key lines at `depth` that `ls` starts with. */
  function KeyRun(ls: seq<Line>, depth: nat): (n: nat)
    ensures n <= |ls|
    ensures ls != [] && ls[0].kind == ObjectKey && ls[0].depth == depth ==> n >= 1
  {
    if ls != [] && ls[0].kind == ObjectKey && ls[0].depth == depth then 1 + KeyRun(ls[1..], depth) else 0
  }

  /** The keys of the fields whose lines at `depth` `ls` holds: an object item gives its own
      key, and a run of key lines gives their joined texts; deeper lines are values. */
  function FieldKeys(ls: seq<Line>, depth: nat): seq<string>
    decreases |ls|
  {
    if ls == [] then []
    else if ls[0].depth != depth then FieldKeys(ls[1..], depth)
    else if ls[0].kind == ObjectKey then
      var n := KeyRun(ls, depth);
      [JoinBlock(ValueTexts(ls[..n]))] + FieldKeys(ls[n..], depth)
    else [ls[0].key] + FieldKeys(ls[1..], depth)
  }

  lemma {:induction false} FieldKeysDeep(b: seq<Line>, rest: seq<Line>, depth: nat)
    requires AllDeep(b, depth + 1)
    ensures FieldKeys(b + rest, depth) == FieldKeys(rest, depth)
  {
    if b != [] {
      assert (b + rest)[0] == b[0] && (b + rest)[1..] == b[1..] + rest;
      assert AllDeep(b[1..], depth + 1) by {
        assert forall i :: 0 <= i < |b[1..]| ==> b[1..][i] == b[i + 1];
      }
      FieldKeysDeep(b[1..], rest, depth);
    } else {
      assert b + rest == rest;
    }
  }

  lemma {:induction false} KeyRunOf(k: seq<Line>, m: seq<Line>, depth: nat)
    requires Run(k, ObjectKey, depth)
    requires m == [] || m[0].depth != depth
    ensures KeyRun(k + m, depth) == |k|
  {
    if k != [] {
      assert (k + m)[0] == k[0] && (k + m)[1..] == k[1..] + m;
      assert Run(k[1..], ObjectKey, depth) by {
        assert forall i :: 0 <= i < |k[1..]| ==> k[1..][i] == k[i + 1];
      }
      KeyRunOf(k[1..], m, depth);
    } else {
      assert k + m == m;
    }
  }

  /** A field's key lines followed by lines that do not start at its depth. */
  lemma FieldKeysRun(k: seq<Line>, m: seq<Line>, depth: nat)
    requires k != [] && Run(k, ObjectKey, depth)
    requires m == [] || m[0].depth != depth
    ensures FieldKeys(k + m, depth) == [JoinBlock(ValueTexts(k))] + FieldKeys(m, depth)
  {
    KeyRunOf(k, m, depth);
    assert (k + m)[0] == k[0];
    assert (k + m)[..|k|] == k && (k + m)[|k|..] == m;
  }

  /** How one field of an object splits the lines consumed: its key lines, the deeper block
      with its value, and the rest of the read. */
  lemma FieldCompose(items: seq<LineRead>, p0: nat, p1: nat, p2: nat, p3: nat, line: Line, key: string, depth: nat)
    requires p0 <= p1 <= p2 <= p3 <= |items| && line.depth == depth
    requires line.kind == ObjectItem || line.kind == ObjectKey
    requires var k := Consumed(items, p0, p1);
      k != [] && k[0] == line
      && (line.kind == ObjectItem ==> k == [line] && key == line.key)
      && (line.kind == ObjectKey ==> Run(k, ObjectKey, depth) && key == JoinBlock(ValueTexts(k)))
    requires AllDeep(Consumed(items, p1, p2), depth + 1)
    requires line.kind == ObjectKey ==> Consumed(items, p1, p2) != []
    ensures var k := Consumed(items, p0, p1);
      var rest := Consumed(items, p2, p3);
      var ls := Consumed(items, p0, p3);
      (AllDeep(rest, depth) ==> AllDeep(ls, depth))
      && AtDepth(ls, depth) == k + AtDepth(rest, depth)
      && FieldKeys(ls, depth) == [key] + FieldKeys(rest, depth)
  {
    ConsumedSplit(items, p0, p1, p2);
    ConsumedSplit(items, p0, p2, p3);
    var k, b, rest := Consumed(items, p0, p1), Consumed(items, p1, p2), Consumed(items, p2, p3);
    assert Consumed(items, p0, p3) == k + (b + rest);
    FieldLayout(k, b, rest, depth);
    FieldSplit(k, b, rest, line, key, depth);
  }

  /** Key lines at `depth`, a deeper block, and the rest: the lines at `depth` are the key
      lines and those of the rest. */
  lemma FieldLayout(k: seq<Line>, b: seq<Line>, rest: seq<Line>, depth: nat)
    requires forall i :: 0 <= i < |k| ==> k[i].depth == depth
    requires AllDeep(b, depth + 1)
    ensures AllDeep(rest, depth) ==> AllDeep(k + (b + rest), depth)
    ensures AtDepth(k + (b + rest), depth) == k + AtDepth(rest, depth)
  {
    AtDepthNone(b, depth);
    AtDepthAll(k, depth);
    AtDepthConcat(k, b + rest, depth);
    AtDepthConcat(b, rest, depth);
  }

  /** The field keys of a field's lines followed by the rest: the field's key, then those of
      the rest. */
  lemma FieldSplit(k: seq<Line>, b: seq<Line>, rest: seq<Line>, line: Line, key: string, depth: nat)
    requires line.depth == depth && (line.kind == ObjectItem || line.kind == ObjectKey)
    requires line.kind == ObjectItem ==> k == [line] && key == line.key
    requires line.kind == ObjectKey ==> k != [] && Run(k, ObjectKey, depth) && key == JoinBlock(ValueTexts(k))
    requires AllDeep(b, depth + 1)
    requires line.kind == ObjectKey ==> b != []
    ensures FieldKeys(k + (b + rest), depth) == [key] + FieldKeys(rest, depth)
  {
    FieldKeysDeep(b, rest, depth);
    if line.kind == ObjectKey {
      assert (b + rest)[0] == b[0];
      FieldKeysRun(k, b + rest, depth);
    } else {
      assert (k + (b + rest))[0] == line && (k + (b + rest))[1..] == b + rest;
    }
  }

  /** How one item of a list splits the lines consumed: its own line, the deeper block below
      it, and the rest of the read. */
  lemma Compose(items: seq<LineRead>, p0: nat, p1: nat, p2: nat, p3: nat, line: Line, depth: nat)
    requires p0 <= p1 <= p2 <= p3 <= |items| && line.depth == depth
    requires Consumed(items, p0, p1) == [line]
    requires AllDeep(Consumed(items, p1, p2), depth + 1)
    ensures var rest := Consumed(items, p2, p3);
      (AllDeep(rest, depth) ==> AllDeep(Consumed(items, p0, p3), depth))
      && AtDepth(Consumed(items, p0, p3), depth) == [line] + AtDepth(rest, depth)
  {
    var mid := Consumed(items, p1, p2);
    var rest := Consumed(items, p2, p3);
    ConsumedSplit(items, p0, p1, p2);
    ConsumedSplit(items, p0, p2, p3);
    assert Consumed(items, p0, p3) == [line] + mid + rest;
    AtDepthNone(mid, depth);
    AtDepthConcat([line], mid, depth);
    AtDepthConcat([line] + mid, rest, depth);
    assert AtDepth([line], depth) == [line];
  }

  /** `vs` is `acc` followed by one element per item line of `top`, the item's own text where
      it has one. */
  predicate ElementsOf(vs: seq<Value>, acc: seq<Value>, top: seq<Line>) {
    |vs| == |acc| + |top| && vs[..|acc|] == acc
    && forall j :: 0 <= j < |top| && ValueText(top[j]) != "" ==> vs[|acc| + j] == Str(ValueText(top[j]))
  }

  lemma ElementsStep(vs: seq<Value>, acc: seq<Value>, v: Value, line: Line, top: seq<Line>)
    requires ElementsOf(vs, acc + [v], top)
    requires ValueText(line) != "" ==> v == Str(ValueText(line))
    ensures ElementsOf(vs, acc, [line] + top)
  {
    assert vs[..|acc|] == (acc + [v])[..|acc|];
    assert vs[|acc|] == (acc + [v])[|acc|];
    forall j | 1 <= j < |[line] + top| && ValueText(([line] + top)[j]) != ""
      ensures vs[|acc| + j] == Str(ValueText(([line] + top)[j]))
    {
      assert ([line] + top)[j] == top[j - 1];
      assert |acc + [v]| + (j - 1) == |acc| + j;
    }
  }

  /** `_read_value` consumes only lines at least as deep as the block it reads. */
  lemma {:induction false} ValueAtDeep(items: seq<LineRead>, c: Cursor, depth: nat, onDup: string)
    requires CursorOk(items, c) && c.next.Some? && depth <= c.next.value.depth
    requires ValueAt(items, c, depth, onDup).Ok?
    ensures AllDeep(Consumed(items, Pos(c), Pos(ValueAt(items, c, depth, onDup).value.1)), depth)
    decreases Rank(items, c), 1
  {
    match c.next.value.kind
    case StringLine => StringJoins(items, c, depth, []);
    case ListItem => ListShape(items, c, depth, onDup, []);
    case ObjectItem => ObjectShape(items, c, depth, onDup, []);
    case ObjectKey => ObjectShape(items, c, depth, onDup, []);
    case InlineContainer => StepConsumes(items, c);
  }

  /** The block below an item whose line has no text of its own is deeper than the item. */
  lemma {:induction false} ItemValueDeep(items: seq<LineRead>, c: Cursor, depth: nat, onDup: string, value: Option<string>, afterKey: bool)
    requires CursorOk(items, c)
    requires ItemValueAt(items, c, depth, onDup, value, afterKey).Ok?
    ensures AllDeep(Consumed(items, Pos(c), Pos(ItemValueAt(items, c, depth, onDup, value, afterKey).value.1)), depth + 1)
    decreases Rank(items, c), 2
  {
    if !(value.Some? && value.value != "") && c.next.Some? && c.next.value.depth > depth {
      ValueAtDeep(items, c, c.next.value.depth, onDup);
    }
  }

  /** `_read_list` consumes lines at least `depth` deep; those at `depth` are list items, one
      per element, and an item with a text of its own becomes that string. */
  lemma {:induction false} ListShape(items: seq<LineRead>, c: Cursor, depth: nat, onDup: string, acc: seq<Value>)
    requires CursorOk(items, c)
    requires ListAt(items, c, depth, onDup, acc).Ok?
    ensures var r := ListAt(items, c, depth, onDup, acc).value;
      var ls := Consumed(items, Pos(c), Pos(r.1));
      var top := AtDepth(ls, depth);
      AllDeep(ls, depth) && (forall i :: 0 <= i < |top| ==> top[i].kind == ListItem)
      && ElementsOf(r.0.items, acc, top)
    decreases Rank(items, c), 0
  {
    if c.next.Some? && c.next.value.depth >= depth {
      var line, c1, v, c2 := ListUnfold(items, c, depth, onDup, acc);
      StepConsumes(items, c);
      ItemValueDeep(items, c1, depth, onDup, line.value, false);
      ListShape(items, c2, depth, onDup, acc + [v]);
      var r := ListAt(items, c2, depth, onDup, acc + [v]).value;
      Compose(items, Pos(c), Pos(c1), Pos(c2), Pos(r.1), line, depth);
      ElementsStep(r.0.items, acc, v, line, AtDepth(Consumed(items, Pos(c2), Pos(r.1)), depth));
    }
  }

  /** A list read that goes on past its first line reads one item and then the rest. */
  lemma {:induction false} ListUnfold(items: seq<LineRead>, c: Cursor, depth: nat, onDup: string, acc: seq<Value>)
      returns (line: Line, c1: Cursor, v: Value, c2: Cursor)
    requires CursorOk(items, c)
    requires ListAt(items, c, depth, onDup, acc).Ok?
    requires c.next.Some? && c.next.value.depth >= depth
    ensures Step(items, c) == Ok((line, c1)) && line.depth == depth && line.kind == ListItem
    ensures CursorOk(items, c1) && Pos(c1) > Pos(c)
    ensures ItemValueAt(items, c1, depth, onDup, line.value, false) == Ok((v, c2))
    ensures CursorOk(items, c2) && Pos(c2) >= Pos(c1)
    ensures ValueText(line) != "" ==> v == Str(ValueText(line))
    ensures ListAt(items, c, depth, onDup, acc) == ListAt(items, c2, depth, onDup, acc + [v])
  {
    line, c1 := Step(items, c).value.0, Step(items, c).value.1;
    v, c2 := ItemValueAt(items, c1, depth, onDup, line.value, false).value.0, ItemValueAt(items, c1, depth, onDup, line.value, false).value.1;
  }

  /** `_read_object` consumes lines at least `depth` deep; those at `depth` are object items
      and key lines, and the object's keys are exactly those stored before and the keys of the
      fields read. */
  lemma {:induction false} ObjectShape(items: seq<LineRead>, c: Cursor, depth: nat, onDup: string, acc: Entries)
    requires CursorOk(items, c) && UniqueKeys(acc)
    requires ObjectAt(items, c, depth, onDup, acc).Ok?
    ensures var r := ObjectAt(items, c, depth, onDup, acc).value;
      var ls := Consumed(items, Pos(c), Pos(r.1));
      var top := AtDepth(ls, depth);
      AllDeep(ls, depth) && FieldLines(top)
      && forall k :: HasKey(r.0.entries, k) <==> HasKey(acc, k) || k in FieldKeys(ls, depth)
    decreases Rank(items, c), 0
  {
    if c.next.Some? && c.next.value.depth >= depth {
      var line, key, c1, v, c2, acc' := ObjectUnfold(items, c, depth, onDup, acc);
      KeyRead(items, c, depth);
      ItemValueDeep(items, c1, depth, onDup, if line.kind == ObjectItem then line.value else None, line.kind == ObjectKey);
      if line.kind == ObjectKey {
        ConsumedHead(items, c1, Pos(c2));
      }
      AddFieldKeys(acc, key, v, onDup, line.lineno, depth);
      ObjectShape(items, c2, depth, onDup, acc');
      var r := ObjectAt(items, c2, depth, onDup, acc').value;
      FieldCompose(items, Pos(c), Pos(c1), Pos(c2), Pos(r.1), line, key, depth);
      var k := Consumed(items, Pos(c), Pos(c1));
      FieldLinesOf(k, line, depth);
      ObjectCombine(k, Consumed(items, Pos(c2), Pos(r.1)), Consumed(items, Pos(c), Pos(r.1)), depth, r.0.entries, acc, acc', key);
    }
  }

  /** Every line of `top` is an object item or a key line. */
  predicate FieldLines(top: seq<Line>) {
    forall i :: 0 <= i < |top| ==> top[i].kind == ObjectItem || top[i].kind == ObjectKey
  }

  /** The key lines of one field are object items or key lines. */
  lemma FieldLinesOf(k: seq<Line>, line: Line, depth: nat)
    requires line.kind == ObjectItem || line.kind == ObjectKey
    requires line.kind == ObjectItem ==> k == [line]
    requires line.kind == ObjectKey ==> Run(k, ObjectKey, depth)
    ensures FieldLines(k)
  {
  }

  /** One field's lines `k` followed by the rest of an object read: the shape of the rest
      extends to the whole. */
  lemma ObjectCombine(k: seq<Line>, rest: seq<Line>, ls: seq<Line>, depth: nat, entries: Entries, acc: Entries, acc': Entries, key: string)
    requires FieldLines(k) && AllDeep(rest, depth) && FieldLines(AtDepth(rest, depth))
    requires AllDeep(rest, depth) ==> AllDeep(ls, depth)
    requires AtDepth(ls, depth) == k + AtDepth(rest, depth)
    requires FieldKeys(ls, depth) == [key] + FieldKeys(rest, depth)
    requires forall x :: HasKey(acc', x) <==> HasKey(acc, x) || x == key
    requires forall x :: HasKey(entries, x) <==> HasKey(acc', x) || x in FieldKeys(rest, depth)
    ensures AllDeep(ls, depth) && FieldLines(AtDepth(ls, depth))
    ensures forall x :: HasKey(entries, x) <==> HasKey(acc, x) || x in FieldKeys(ls, depth)
  {
    var top := AtDepth(ls, depth);
    forall i | 0 <= i < |top| ensures top[i].kind == ObjectItem || top[i].kind == ObjectKey {
      if i >= |k| {
        assert top[i] == AtDepth(rest, depth)[i - |k|];
      }
    }
    FieldKeysStep(entries, acc, acc', key, FieldKeys(rest, depth));
  }

  /** An object read that goes on past its first line reads and stores one field and then the
      rest. */
  lemma {:induction false} ObjectUnfold(items: seq<LineRead>, c: Cursor, depth: nat, onDup: string, acc: Entries)
      returns (line: Line, key: string, c1: Cursor, v: Value, c2: Cursor, acc': Entries)
    requires CursorOk(items, c) && UniqueKeys(acc)
    requires ObjectAt(items, c, depth, onDup, acc).Ok?
    requires c.next.Some? && c.next.value.depth >= depth
    ensures line == c.next.value && line.depth == depth && (line.kind == ObjectItem || line.kind == ObjectKey)
    ensures KeyAt(items, c, depth).Ok? && KeyAt(items, c, depth).value == (key, c1)
    ensures CursorOk(items, c1) && Pos(c1) > Pos(c)
    ensures ItemValueAt(items, c1, depth, onDup, if line.kind == ObjectItem then line.value else None, line.kind == ObjectKey) == Ok((v, c2))
    ensures CursorOk(items, c2) && Pos(c2) >= Pos(c1)
    ensures line.kind == ObjectKey ==> c1.next.Some? && Pos(c2) > Pos(c1)
    ensures AddField(acc, key, v, onDup, line.lineno, depth) == Ok(acc') && UniqueKeys(acc')
    ensures ObjectAt(items, c, depth, onDup, acc) == ObjectAt(items, c2, depth, onDup, acc')
  {
    line := c.next.value;
    key, c1 := KeyAt(items, c, depth).value.0, KeyAt(items, c, depth).value.1;
    var value := if line.kind == ObjectItem then line.value else None;
    v, c2 := ItemValueAt(items, c1, depth, onDup, value, line.kind == ObjectKey).value.0, ItemValueAt(items, c1, depth, onDup, value, line.kind == ObjectKey).value.1;
    acc' := AddField(acc, key, v, onDup, line.lineno, depth).value;
  }

  /** The keys after a field are the keys before, that field's key, and those after it. */
  lemma FieldKeysStep(r: Entries, acc: Entries, acc': Entries, key: string, later: seq<string>)
    requires forall k :: HasKey(acc', k) <==> HasKey(acc, k) || k == key
    requires forall k :: HasKey(r, k) <==> HasKey(acc', k) || k in later
    ensures forall k :: HasKey(r, k) <==> HasKey(acc, k) || k in [key] + later
  {
  }

  /** After storing one field the keys are exactly those before and the field's key. */
  lemma AddFieldKeys(acc: Entries, key: string, v: Value, onDup: string, lineno: nat, depth: nat)
    requires UniqueKeys(acc) && AddField(acc, key, v, onDup, lineno, depth).Ok?
    ensures forall k :: HasKey(AddField(acc, key, v, onDup, lineno, depth).value, k) <==> HasKey(acc, k) || k == key
  {
    if !HasKey(acc, key) {
      assert Keys(acc + [(key, v)]) == Keys(acc) + [key];
    }
  }
}
