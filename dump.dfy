/** `dumps` of the complete module: Python data to NestedText. */
module NestedTextDump {
  import opened Wrappers
  import opened PyText
  import opened Values
  import opened NestedText
  import opened Layout

  // ----------------------------------------------------------------------------------------
  // `_render_key`

  /** The quote characters tried, in order: the double quote first when `s` holds a single one. */
  function QuoteOrder(s: string): (r: (char, char))
    ensures IsQuote(r.0) && IsQuote(r.1) && r.0 != r.1
    ensures '\'' !in s ==> r.0 == '\''
    ensures '\'' in s ==> r.0 == '"'
  {
    if '\'' in s then ('"', '\'') else ('\'', '"')
  }

  /** Whether the dict recogniser reads `q + s + q + ":"` back with the key `s`. */
  predicate QuoteWorks(s: string, q: char) {
    var m := MatchDictItem([q] + s + [q] + ":");
    m.Some? && m.value.key == s
  }

  /** `_render_key` with the test for surrounding whitespace given as `strip`'s result. */
  function RenderKeyBy(s: string, stripped: string): (r: Result<string, Error>) {
    if '\n' in s then Err(Error(KeyHasNewline, None))
    else if !NeedsQuotes(s, stripped) then Ok(s)
    else
      var qs := QuoteOrder(s);
      if QuoteWorks(s, qs.0) then Ok([qs.0] + s + [qs.0])
      else if QuoteWorks(s, qs.1) then Ok([qs.1] + s + [qs.1])
      else Err(Error(CannotDisambiguateKey, None))
  }

  /** `_render_key` as written: only spaces count as surrounding whitespace. */
  function RenderKeyAsWritten(s: string): (r: Result<string, Error>)
    ensures '\n' in s <==> r == Err(Error(KeyHasNewline, None))
    ensures r.Ok? ==> r.value == s || exists q :: IsQuote(q) && r.value == [q] + s + [q] && QuoteWorks(s, q)
  {
    RenderKeyBy(s, StripSpaces(s))
  }

  /** `_render_key` as evidently intended: any whitespace the reader would skip calls for quotes.
      A key is either written as it is, or between quotes the recogniser reads back. */
  function RenderKey(s: string): (r: Result<string, Error>)
    ensures '\n' in s <==> r == Err(Error(KeyHasNewline, None))
    ensures r.Ok? ==> r.value == s || exists q :: IsQuote(q) && r.value == [q] + s + [q] && QuoteWorks(s, q)
  {
    RenderKeyBy(s, Strip(s))
  }

  lemma TabKeyUnquoted()
    ensures RenderKeyAsWritten("a\t") == Ok("a\t")
  {
    var s := "a\t";
    assert TrailingIn(s, {' '}) == 0;
    assert RStripChars(s, {' '}) == s;
    assert LeadingChar(s, ' ') == 0;
    assert !HasPair(s, ':', ' ');
    assert !NeedsQuotes(s, StripSpaces(s));
  }

  lemma TabKeyLineRead()
    ensures MatchDictItem("a\t: x") == Some(DictMatch("", "a", Some("x")))
  {
    var line := "a\t: x";
    assert LeadingSpace(line[0..]) == 0;
    assert ClosingTail(line, "", 0) == None;
    assert line[1..] == "\t: x" && LeadingSpace(line[1..]) == 1;
    assert line[3..] == " x";
    assert ClosingTail(line, "", 1) == Some(Some("x"));
    assert FirstClose(line, "", 0) == Some(1);
    assert line[0..1] == "a";
  }

  /** The key `"a\t"` renders unquoted as written, and the line it makes reads the key `"a"`. */
  lemma RenderKeyAsWrittenLosesTab()
    ensures RenderKeyAsWritten("a\t") == Ok("a\t")
    ensures ClassifyContent("a\t: x") == (DictLine, "a", "x")
  {
    TabKeyUnquoted();
    TabKeyLineRead();
  }

  // ----------------------------------------------------------------------------------------
  // Reading a rendered key back

  /** A string that survives `strip()` whole starts and ends with a non-space. */
  lemma StripWhole(s: string)
    requires |Strip(s)| == |s| && s != []
    ensures !IsSpace(s[0]) && !IsSpace(s[|s| - 1])
  {
    var r := RStrip(s);
    assert |r| == |s| - TrailingSpace(s);
    assert |LStrip(r)| == |r| - LeadingSpace(r);
    assert r == s;
  }

  /** Two strings that agree up to a non-space character have the same leading whitespace. */
  lemma LeadingSpaceCommon(a: string, b: string, j: nat)
    requires j < |a| && j < |b| && !IsSpace(a[j])
    requires forall i :: 0 <= i <= j ==> a[i] == b[i]
    ensures LeadingSpace(a) == LeadingSpace(b)
  {
    LeadingSpaceAll(a);
    LeadingSpaceAll(b);
  }

  /** `x` starts with `s` and a colon. */
  predicate KeyThenColon(x: string, s: string) {
    |s| < |x| && x[..|s|] == s && x[|s|] == ':'
  }

  /** In an unquoted rendered key, no colon before the last one starts the tail. */
  lemma UnquotedNoEarlyTail(s: string, x: string, k: nat)
    requires !NeedsQuotes(s, Strip(s)) && k < |s| && KeyThenColon(x, s)
    ensures ColonTail(x, k) == None
  {
    StripWhole(s);
    assert x[|s| - 1] == s[|s| - 1];
    var n := LeadingSpace(x[k..]);
    LeadingSpaceAll(x[k..]);
    assert x[k..][|s| - 1 - k] == s[|s| - 1];
    assert k + n <= |s| - 1;
    var q := k + n;
    assert x[q] == s[q];
    if s[q] == ':' {
      assert x[q + 1..][0] == x[q + 1];
      if q + 1 < |s| {
        assert x[q + 1] == s[q + 1];
        assert s[q + 1] != ' ' by {
          assert !HasPair(s, ':', ' ');
        }
      }
    }
  }

  /** An unquoted rendered key followed by a colon tail is read back whole: no shorter key
      closes, and after the whole key comes the tail. */
  lemma UnquotedKeyMatch(s: string, x: string, v: Option<string>)
    requires '\n' !in s && !NeedsQuotes(s, Strip(s)) && KeyThenColon(x, s)
    requires ColonTail(x, |s|) == Some(v)
    ensures x[..0] == "" && MatchKey(x, "") == Some(DictMatch("", s, v))
  {
    forall b | 0 <= b < |s| ensures ClosingTail(x, "", b).None? {
      UnquotedNoEarlyTail(s, x, b);
      assert x[b..b] == "";
    }
    assert x[|s|..|s|] == "" && x[0..|s|] == s;
    assert forall i :: 0 <= i < |s| ==> x[i] == s[i];
    MatchKeyFirst(x, "", |s|);
  }

  /** Between quotes, the lazy key always finds an end by the closing quote at the latest. */
  lemma QuotedSome(s: string, q: char)
    requires '\n' !in s
    ensures var x := [q] + s + [q] + ":";
      x[..1] == [q] && MatchKey(x, [q]).Some?
  {
    var x := [q] + s + [q] + ":";
    assert forall i :: 1 <= i < 1 + |s| ==> x[i] == s[i - 1];
    assert x[1 + |s|..2 + |s|] == [q];
    assert x[2 + |s|..] == "" + ":" + "";
    ColonTailOf(x, 2 + |s|, "", None);
    FirstCloseFinds(x, [q], 1, 1 + |s|);
  }

  /** The quoted alternative reads a key `_render_key` put between the quote `q` whole: the
      quoted alternative always succeeds, so it is the one `QuoteWorks` found. */
  lemma QuotedKeyMatch(s: string, q: char)
    requires '\n' !in s && IsQuote(q) && QuoteWorks(s, q)
    ensures var x := [q] + s + [q] + ":";
      x[..1] == [q] && MatchKey(x, [q]) == Some(DictMatch([q], s, None))
  {
    var x := [q] + s + [q] + ":";
    QuotedSome(s, q);
    assert MatchDictItem(x) == MatchKey(x, [q]);
    var m := MatchDictItem(x).value;
    assert m.quote == [q] && m.key == s;
    assert Decomposes(x, m);
    assert x[|s| + 2..] == "" + ":" + "";
    ColonTailOf(x, |s| + 2, "", None);
  }

  /** Inside `u` the tail can start on `u + ": " + t` only where it starts on `u + ":"`. */
  lemma ColonTailExtend(u: string, t: string, p: nat)
    requires p <= |u| && '\n' !in t
    ensures ColonTail(u + ": " + t, p).Some? ==> ColonTail(u + ":", p).Some?
  {
    var x := u + ":";
    var y := u + ": " + t;
    LeadingSpaceCommon(x[p..], y[p..], |u| - p);
    var q := p + LeadingSpace(x[p..]);
    assert q <= |u|;
    if q < |u| && u[q] == ':' && q + 1 < |u| {
      assert x[q + 1..] == u[q + 1..] + ":";
      assert y[q + 1..] == u[q + 1..] + ": " + t;
      assert x[q + 1..][1..] == u[q + 2..] + ":";
      assert y[q + 1..][1..] == u[q + 2..] + ": " + t;
    }
  }

  /** Where the key found on `u + ":"` ends with `u`, the same key closes on `u + ": " + t`. */
  lemma ExtendFinal(u: string, t: string, quote: string, b: nat)
    requires b + |quote| == |u| && u[b..] == quote && '\n' !in t
    ensures ClosingTail(u + ": " + t, quote, b) == Some(Some(t))
  {
    var y := u + ": " + t;
    assert y[b..b + |quote|] == u[b..];
    assert y[|u|..] == "" + ":" + " " + t;
    ColonTailOf(y, |u|, "", Some(t));
  }

  /** A key length that fails to close on `u + ":"` inside `u` fails on `u + ": " + t` too. */
  lemma ExtendEarly(u: string, t: string, quote: string, b: nat)
    requires b + |quote| <= |u| && '\n' !in t && ClosingTail(u + ":", quote, b).None?
    ensures ClosingTail(u + ": " + t, quote, b).None?
  {
    var x := u + ":";
    var y := u + ": " + t;
    assert y[b..b + |quote|] == u[b..b + |quote|] == x[b..b + |quote|];
    ColonTailExtend(u, t, b + |quote|);
  }

  /** A line the dict recogniser matches, and that is no list item or string line, is a dict
      item with the key and value the match found. */
  lemma ClassifyDictItem(x: string, m: DictMatch)
    requires !Marked(x, '-') && !Marked(x, '>') && MatchDictItem(x) == Some(m)
    ensures ClassifyContent(x) == (DictLine, m.key, m.value.GetOr(""))
  {
  }

  /** An unquoted key followed by a colon is neither a list item nor a string line. */
  lemma UnquotedUnmarked(s: string, x: string)
    requires !NeedsQuotes(s, Strip(s)) && KeyThenColon(x, s)
    ensures !Marked(x, '-') && !Marked(x, '>')
  {
    if |s| >= 2 {
      assert x[..2] == s[..2];
    } else if |s| == 1 {
      assert x[0] == s[0];
    }
  }

  /** An unquoted key followed by a colon tail is classified as a dict item with that key. */
  lemma UnquotedClassify(s: string, x: string, v: Option<string>)
    requires '\n' !in s && !NeedsQuotes(s, Strip(s)) && KeyThenColon(x, s)
    requires ColonTail(x, |s|) == Some(v)
    ensures ClassifyContent(x) == (DictLine, s, v.GetOr(""))
  {
    UnquotedKeyMatch(s, x, v);
    UnquotedUnmarked(s, x);
    assert x[0] == (if s == [] then ':' else s[0]);
    assert MatchDictItem(x) == MatchKey(x, "");
    ClassifyDictItem(x, DictMatch("", s, v));
  }

  /** A key written as it is reads back as itself, bare or with a value. */
  lemma UnquotedReadsBack(s: string, t: string)
    requires '\n' !in s && '\n' !in t && !NeedsQuotes(s, Strip(s))
    ensures !IsSpace((s + ":")[0]) && (s + ":")[0] != '#'
    ensures ClassifyContent(s + ":") == (DictLine, s, "")
    ensures ClassifyContent(s + ": " + t) == (DictLine, s, t)
  {
    UnquotedBare(s);
    UnquotedValued(s, t);
    if s != [] {
      StripWhole(s);
      assert (s + ":")[0] == s[0];
    }
  }

  lemma UnquotedBare(s: string)
    requires '\n' !in s && !NeedsQuotes(s, Strip(s))
    ensures ClassifyContent(s + ":") == (DictLine, s, "")
  {
    var x := s + ":";
    assert x[..|s|] == s && x[|s|..] == "" + ":" + "";
    ColonTailOf(x, |s|, "", None);
    UnquotedClassify(s, x, None);
  }

  lemma UnquotedValued(s: string, t: string)
    requires '\n' !in s && '\n' !in t && !NeedsQuotes(s, Strip(s))
    ensures ClassifyContent(s + ": " + t) == (DictLine, s, t)
  {
    var x := s + ": " + t;
    assert x[..|s|] == s && x[|s|..] == "" + ":" + (" " + t);
    ColonTailOf(x, |s|, "", Some(t));
    UnquotedClassify(s, x, Some(t));
  }

  /** Where the quoted key sits in `[q] + s + [q] + ": " + t`. */
  lemma QuotedShape(s: string, q: char, t: string)
    ensures ([q] + s + [q])[1 + |s|..] == [q]
    ensures var y := [q] + s + [q] + ": " + t;
      y[..1] == [q] && y[1..1 + |s|] == s && forall i :: 1 <= i < 1 + |s| ==> y[i] == s[i - 1]
  {
    var y := [q] + s + [q] + ": " + t;
    assert y[..|s| + 2] == [q] + s + [q];
  }

  /** A quoted key followed by a bare colon is classified as a dict item with that key. */
  lemma QuotedBare(s: string, q: char)
    requires '\n' !in s && IsQuote(q) && QuoteWorks(s, q)
    ensures var r := [q] + s + [q];
      (r + ":")[0] == q && ClassifyContent(r + ":") == (DictLine, s, "")
      && (r + ":")[..1] == [q] && MatchKey(r + ":", [q]) == Some(DictMatch([q], s, None))
  {
    var r := [q] + s + [q];
    QuotedKeyMatch(s, q);
    assert (r + ":")[0] == q;
    assert MatchDictItem(r + ":") == MatchKey(r + ":", [q]);
    ClassifyDictItem(r + ":", DictMatch([q], s, None));
  }

  /** The quoted key found on `r + ":"` is found again on `r + ": " + t`, now with the value
      `t`: every shorter key still fails, and the same key closes with `t` as its tail. */
  lemma QuotedValued(s: string, q: char, t: string)
    requires '\n' !in s && '\n' !in t && IsQuote(q) && QuoteWorks(s, q)
    ensures var y := [q] + s + [q] + ": " + t;
      y[..1] == [q] && MatchKey(y, [q]) == Some(DictMatch([q], s, Some(t)))
  {
    var r := [q] + s + [q];
    QuotedBare(s, q);
    var e := FirstClose(r + ":", [q], 1).value;
    assert e == 1 + |s|;
    forall b | 1 <= b < 1 + |s| ensures ClosingTail(r + ": " + t, [q], b).None? {
      ExtendEarly(r, t, [q], b);
    }
    QuotedShape(s, q, t);
    ExtendFinal(r, t, [q], 1 + |s|);
    MatchKeyFirst(r + ": " + t, [q], 1 + |s|);
  }

  /** A key written between quotes reads back as the key inside them, bare or with a value. */
  lemma QuotedReadsBack(s: string, q: char, t: string)
    requires '\n' !in s && '\n' !in t && IsQuote(q) && QuoteWorks(s, q)
    ensures var r := [q] + s + [q];
      !IsSpace((r + ":")[0]) && (r + ":")[0] != '#'
      && ClassifyContent(r + ":") == (DictLine, s, "")
      && ClassifyContent(r + ": " + t) == (DictLine, s, t)
  {
    var r := [q] + s + [q];
    QuotedBare(s, q);
    QuotedValued(s, q, t);
    var y := r + ": " + t;
    assert y[0] == q;
    assert MatchDictItem(y) == MatchKey(y, [q]);
    ClassifyDictItem(y, DictMatch([q], s, Some(t)));
  }

  /** Quotes and a colon around a key bring no line break. */
  lemma WrappedNoBreak(s: string, open: string, close: string)
    requires NoLineBreak(s) && NoLineBreak(open) && NoLineBreak(close)
    ensures NoLineBreak(open + s + close)
  {
    var w := open + s + close;
    forall i | 0 <= i < |w| ensures !IsLineBreak(w[i]) {
      if i < |open| {
        assert w[i] == open[i];
      } else if i < |open| + |s| {
        assert w[i] == s[i - |open|];
      } else {
        assert w[i] == close[i - |open| - |s|];
      }
    }
  }

  /** What the reader makes of a rendered key followed by a colon, bare or with a value: a
      dict item with the key as it was, on a line that is neither indentation nor a comment
      and that breaks no further than the key does. */
  lemma KeyReadsBack(s: string, t: string)
    requires RenderKey(s).Ok? && '\n' !in t
    ensures var r := RenderKey(s).value;
      !IsSpace((r + ":")[0]) && (r + ":")[0] != '#'
      && ClassifyContent(r + ":") == (DictLine, s, "")
      && ClassifyContent(r + ": " + t) == (DictLine, s, t)
      && (NoLineBreak(s) ==> NoLineBreak(r + ":"))
  {
    var r := RenderKey(s).value;
    if r == s {
      assert !NeedsQuotes(s, Strip(s));
      UnquotedReadsBack(s, t);
      if NoLineBreak(s) {
        WrappedNoBreak(s, "", ":");
        assert "" + s + ":" == r + ":";
      }
    } else {
      var q :| IsQuote(q) && r == [q] + s + [q] && QuoteWorks(s, q);
      QuotedReadsBack(s, q, t);
      if NoLineBreak(s) {
        WrappedNoBreak(s, [q], [q] + ":");
        assert [q] + s + ([q] + ":") == r + ":";
      }
    }
  }

  // ----------------------------------------------------------------------------------------
  // `sorted` on dict keys

  function InsertEntry(e: (string, Value), s: Entries): (r: Entries)
    ensures multiset(r) == multiset(s) + multiset{e}
  {
    if s == [] || StrLe(e.0, s[0].0) then [e] + s
    else
      assert s == [s[0]] + s[1..];
      [s[0]] + InsertEntry(e, s[1..])
  }

  /** The entries in the order `sorted` puts their keys in. */
  function SortEntries(es: Entries): (r: Entries)
    ensures multiset(r) == multiset(es)
  {
    if es == [] then []
    else
      assert es == [es[0]] + es[1..];
      InsertEntry(es[0], SortEntries(es[1..]))
  }

  predicate SortedByKey(es: Entries) {
    forall i, j :: 0 <= i < j < |es| ==> StrLe(es[i].0, es[j].0)
  }

  lemma {:induction false} InsertSorted(e: (string, Value), s: Entries)
    requires SortedByKey(s)
    ensures SortedByKey(InsertEntry(e, s))
  {
    if s != [] && !StrLe(e.0, s[0].0) {
      StrLeTotal(e.0, s[0].0);
      InsertSorted(e, s[1..]);
      var t := InsertEntry(e, s[1..]);
      forall j | 0 <= j < |t| ensures StrLe(s[0].0, t[j].0) {
        assert t[j] in multiset(t);
        if t[j] != e {
          assert t[j] in multiset(s[1..]);
          var k :| 0 <= k < |s[1..]| && s[1..][k] == t[j];
          assert s[k + 1] == t[j];
        }
      }
      assert InsertEntry(e, s) == [s[0]] + t;
    } else if s != [] {
      forall j | 1 <= j < |s| + 1 ensures StrLe(e.0, ([e] + s)[j].0) {
        if j > 1 {
          StrLeTrans(e.0, s[0].0, s[j - 1].0);
        }
      }
    }
  }

  /** `sorted` yields the entries with their keys in ascending order, each entry once. */
  lemma {:induction false} SortEntriesSorted(es: Entries)
    ensures SortedByKey(SortEntries(es)) && multiset(SortEntries(es)) == multiset(es)
  {
    if es != [] {
      SortEntriesSorted(es[1..]);
      InsertSorted(es[0], SortEntries(es[1..]));
    }
  }

  // ----------------------------------------------------------------------------------------
  // `dumps`

  /** The keyword arguments of `dumps` the model keeps: `sort_keys` as a flag, `indent`, and
      whether `default` is `'strict'`. */
  datatype DumpOptions = DumpOptions(sortKeys: bool, indent: int, strict: bool)

  /** `is_a_dict`: in strict mode an empty dict below the top level does not count. */
  predicate IsADict(v: Value, strict: bool, level: nat) {
    v.Dct? && (!strict || v.entries != [] || level == 0)
  }

  predicate IsAList(v: Value, strict: bool, level: nat) {
    v.Lst? && (!strict || v.items != [] || level == 0)
  }

  /** The last step of `dumps`: below the top level, a block goes on the lines after its item,
      indented one more level. */
  function Indented(content: string, block: bool, indent: nat, level: nat): string {
    if block && content != "" && level > 0 then "\n" + AddLeader(content, Spaces(indent)) else content
  }

  /** `dumps` as evidently intended, with no `renderers` and no callable `default`: `is_mapping`,
      `is_collection` and `is_str` taken as "is a dict", "is a list or dict" and "is a str". */
  function Dumps(v: Value, opts: DumpOptions, level: nat): (r: Result<string, Error>)
    ensures opts.indent <= 0 ==> r == Err(Error(IndentNotPositive, None))
    ensures opts.indent > 0 && v.Str? ==> r.Ok?
    ensures opts.indent > 0 && !opts.strict && (v.Null? || v == Lst([]) || v == Dct([])) ==> r == Ok("")
    ensures opts.indent > 0 && opts.strict && v.Null? ==> r == Err(Error(UnsupportedType, None))
    ensures opts.indent > 0 && opts.strict && level > 0 && (v == Lst([]) || v == Dct([])) ==> r == Err(Error(UnsupportedType, None))
    decreases v, 2, 0
  {
    if opts.indent <= 0 then Err(Error(IndentNotPositive, None))
    else
      var collection := v.Lst? || v.Dct?;
      if IsADict(v, opts.strict, level) then
        var es := if opts.sortKeys then SortEntries(v.entries) else v.entries;
        assert forall i :: 0 <= i < |es| ==> es[i] in v.entries by {
          forall i | 0 <= i < |es| ensures es[i] in v.entries {
            assert es[i] in multiset(es);
          }
        }
        var parts :- DumpEntries(v, es, opts, level);
        Ok(Indented(Join("\n", parts), collection, opts.indent, level))
      else if IsAList(v, opts.strict, level) then
        var parts :- DumpItems(v, 0, opts, level);
        Ok(Indented(Join("\n", parts), collection, opts.indent, level))
      else if v.Str? then
        var text := NormalizeNewlines(v.text);
        if '\n' in text || level == 0 then Ok(Indented(AddLeader(text, "> "), true, opts.indent, level))
        else Ok(Indented(text, collection, opts.indent, level))
      else if v.Null? && !opts.strict then Ok(Indented("", collection, opts.indent, level))
      else Err(Error(UnsupportedType, None))
  }

  /** The dict branch: one `key:` item per entry, its value rendered a level deeper. */
  function DumpEntries(parent: Value, es: Entries, opts: DumpOptions, level: nat): (r: Result<seq<string>, Error>)
    requires parent.Dct? && forall i :: 0 <= i < |es| ==> es[i] in parent.entries
    ensures r.Ok? ==> |r.value| == |es|
    decreases parent, 1, |es|
  {
    if es == [] then Ok([])
    else
      var key :- RenderKey(es[0].0);
      var value :- Dumps(es[0].1, opts, level + 1);
      var rest :- DumpEntries(parent, es[1..], opts, level);
      Ok([AddPrefix(key + ":", value)] + rest)
  }

  /** The list branch: one `-` item per element, from element `i` on. */
  function DumpItems(parent: Value, i: nat, opts: DumpOptions, level: nat): (r: Result<seq<string>, Error>)
    requires parent.Lst? && i <= |parent.items|
    ensures r.Ok? ==> |r.value| == |parent.items| - i
    decreases parent, 1, |parent.items| - i
  {
    if i == |parent.items| then Ok([])
    else
      var value :- Dumps(parent.items[i], opts, level + 1);
      var rest :- DumpItems(parent, i + 1, opts, level);
      Ok([AddPrefix("-", value)] + rest)
  }

  /** `dumps` as written: the non-strict branch binds the undefined `is_mapping`, and the strict
      one reaches the undefined `is_collection` once `indent` passes its check. */
  function DumpsAsWritten(v: Value, opts: DumpOptions, level: nat): (r: Result<string, Error>)
    ensures r.Err?
    ensures !opts.strict ==> r.error.kind.UndefinedName?
  {
    if !opts.strict then Err(Error(UndefinedName("is_mapping"), None))
    else if opts.indent <= 0 then Err(Error(IndentNotPositive, None))
    else Err(Error(UndefinedName("is_collection"), None))
  }

  /** Without `default='strict'` every call fails on the undefined `is_mapping`, even for a
      plain string, which the evident reading renders as a string line. */
  lemma DumpsAsWrittenRejectsString()
    ensures DumpsAsWritten(Str("a"), DumpOptions(false, 4, false), 0) == Err(Error(UndefinedName("is_mapping"), None))
    ensures Dumps(Str("a"), DumpOptions(false, 4, false), 0) == Ok("> a")
  {
    SplitNoSep("a", '\n');
    assert "> " + "a" == "> a";
    assert Lead(["a"], "> ") == ["> a"];
    assert AddLeader("a", "> ") == "> a";
    assert NormalizeNewlines("a") == "a";
  }
}
