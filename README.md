# NestedText reader and writer, modelled in Dafny

NestedText is a line-based data format. A document is made of lines of four sorts:
- `- value` list items;
- `key: value` dict items;
- `> text` string lines;
- blank and comment lines.

Indentation nests one value under another. The repository holds two versions of the Python implementation, and this project models the core of each.

- **`nestedtext.py`, the complete module** (modules `NestedText`, `ReaderProps`, `NestedTextDump`, `RoundTrip`, `ReadBack`).
  - The line generator `_read_lines`, as written and as corrected: line kinds, depth, key and value, and the indentation check. As written, every line records no previous content line (`prev_line=None`). The corrected generator records the last content line before it, which `_indentation_error` needs (see Findings). The reader below runs on the corrected generator.
  - The peekable iterator `_LinesIter`.
  - The recursive reader `_read_value` / `_read_list` / `_read_dict` / `_read_string` / `_read_all`, with the duplicate-key policies of `on_dup`.
  - `loads`.
  - `_render_key`, `_add_leader`, `_add_prefix` and `dumps` for strings, lists, dicts and `None`, each as written and as evidently intended (see Findings).
  - The round trip `loads(dumps(v)) == v`, proved for the corrected `dumps` and `_render_key` (any surrounding whitespace forces quotes), with `sort_keys=False`, for every value `dumps` can represent.
- **`src/nestedtext.py`, the rewrite** (modules `NestedTextSrc`, `ParserProps`).
  - `NestedtextError` and the text it builds.
  - `DuplicateFieldBehaviour`.
  - `_read_line`, with its invalid lines and their columns.
  - `_LinesIter`.
  - The class `_Parser` with `parse`, `_read_value`, `_read_string`, `_read_list`, `_read_object`, `_read_object_key` and `_read_inline_container`.
  - `loads` and `_render_key`.
  - `ParserProps`: what each `_read_*` method consumes and what it returns, stated over the content lines it reads.
- **Shared by both** (modules `Layout`, `PyText`, `Values`, `Wrappers`).
  - `Layout`: `_add_leader` and `_add_prefix`, which the two files write identically.
  - `PyText`: the Python string operations the code relies on, such as `strip`, `split`, `splitlines` and the lazy regular-expression key.
  - `Values`: NestedText values.
  - `Wrappers`: `Option` and `Result`.

How the model is built:

- **Values.** A value is `Str`, `Lst` or `Dct`, plus `Null` for Python's `None`. A dict is an association list that keeps insertion order, as a Python `dict` does.
- **Errors.** Every raised `NestedTextError` / `NestedtextError` becomes an `Err` carrying the error kind and the line number; the rewrite's errors also carry the column. The complete module's `_report` actually drops the line (see "## Left out"); the model keeps it, as that class's documentation describes. Iterators running dry (`StopIteration`) are errors too.
- **The reader.** Functions over the classified lines: a cursor stands for the iterator's state, and each function returns the value read together with the cursor after it. The iterator is also a `class` with the source's fields (`items`, `gen`, `nextLine`). The reading methods mutate it and are proved to agree with the functions.

## Model

| member | source | states |
|---|---|---|
| PyText.ColonTailOf | nestedtext.py:172-180 | the tail `\s*:(?: (.*))?` of the dict pattern matches exactly when only whitespace lies before a colon that ends the text or is followed by a space, and the value group is what follows that space |
| NestedText.FirstClose | nestedtext.py:172-180 | the lazy key ends at a position after which the closing quote and the colon tail match, and no earlier position in range allows that |
| NestedText.FirstCloseFinds | nestedtext.py:172-180 | if some key length lets the rest match, the lazy search finds an end |
| NestedText.MatchKey | nestedtext.py:172-180 | a match with a given quote group splits the subject into quote, key, quote and colon tail |
| NestedText.MatchKeyFirst | nestedtext.py:172-180 | the key `fullmatch` returns is the shortest one after which the rest matches, with that tail's value group |
| NestedText.MatchDictItemSound | nestedtext.py:172-180 | every match of the dict recogniser decomposes its subject, and the quote is empty, `"` or `'` |
| NestedText.ClassifyLine | nestedtext.py:257-303 | a classified line keeps its text minus trailing newlines and its 1-based number; blank and comment lines have depth 0; any other line's depth is its leading whitespace, which is shorter than its text |
| NestedText.ClassifyLineKinds | nestedtext.py:264-275 | a line of whitespace is blank; a line whose first non-space is `#` is a comment; nothing else is either |
| NestedText.IndentError | nestedtext.py:307-315 | a content line is rejected exactly when its indentation holds something other than a space; the error names the first such character, and the model's error carries the line number |
| NestedText.IndentErrorIsWhitespace | nestedtext.py:307-315 | the character an indentation error reports is always whitespace other than a space |
| NestedText.ClassifiedSnoc | nestedtext.py:257-317 | classifying one more raw line appends exactly that line, classified with its number and previous content line, to what came before |
| NestedText.Items | nestedtext.py:255-319 | the corrected generator yields one line per raw line, numbered from 1 and recording the last content line before it, then the EOF sentinel |
| NestedText.ItemsAsWritten | nestedtext.py:295-305 | as written, the generator yields one line per raw line, numbered from 1, each with no previous content line, then the sentinel |
| NestedText.ItemsTerminated | nestedtext.py:317-319 | the generator's output ends with the single EOF sentinel, and every depth lies within its line |
| NestedText.LastContentStep | nestedtext.py:304-305 | the previous content line moves on past every line that is neither blank nor a comment and stays put past the others |
| NestedText.ReadLines | nestedtext.py:255-319 | the loop that carries `prev_line` from line to line yields the corrected output: each line with the last content line before it |
| NestedText.NextContent | nestedtext.py:321-326 | advancing skips exactly the blank and comment lines; it stops on the sentinel only at the end; a line it stops on has clean indentation; otherwise it raises that line's indentation error |
| NestedText.Step | nestedtext.py:245-253 | `__next__` hands out the held line and holds the next content line; it raises `StopIteration` once the sentinel has been handed out, and an error on an unrecognised line |
| NestedText.LinesIter.constructor | nestedtext.py:238-240 | the iterator starts over the generator's output, which has not yet run |
| NestedText.LinesIter.GenNext | nestedtext.py:321-326 | one generator step: the next line, or the indentation error that line raises |
| NestedText.LinesIter.Advance | nestedtext.py:321-326 | the loop of `_advance_to_next_content_line` ends where `NextContent` says, with the same line or error |
| NestedText.LinesIter.Start | nestedtext.py:238-240 | `__init__` holds the first content line |
| NestedText.LinesIter.Next | nestedtext.py:245-253 | `__next__` changes the iterator as `Step` says and returns the line or error `Step` gives |
| NestedText.IndentationError | nestedtext.py:187-213 | the model's error carries the offending line's number; with no previous content line it is the top-level column-1 message at depth 0 and "invalid indentation" elsewhere; a partial dedent is reported only after a deeper line |
| NestedText.ValueAt | nestedtext.py:332-339 | a value read leaves a sound cursor that has not moved back; below the top level it never ends on the end of input |
| NestedText.ItemValueAt | nestedtext.py:352-383 | an item's own text when it has one; "" when the next line is no deeper; otherwise the deeper block |
| NestedText.ListAt | nestedtext.py:342-363 | a list read ends at a line shallower than its depth |
| NestedText.AddItem | nestedtext.py:384-395 | a new key is appended; a repeat raises "duplicate key" without a policy, is dropped under "ignore", and under "replace" takes the new value in the old place; any other string raises the `ValueError` for an unknown policy; keys stay unique |
| NestedText.AddItemKeeps | nestedtext.py:384-395 | storing an item loses no key and brings in no `None` |
| NestedText.DictAt | nestedtext.py:366-396 | a dict read has unique keys, keeps every key stored before, and ends at a shallower line |
| NestedText.StringAt | nestedtext.py:399-408 | a string read stops at the first line that is not a string line at its depth or deeper; a string line deeper than expected is an indentation error |
| NestedText.Document | nestedtext.py:411-419 | `_read_all` returns `None` only when the first content line is the sentinel, and otherwise a value holding no `None` |
| NestedText.Read | nestedtext.py:411-419 | no lines read as `None`; a value read from lines holds no `None` unless it is the whole document's |
| NestedText.Loaded | nestedtext.py:422-524 | empty content loads as `None`; a loaded value holds no `None` unless it is the whole document's |
| NestedText.ReadValue | nestedtext.py:332-339 | `_read_value` on the iterator returns what `ValueAt` gives and leaves the iterator where `ValueAt` says |
| NestedText.ReadItemValue | nestedtext.py:352-383 | the item-value step on the iterator agrees with `ItemValueAt` |
| NestedText.ReadList | nestedtext.py:342-363 | `_read_list`'s loop agrees with `ListAt` |
| NestedText.ReadDict | nestedtext.py:366-396 | `_read_dict`'s loop agrees with `DictAt` |
| NestedText.ReadString | nestedtext.py:399-408 | `_read_string`'s loop agrees with `StringAt` |
| NestedText.ReadAll | nestedtext.py:411-419 | `_read_all` on the iterator gives the document the reader functions read |
| NestedText.Loads | nestedtext.py:422-524 | `loads` reads the document made of `content.splitlines()` |
| ReaderProps.SkipToEnd | nestedtext.py:321-326 | with only blank and comment lines left, the iterator holds the sentinel |
| ReaderProps.EmptyDocument | nestedtext.py:411-419 | a document reads as `None` if and only if every line is blank or a comment |
| ReaderProps.StepConsumes | nestedtext.py:245-253 | one `__next__` consumes the held line and nothing else |
| ReaderProps.ValueAtDeep | nestedtext.py:332-408 | reading a value consumes only lines at least as deep as its block |
| ReaderProps.ItemValueDeep | nestedtext.py:352-383 | the block below a valueless item is deeper than the item |
| ReaderProps.ListShape | nestedtext.py:342-363 | a list's lines at its depth are all list items; the list has one element per item, its own text where it has one, and every other line read is deeper |
| ReaderProps.DictShape | nestedtext.py:366-396 | a dict's lines at its depth are all dict items; the dict's keys are exactly their keys and those stored before, and every other line read is deeper |
| ReaderProps.AddItemKeys | nestedtext.py:384-395 | after a store the keys are exactly those before plus the new key |
| ReaderProps.StringJoins | nestedtext.py:399-408 | a string read consumes only string lines at its depth, and the value is their texts joined by newlines |
| ReaderProps.NestedAfterValue | nestedtext.py:295-305 | `- x` then `  - y` fails on line 2 with the "indent after an item with a value" message; as written, with no previous line recorded, it gives the top-level column-1 message instead |
| PyText.SplitLinesJoin | nestedtext.py:524 | `splitlines` gives back lines that were joined with newlines, when none is empty or holds a break |
| Layout.AddLeaderLines | nestedtext.py:640-647 | `_add_leader` keeps the number of lines; non-empty lines gain the leader in front, and empty ones become the right-stripped leader |
| Layout.AddLeaderJoin | nestedtext.py:640-647 | leading a join of non-empty lines leads each line |
| Layout.AddPrefix | nestedtext.py:650-656 | the result starts with the prefix; the suffix follows directly if and only if it is empty or starts with a newline, and after one space otherwise |
| NestedTextDump.RenderKeyAsWritten | nestedtext.py:611-637 | as written, a key is refused for a newline exactly when it holds one, and an accepted key is written bare or between a quote the recogniser reads back |
| NestedTextDump.RenderKey | nestedtext.py:611-637 | a key is refused for a newline exactly when it holds one; an accepted key is written bare or between a quote the recogniser reads back |
| NestedTextDump.RenderKeyAsWrittenLosesTab | nestedtext.py:616-624 | the key `a<tab>` passes unquoted as written, and the line `a<tab>: x` reads back the key `a` |
| NestedTextDump.KeyReadsBack | nestedtext.py:611-637 | a rendered key followed by `:`, bare or with a value, reads back as a dict item with the original key and value |
| NestedTextDump.InsertEntry | nestedtext.py:820-828 | inserting an entry adds exactly that entry to the multiset of entries |
| NestedTextDump.SortEntries | nestedtext.py:820-828 | the sorted entries are a permutation of the entries |
| NestedTextDump.SortEntriesSorted | nestedtext.py:820-828 | `sorted` yields the entries in ascending key order, each one once |
| NestedTextDump.DumpEntries | nestedtext.py:867-870 | the dict branch writes one item per entry |
| NestedTextDump.DumpItems | nestedtext.py:871-872 | the list branch writes one item per element |
| NestedTextDump.Dumps | nestedtext.py:856-896 | an indent below 1 is refused; a string always renders; without `default='strict'`, `None` and empty lists and dicts render as the empty text; with it, `None` is refused, and so are empty lists and dicts below the top level |
| NestedTextDump.DumpsAsWritten | nestedtext.py:835-842 | as written every call fails; without `default='strict'` it fails on an undefined name |
| NestedTextDump.DumpsAsWrittenRejectsString | nestedtext.py:835-842 | as written, `dumps("a")` fails on the undefined `is_mapping`; as intended it gives `> a` |
| RoundTrip.RepresentableNoNull | nestedtext.py:411-419 | a value `dumps` can represent holds no `None` |
| RoundTrip.DumpsLines | nestedtext.py:856-896 | `dumps` writes exactly the rendered lines of a representable value, indented per level |
| ReadBack.ReadRendered | nestedtext.py:255-419 | the reader takes the rendered lines of a representable value back to that value |
| ReadBack.DumpsLoads | nestedtext.py:659-896 | `loads(dumps(v)) == v` for the corrected `dumps` with `sort_keys=False`, for every representable value, under every duplicate-key policy |
| NestedTextSrc.Message | src/nestedtext.py:52-62 | every message is non-empty and colon-free, so the text it builds can be taken apart again |
| NestedTextSrc.IndexFrom | src/nestedtext.py:52-62 | the first occurrence of a character from a position on, or the length when there is none |
| NestedTextSrc.MessageRoundTrip | src/nestedtext.py:52-62 | `message: lineno:colno` gives back the message, the line number and the column (the column only with a line number) |
| NestedTextSrc.NumbersRoundTrip | src/nestedtext.py:52-62 | the decimal line and column numbers read back as themselves |
| NestedTextSrc.KeyEnd | src/nestedtext.py:187-189 | the lazy key `.+?` ends at a line-break-free position after which the colon tail matches, and at no earlier one |
| NestedTextSrc.KeyEndIs | src/nestedtext.py:187-189 | the key ends at the first position after which the tail matches |
| NestedTextSrc.MatchObjectItem | src/nestedtext.py:187-189 | a match gives a non-empty key free of line breaks, then whitespace, a colon and the optional value |
| NestedTextSrc.MatchObjectItemOf | src/nestedtext.py:187-189 | a key that does not end in whitespace, then whitespace, a colon and an optional space-led value, match as that key and value |
| NestedTextSrc.StripEmpty | src/nestedtext.py:155-156 | `line.strip()` is empty exactly for lines of whitespace |
| NestedTextSrc.ReadLineBlank | src/nestedtext.py:155-156 | whitespace-only lines, and only they, are blank, with depth 0 and no value |
| NestedTextSrc.ReadLineComment | src/nestedtext.py:158-162 | a comment may have any leading whitespace; its value is the text after `#` without the line ending |
| NestedTextSrc.ReadLineListItem | src/nestedtext.py:164-174 | `-` alone is a list item without a value; `- v` is one with value `v` without the line ending, at the depth of its spaces |
| NestedTextSrc.ReadLineMarked | src/nestedtext.py:175-182 | `> v` is a string line and `: v` an object-key line, with value `v` and its line ending |
| NestedTextSrc.ReadLineMarkedBare | src/nestedtext.py:175-182 | the marker alone leaves only the line ending as the value |
| NestedTextSrc.ReadLineObjectItem | src/nestedtext.py:185-195 | `key: value` becomes an object item with that key and value, at the depth of its spaces |
| NestedTextSrc.ReadLineKeyWithoutValue | src/nestedtext.py:185-195 | `  key2 :` is an object item with key `key2` and no value |
| NestedTextSrc.ReadLineShape | src/nestedtext.py:154-197 | every line keeps its text and number; a content line's depth is its leading spaces; an invalid line's column is where its indentation stops being spaces |
| NestedTextSrc.IgnorableLine | src/nestedtext.py:155-162 | whitespace-only lines and lines whose first non-whitespace is `#` are blank or comment lines |
| NestedTextSrc.TabInIndentation | src/nestedtext.py:164-169 | a tab after two spaces of indentation makes the line invalid, at column 2 |
| NestedTextSrc.MixtureLines | tests/nestedtext_test.py:8-30 | the test's valid mixture classifies line by line as list items (with and without values), a string line keeping its newline, and object items |
| NestedTextSrc.NextContent | src/nestedtext.py:199-207 | advancing skips exactly the blank and comment lines, holds `None` only at the end, and raises "invalid line" with the column on an invalid line |
| NestedTextSrc.Step | src/nestedtext.py:142-148 | `__next__` hands out the held line and moves on; it ends the iteration when nothing is held, and passes on the advancing error otherwise |
| NestedTextSrc.InvalidLineRaises | src/nestedtext.py:199-205 | advancing onto an invalid line past blank and comment lines raises "invalid line" with its line and column |
| NestedTextSrc.SkipToEnd | src/nestedtext.py:199-207 | with only blank and comment lines left, the iterator runs out |
| NestedTextSrc.LinesIter.constructor | src/nestedtext.py:135-137 | the iterator starts over the generator, which has not yet run |
| NestedTextSrc.LinesIter.GenNext | src/nestedtext.py:199-205 | one generator step: the next line, or "invalid line" on an invalid one |
| NestedTextSrc.LinesIter.Advance | src/nestedtext.py:199-207 | the advancing loop ends where `NextContent` says |
| NestedTextSrc.LinesIter.Start | src/nestedtext.py:135-137 | `__init__` holds the first content line |
| NestedTextSrc.LinesIter.Next | src/nestedtext.py:142-148 | `__next__` changes the iterator as `Step` says |
| NestedTextSrc.ValueAt | src/nestedtext.py:223-232 | a value read consumes at least one line, and it is `None` only from an inline container |
| NestedTextSrc.InlineAt | src/nestedtext.py:326-338 | the inline line is taken and gives `None`, or the advancing error |
| NestedTextSrc.ItemValueAt | src/nestedtext.py:257-300 | a non-empty value is the item's string; without one and with no deeper line, "" or, after a multi-line key, "expected value after multiline object key"; only a deeper block consumes lines |
| NestedTextSrc.ListAt | src/nestedtext.py:248-270 | a list read extends the items before it and ends at a shallower line or the end; its elements are given by `ParserProps.ListShape` |
| NestedTextSrc.AddField | src/nestedtext.py:301-311 | a new key is appended; on a repeat, "use_first" keeps the old value, "error" raises "duplicate key" at the line and depth, and any other policy, "use_last" among them, replaces the value in place; keys stay unique |
| NestedTextSrc.KeyAt | src/nestedtext.py:277-283 | reading a field's key consumes at least one line; which key it is is given by `ParserProps.KeyRead` |
| NestedTextSrc.ObjectAt | src/nestedtext.py:272-312 | an object read has unique keys, keeps those stored before, and ends at a shallower line or the end; which keys it holds is given by `ParserProps.ObjectShape` |
| NestedTextSrc.StringAt | src/nestedtext.py:234-246 | a string read stops at the first line that is not a string line at its depth or deeper; its value is given by `ParserProps.StringJoins` |
| NestedTextSrc.ObjectKeyAt | src/nestedtext.py:314-324 | a key read stops at the first line that is not a key line at exactly its depth; its value is given by `ParserProps.KeyJoins` |
| NestedTextSrc.JoinBlockLines | src/nestedtext.py:245-246 | lines that each end in a newline join into their texts separated by newlines; only the last line ending is stripped |
| NestedTextSrc.Document | src/nestedtext.py:217-221 | `parse` gives `None` only for lines that are all blank or comments, or when the first content line is an inline container |
| NestedTextSrc.EmptyDocument | src/nestedtext.py:217-221 | a document of blank and comment lines parses to `None`, and `None` comes only from such a document or an inline container |
| NestedTextSrc.BlankInput | src/nestedtext.py:217-221 | text of blank and comment lines loads as `None` under every policy |
| NestedTextSrc.TabbedList | src/nestedtext.py:164-205 | a list whose second line has a tab in its indentation fails with "invalid line" at 2:2 |
| NestedTextSrc.KeyNeedsValue | src/nestedtext.py:285-298 | a multi-line key with no deeper line after it raises "expected value after multiline object key" |
| NestedTextSrc.MultilineKey | src/nestedtext.py:281-324 | `: a` alone fails for want of a value; with `  > b` below, it is the field `a` with value `b` |
| NestedTextSrc.DuplicateFields | src/nestedtext.py:301-311 | `a: 1` then `a: 2`: "use_first" gives `{a: 1}`, "error" raises "duplicate key" at 2:0, and every other policy gives `{a: 2}` |
| NestedTextSrc.Loaded | src/nestedtext.py:355-358 | empty content loads as `None` |
| NestedTextSrc.Parser.constructor | src/nestedtext.py:214-215 | the parser keeps the policy it is given |
| NestedTextSrc.Parser.Parse | src/nestedtext.py:217-221 | `parse` returns the value the parser functions read from the lines |
| NestedTextSrc.Parser.ReadValue | src/nestedtext.py:223-232 | `_read_value` agrees with `ValueAt` and leaves the iterator where it says |
| NestedTextSrc.Parser.ReadInlineContainer | src/nestedtext.py:326-338 | `_read_inline_container` agrees with `InlineAt` |
| NestedTextSrc.Parser.ReadItemValue | src/nestedtext.py:257-300 | the item-value step of `_read_list` and `_read_object` agrees with `ItemValueAt` |
| NestedTextSrc.Parser.ReadList | src/nestedtext.py:248-270 | `_read_list`'s loop agrees with `ListAt` |
| NestedTextSrc.Parser.ReadObject | src/nestedtext.py:272-312 | `_read_object`'s loop agrees with `ObjectAt` |
| NestedTextSrc.Parser.ReadString | src/nestedtext.py:234-246 | `_read_string`'s loop agrees with `StringAt` |
| NestedTextSrc.Parser.ReadObjectKey | src/nestedtext.py:314-324 | `_read_object_key`'s loop agrees with `ObjectKeyAt` |
| NestedTextSrc.Loads | src/nestedtext.py:355-358 | `loads` parses the lines `io.StringIO` yields |
| PyText.StreamLinesConcat | src/nestedtext.py:358 | the lines `io.StringIO` yields concatenate back to the content |
| PyText.StreamLinesShape | src/nestedtext.py:358 | each yielded line is non-empty, and only the last may lack a newline |
| NestedTextSrc.RenderKeyAsWrittenAcceptsBracket | src/nestedtext.py:377-403 | the key `[a` passes as written, yet the line `[a: b` reads back as an inline container |
| NestedTextSrc.RenderedKeyReadsBack | src/nestedtext.py:377-403 | the corrected check accepts only keys that read back: an accepted key followed by `:` and a one-line value reads back as an object item with that key and value |
| ParserProps.StepConsumes | src/nestedtext.py:142-148 | one `__next__` consumes the held line and nothing else |
| ParserProps.StringJoins | src/nestedtext.py:234-246 | a string read consumes only string lines at its depth, and the value is their texts (with line endings) joined, the last line ending stripped |
| ParserProps.KeyJoins | src/nestedtext.py:314-324 | a multi-line key read consumes only key lines at exactly its depth, and the key is their texts joined |
| ParserProps.KeyRead | src/nestedtext.py:277-283 | an object item's line is consumed alone and gives its own key; a run of key lines gives their joined texts and is followed by no key line at the depth |
| ParserProps.ValueAtDeep | src/nestedtext.py:223-232 | reading a value consumes only lines at least as deep as its block |
| ParserProps.ItemValueDeep | src/nestedtext.py:257-300 | the block below an item without a value of its own is deeper than the item |
| ParserProps.ListShape | src/nestedtext.py:248-270 | a list's lines at its depth are all list items and every other line read is deeper; the list is the items before it followed by one element per item line, its own text where it has one |
| ParserProps.ObjectShape | src/nestedtext.py:272-312 | an object's lines at its depth are object items or key lines and every other line read is deeper; its keys are exactly those stored before and the keys of the fields read |
| ParserProps.AddFieldKeys | src/nestedtext.py:301-311 | after a store the keys are exactly those before plus the new key, under every policy |

## Left out

- File I/O: `load` and `dump` in both files are not modelled. They only open a file and call `loads` / `dumps`.
- Callables: a callable `on_dup`, the `renderers` table, a callable `default`, a callable `sort_keys`, and the `_callback_func` wrapping in `_read_all`. These run code the model cannot see.
  - `on_dup` is a string in `NestedTextSrc`. In `NestedText` it is `Option<string>`: `None`, "ignore", "replace", or any other string, which raises the unknown-policy `ValueError`.
- Scalars: `dumps` of `bool`, `int` and `float` (`str(obj)`) is not modelled. Values are strings, lists, dicts and `None` only.
- `default` given as a string other than "strict" (`NotImplementedError`) is not modelled.
- Error text: `NestedTextError`'s template formatting, the `culprit` and `codicil`, and the position rendering of the complete module are not modelled.
  - Each error is a kind, a line number and, in the rewrite, a column.
- `_indentation_error` messages: a message is an `ErrorKind` constructor. The wording, with `textwrap`, is not modelled.
- Line and column numbers in the complete module: `_report` (nestedtext.py:183-184) raises `NestedTextError(template=message)`, and `NestedTextError.__init__` (nestedtext.py:165-166) keeps only the template, so the source's errors carry neither the line nor the column. The model's root errors keep the line number, as the class documentation (nestedtext.py:150-160, `2: llave duplicada: name1.`) promises callers; they drop the column.
- Inline containers: `_parse_inline_list` and `_parse_inline_object` have no body in the rewrite. The model gives `None` (`Null`) for the line, as their empty bodies do.
- The rewrite's `dumps` raises `NotImplementedError` and is not modelled.
- Key types: the "keys must be strings" check is not modelled, because every key in the model is a string.
- Trailing lines are not read, as in the source:
  - the rewrite's `parse` reads one value at depth 0;
  - everything after a top-level string or inline container goes unread;
  - the model does the same (`NestedTextSrc.Document`).
- The "unrecognized line" branch of the rewrite's `_read_value` is not modelled. No line kind can reach it: blank and comment lines never stop the iterator, and an unrecognised line is an `_InvalidLine` that raises earlier.
- `StopIteration` is modelled as an error value. It comes only from `__next__` on an exhausted iterator: both files advance the generator with `next(self._generator, None)`, which never raises it.
- NestedText.LinesIter.constructor: runs on the corrected generator, which records the previous content line. As written, every line has `prev_line=None`, so every indentation error is the column-1 message at depth 0 and "invalid indentation" elsewhere; the corrected generator also gives the "indent after an item with a value" and "partial dedent" messages (see Findings). `ItemsAsWritten` is the generator as written.
- NestedText.ReadAll: reads the corrected generator's lines. As written, every indentation error is the column-1 message at depth 0 and "invalid indentation" elsewhere; here the "indent after an item with a value" and "partial dedent" messages occur too.
- NestedText.Loads: reads the corrected generator's lines, with the same difference in indentation errors as `ReadAll`.
- NestedTextDump.Dumps: corrects a second defect besides the undefined names. The unsupported-type path (nestedtext.py:894-895) calls `NestedTextError(obj, template=error, culprit=repr(obj))`, which passes `template` both by position and by keyword, so Python raises `TypeError` instead. The model returns `Err(Error(UnsupportedType, None))`, the error the call evidently means. As written, that path is never reached, because the `NameError` that `DumpsAsWritten` models comes first.
- RoundTrip.DumpsLines: proved for `sort_keys=False` only. With sorting, the dict lines come in key order, which `SortEntriesSorted` describes.
- ReadBack.DumpsLoads: proved for `sort_keys=False` only. With sorting, `loads(dumps(v))` gives the dict in key order, which equals `v` only as a mapping. The sort itself is proved a sorted permutation (`SortEntriesSorted`).
- ReadBack.DumpsLoads: excludes strings holding `\r` or other Unicode line breaks, and empty lists and dicts. `dumps` writes these in forms that `loads` reads as a different value.
- Python text: `str.isspace` and `splitlines` are modelled by the explicit character sets in `PyText`. It has no Unicode database, so the model has no case folding or normalisation.

## Findings

| source | as written | input that shows it | evidently intended | confidence | as-written member | corrected member |
|---|---|---|---|---|---|---|
| nestedtext.py:295-305 | each line is built with `prev_line=None`, so `_indentation_error` never sees the previous content line | `- x` then `  - y`: the error appears as the top-level column-1 message | the line records the last content line, which yields "indent after an item that has a value" | not executed | NestedText.ItemsAsWritten (shown by ReaderProps.NestedAfterValue) | NestedText.ReadLines (proved by ReaderProps.NestedAfterValue) |
| nestedtext.py:835-842 | without `default='strict'`, `dumps` binds the undefined names `is_mapping`, `is_collection` and `is_str`, and the strict branch calls `is_collection` too | `dumps("a")` raises `NameError` | dict, list and string tests, so `dumps("a")` is `> a`; and an unsupported value raises `NestedTextError` (as written, the call at nestedtext.py:894-895 passes `template` twice and would raise `TypeError`) | not executed | NestedTextDump.DumpsAsWritten (shown by NestedTextDump.DumpsAsWrittenRejectsString) | NestedTextDump.Dumps (proved by ReadBack.DumpsLoads) |
| nestedtext.py:616-624 | `_render_key` checks `s.strip(" ")`, so only spaces count as surrounding whitespace | the key `a` followed by a tab is written bare, and `a<tab>: x` reads back the key `a` | any whitespace the reader strips forces quotes | not executed | NestedTextDump.RenderKeyAsWritten (shown by NestedTextDump.RenderKeyAsWrittenLosesTab) | NestedTextDump.RenderKey (proved by NestedTextDump.KeyReadsBack) |
| src/nestedtext.py:377-403 | `_render_key` lets through keys that start with `[` or `{`, the empty key, and keys ending in a tab | the key `[a`: the line `[a: b` reads back as an inline container | refuse every key that does not read back as itself | not executed | NestedTextSrc.RenderKeyAsWritten (shown by NestedTextSrc.RenderKeyAsWrittenAcceptsBracket) | NestedTextSrc.RenderKey (proved by NestedTextSrc.RenderedKeyReadsBack) |
