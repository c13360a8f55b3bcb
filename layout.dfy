/** What both versions of the emitter share: `_add_leader`, `_add_prefix`, and the test
    `_render_key` applies to decide that a key cannot be written bare. */
module Layout {
  import opened PyText

  /** `n * " "`. */
  function Spaces(n: nat): (r: string)
    ensures |r| == n && forall i :: 0 <= i < n ==> r[i] == ' '
  {
    if n == 0 then "" else " " + Spaces(n - 1)
  }

  /** Each line with `leader` in front, or the right-stripped leader in place of an empty line. */
  function Lead(lines: seq<string>, leader: string): (r: seq<string>)
    ensures |r| == |lines|
    ensures forall i :: 0 <= i < |lines| ==>
      r[i] == if lines[i] != "" then leader + lines[i] else RStrip(leader)
  {
    if lines == [] then []
    else [if lines[0] != "" then leader + lines[0] else RStrip(leader)] + Lead(lines[1..], leader)
  }

  /** `_add_leader`: `s` split at newlines, every line led by `leader`, joined again. */
  function AddLeader(s: string, leader: string): string {
    Join("\n", Lead(Split(s, '\n'), leader))
  }

  /** `_add_leader` keeps the number of lines; a non-empty line gains the leader in front and
      an empty one becomes the right-stripped leader. */
  lemma AddLeaderLines(s: string, leader: string)
    requires '\n' !in leader
    ensures var r := Split(AddLeader(s, leader), '\n');
      var ls := Split(s, '\n');
      |r| == |ls|
      && forall i :: 0 <= i < |ls| ==> r[i] == if ls[i] != "" then leader + ls[i] else RStrip(leader)
  {
    var ls := Split(s, '\n');
    var led := Lead(ls, leader);
    forall i | 0 <= i < |led| ensures '\n' !in led[i] {
      if ls[i] == "" {
        assert RStrip(leader) == leader[..|leader| - TrailingSpace(leader)];
        assert forall j :: 0 <= j < |RStrip(leader)| ==> RStrip(leader)[j] == leader[j];
      } else {
        assert led[i] == leader + ls[i];
        assert forall j :: 0 <= j < |led[i]| ==>
          (j < |leader| ==> led[i][j] == leader[j]) && (j >= |leader| ==> led[i][j] == ls[i][j - |leader|]);
      }
    }
    SplitJoin(led, '\n');
  }

  /** Leading a text that is already a join of non-empty lines leads each of those lines. */
  lemma AddLeaderJoin(lines: seq<string>, leader: string)
    requires |lines| >= 1
    requires forall i :: 0 <= i < |lines| ==> lines[i] != "" && '\n' !in lines[i]
    ensures AddLeader(Join("\n", lines), leader) == Join("\n", Lead(lines, leader))
  {
    SplitJoin(lines, '\n');
  }

  /** `_add_prefix`: a space between `prefix` and `suffix`, unless the suffix is empty or
      starts on a new line. */
  function AddPrefix(prefix: string, suffix: string): (r: string)
    ensures |r| >= |prefix| && r[..|prefix|] == prefix
    ensures suffix == "" || suffix[0] == '\n' <==> r[|prefix|..] == suffix
    ensures !(suffix == "" || suffix[0] == '\n') <==> r[|prefix|..] == " " + suffix
  {
    if suffix == "" || suffix[0] == '\n' then prefix + suffix else prefix + " " + suffix
  }

  /** `s.strip(" ")`: spaces, and only spaces, off both ends. */
  function StripSpaces(s: string): string {
    LStripChar(RStripChars(s, {' '}), ' ')
  }

  /** When `_render_key` cannot write `s` bare, given what stripping leaves of it: the strip
      removed something, or `s` starts with `#` or a quote, or with `- ` or `> `, or holds
      `: `. */
  predicate NeedsQuotes(s: string, stripped: string) {
    |stripped| < |s| || (s != [] && (s[0] == '#' || IsQuote(s[0])))
    || StartsWith(s, "- ") || StartsWith(s, "> ") || HasPair(s, ':', ' ')
  }
}
