/**
 * The shape of the configuration file's lines: comments, section headers at column zero, and settings
 * indented under them.
 */
module ConfigLines {
  import opened Prelude
  import opened Text

  /** strings.TrimRight(line, "\r"). */
  function WithoutReturns(line: string): string {
    if line != "" && line[|line| - 1] == '\r' then WithoutReturns(line[..|line| - 1]) else line
  }

  predicate IsComment(line: string) {
    var t := TrimSpace(line);
    t != "" && t[0] == '#'
  }

  predicate IsHeader(line: string) {
    var t := TrimSpace(line);
    (line == "" || line[0] != ' ') && t != "" && t[|t| - 1] == ':'
  }

  function HeaderName(line: string): string
    requires IsHeader(line)
  {
    var t := TrimSpace(line);
    t[..|t| - 1]
  }

  // ----- what the writer's lines look like -----

  predicate PlainName(s: string) {
    s != "" && forall c | c in s :: 'a' <= c <= 'z' || IsDigit(c) || c == '_'
  }

  /** The first character of a line that is a comment, indented or not. */
  predicate CommentLine(line: string) {
    (line != "" && line[0] == '#') || (|line| > 2 && line[..3] == "  #")
  }

  lemma TrimIndented(body: string)
    requires body != "" && !IsSpace(body[0]) && !IsSpace(body[|body| - 1])
    ensures TrimSpace("  " + body) == body && TrimSpace(" " + body) == body
  {
    assert ("  " + body)[1..] == " " + body && (" " + body)[1..] == body;
    assert TrimLeft(" " + body) == TrimLeft(body) == body;
    assert TrimLeft("  " + body) == TrimLeft(" " + body);
  }

  lemma {:induction false} ReturnsBehindAMark(line: string, k: nat)
    requires k < |line| && line[k] != '\r'
    ensures k < |WithoutReturns(line)| <= |line| && WithoutReturns(line) == line[..|WithoutReturns(line)|]
  {
    if line[|line| - 1] == '\r' {
      var front := line[..|line| - 1];
      ReturnsBehindAMark(front, k);
      assert front[..|WithoutReturns(front)|] == line[..|WithoutReturns(front)|];
    }
  }

  lemma {:induction false} TrimRightKeepsStart(s: string)
    requires s != "" && !IsSpace(s[0])
    ensures TrimRight(s) != "" && TrimRight(s)[0] == s[0]
  {
    if IsSpace(s[|s| - 1]) { TrimRightKeepsStart(s[..|s| - 1]); }
  }

  lemma CommentsAreComments(line: string)
    requires CommentLine(line)
    ensures IsComment(line) && IsComment(WithoutReturns(line))
  {
    var k := if line[0] == '#' then 0 else 2;
    MarkedIsComment(line, k);
    ReturnsBehindAMark(line, k);
    MarkedIsComment(WithoutReturns(line), k);
  }

  lemma MarkedIsComment(line: string, k: nat)
    requires k < |line| && k in {0, 2} && line[k] == '#' && (k == 2 ==> line[0] == ' ' && line[1] == ' ')
    ensures IsComment(line)
  {
    if k == 0 {
      assert line[0..] == line;
    } else {
      assert line[1..][1..] == line[2..];
      assert TrimLeft(line) == TrimLeft(line[1..]) == TrimLeft(line[2..]) == line[2..];
    }
    TrimRightKeepsStart(line[k..]);
  }

  lemma HeaderShape(section: string)
    requires PlainName(section)
    ensures var line := section + ":";
            && WithoutReturns(line) == line && !IsComment(line) && IsHeader(line) && HeaderName(line) == section
            && TrimSpace(line) != "" && line[0] != ' '
  {
    assert section[0] in section;
    TrimIdle(section + ":");
  }

  /** A scalar as it may stand behind a key. */
  predicate Standing(scalar: string) {
    scalar != "" && !IsSpace(scalar[0]) && !IsSpace(scalar[|scalar| - 1])
  }

  lemma EntryShape(leaf: string, scalar: string)
    requires PlainName(leaf) && Standing(scalar)
    ensures var line := "  " + leaf + ": " + scalar;
            && WithoutReturns(line) == line && line != "" && line[0] == ' ' && TrimSpace(line) != ""
            && !IsComment(line) && !IsHeader(line)
            && Cut(TrimSpace(line), ':') == Some((leaf, " " + scalar))
            && TrimSpace(leaf) == leaf && TrimSpace(" " + scalar) == scalar
  {
    hide TrimSpace;
    var line, body := "  " + leaf + ": " + scalar, leaf + ": " + scalar;
    assert leaf[0] in leaf && leaf[|leaf| - 1] in leaf;
    assert line == "  " + body;
    assert body[|body| - 1] == scalar[|scalar| - 1];
    assert body[0] == leaf[0];
    TrimIndented(body);
    TrimIndented(scalar);
    TrimIdle(leaf);
    assert body == leaf + ":" + (" " + scalar);
    CutAtMark(leaf, ':', " " + scalar);
  }
}
