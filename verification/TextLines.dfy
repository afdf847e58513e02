/**
 * A text as lines that each end in a line feed; strings.Split back into them, and the lines YAML sees,
 * which end at returns too.
 */
module TextLines {

  predicate OneLine(s: string) { '\n' !in s }

  function Terminated(lines: seq<string>): string {
    if lines == [] then "" else lines[0] + "\n" + Terminated(lines[1..])
  }

  /** The characters before the first line feed. */
  function LineLength(s: string): (n: nat)
    ensures n <= |s| && OneLine(s[..n]) && (n < |s| ==> s[n] == '\n')
  {
    if s != "" && s[0] != '\n' then
      assert s[..1 + LineLength(s[1..])] == [s[0]] + s[1..][..LineLength(s[1..])];
      1 + LineLength(s[1..])
    else 0
  }

  /** strings.Split(s, "\n"). */
  function SplitLines(s: string): seq<string>
    decreases |s|
  {
    var n := LineLength(s);
    if n == |s| then [s] else [s[..n]] + SplitLines(s[n + 1..])
  }

  lemma {:induction false} LineLengthIs(s: string, n: nat)
    requires n <= |s| && OneLine(s[..n]) && (n < |s| ==> s[n] == '\n')
    ensures LineLength(s) == n
  {
    if n > 0 {
      assert s[..n] == [s[0]] + s[1..][..n - 1];
      LineLengthIs(s[1..], n - 1);
    }
  }

  /** Splitting gives the lines back, and the nothing after the last. */
  lemma {:induction false} SplitUndoesTermination(lines: seq<string>)
    requires forall line | line in lines :: OneLine(line)
    ensures SplitLines(Terminated(lines)) == lines + [""]
  {
    if lines == [] {
      LineLengthIs("", 0);
    } else {
      var s := Terminated(lines);
      var n := |lines[0]|;
      assert s[..n] == lines[0] && s[n] == '\n' && s[n + 1..] == Terminated(lines[1..]);
      LineLengthIs(s, n);
      SplitUndoesTermination(lines[1..]);
      assert [lines[0]] + (lines[1..] + [""]) == lines + [""];
    }
  }

  /** No line of a split has a line feed in it. */
  lemma {:induction false} SplitGivesLines(s: string)
    ensures forall line | line in SplitLines(s) :: OneLine(line)
    decreases |s|
  {
    var n := LineLength(s);
    if n < |s| { SplitGivesLines(s[n + 1..]); } else { assert s[..n] == s; }
  }

  // ----- as YAML breaks them (YAML 1.2.2, section 5.4) -----

  /** Neither of the two characters YAML breaks lines at. */
  predicate Unbroken(s: string) { '\n' !in s && '\r' !in s }

  /** The characters before the first break. */
  function BreakAt(s: string): (n: nat)
    ensures n <= |s| && Unbroken(s[..n]) && (n < |s| ==> s[n] == '\n' || s[n] == '\r')
  {
    if s != "" && s[0] != '\n' && s[0] != '\r' then
      assert s[..1 + BreakAt(s[1..])] == [s[0]] + s[1..][..BreakAt(s[1..])];
      1 + BreakAt(s[1..])
    else 0
  }

  /** A return and a line feed are one break. */
  function YamlLines(s: string): seq<string>
    decreases |s|
  {
    var n := BreakAt(s);
    if n == |s| then [s]
    else if s[n] == '\r' && n + 1 < |s| && s[n + 1] == '\n' then [s[..n]] + YamlLines(s[n + 2..])
    else [s[..n]] + YamlLines(s[n + 1..])
  }

  lemma {:induction false} BreakAtIs(s: string, n: nat)
    requires n <= |s| && Unbroken(s[..n]) && (n < |s| ==> s[n] == '\n' || s[n] == '\r')
    ensures BreakAt(s) == n
  {
    if n > 0 {
      assert s[..n] == [s[0]] + s[1..][..n - 1];
      BreakAtIs(s[1..], n - 1);
    }
  }

  /** One line and what comes after its line feed. */
  lemma OneLineFirst(line: string, rest: string)
    requires Unbroken(line)
    ensures YamlLines(line + "\n" + rest) == [line] + YamlLines(rest)
  {
    var s, n := line + "\n" + rest, |line|;
    assert s[..n] == line && s[n] == '\n' && s[n + 1..] == rest;
    BreakAtIs(s, n);
  }

  /** One line and what comes after its return, if that is no line feed. */
  lemma OneReturnFirst(line: string, rest: string)
    requires Unbroken(line) && (rest != "" ==> rest[0] != '\n')
    ensures YamlLines(line + "\r" + rest) == [line] + YamlLines(rest)
  {
    var s, n := line + "\r" + rest, |line|;
    assert s[..n] == line && s[n] == '\r' && s[n + 1..] == rest;
    BreakAtIs(s, n);
  }

  /** Unbroken lines are YAML's lines, whatever comes after them. */
  lemma {:induction false} UnbrokenFirst(lines: seq<string>, rest: string)
    requires forall line | line in lines :: Unbroken(line)
    ensures YamlLines(Terminated(lines) + rest) == lines + YamlLines(rest)
  {
    if lines == [] {
      assert Terminated(lines) + rest == rest;
    } else {
      assert Terminated(lines) + rest == lines[0] + "\n" + (Terminated(lines[1..]) + rest);
      OneLineFirst(lines[0], Terminated(lines[1..]) + rest);
      UnbrokenFirst(lines[1..], rest);
    }
  }

  lemma {:induction false} TerminatedConcat(a: seq<string>, b: seq<string>)
    ensures Terminated(a + b) == Terminated(a) + Terminated(b)
  {
    if a == [] {
      assert a + b == b;
    } else {
      assert (a + b)[1..] == a[1..] + b;
      TerminatedConcat(a[1..], b);
    }
  }

  /** No line YAML sees has a break in it. */
  lemma {:induction false} YamlGivesUnbroken(s: string)
    ensures forall line | line in YamlLines(s) :: Unbroken(line)
    decreases |s|
  {
    var n := BreakAt(s);
    if n == |s| { assert s[..n] == s; }
    else if s[n] == '\r' && n + 1 < |s| && s[n + 1] == '\n' { YamlGivesUnbroken(s[n + 2..]); }
    else { YamlGivesUnbroken(s[n + 1..]); }
  }

  /** YAML sees the lines that were written if and only if none of them has a break of its own. */
  lemma LinesStandIff(lines: seq<string>)
    ensures YamlLines(Terminated(lines)) == lines + [""] <==> forall line | line in lines :: Unbroken(line)
  {
    if forall line | line in lines :: Unbroken(line) {
      UnbrokenFirst(lines, "");
      assert Terminated(lines) + "" == Terminated(lines);
    } else {
      var line :| line in lines && !Unbroken(line);
      assert line in lines + [""];
      YamlGivesUnbroken(Terminated(lines));
    }
  }
}
