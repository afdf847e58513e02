/**
 * A rendered file has nothing to retire: every key in it is known, and what was retired before stands
 * there as comments. So a retired key is reported once.
 */
module RetiredOnce {
  import opened Prelude
  import opened Text
  import opened TextLines
  import opened Quoting
  import opened Settings
  import opened ConfigFile
  import opened ConfigLines
  import opened Retiring
  import opened ConfigRoundTrip

  lemma {:induction false} ScanConcat(scan: Scan, a: seq<string>, b: seq<string>, known: set<string>)
    ensures ScannedAll(scan, a + b, known) == ScannedAll(ScannedAll(scan, a, known), b, known)
  {
    hide Scanned;
    if b == [] {
      assert a + b == a;
    } else {
      assert (a + b)[..|a + b| - 1] == a + b[..|b| - 1];
      ScanConcat(scan, a, b[..|b| - 1], known);
    }
  }

  lemma NoReturnsInNothing()
    ensures WithoutReturns("") == ""
  {}

  lemma {:induction false} CommentsAreNotScanned(scan: Scan, lines: seq<string>, known: set<string>)
    requires forall line | line in lines :: line == "" || CommentLine(line)
    ensures ScannedAll(scan, lines, known) == scan
  {
    NoReturnsInNothing();
    hide WithoutReturns, IsComment, IsHeader, HeaderName, Named, CommentLine;
    if lines != [] {
      var line := lines[|lines| - 1];
      CommentsAreNotScanned(scan, lines[..|lines| - 1], known);
      if line != "" { CommentsAreComments(line); }
    }
  }

  lemma KnownEntryIsSkipped(scan: Scan, s: Setting, text: string, known: set<string>)
    requires PlainName(s.leaf) && scan.section == s.section && Key(s) in known
    requires s.kind == KindInt || s.kind == KindBool ==> PlainScalar(text)
    ensures Scanned(scan, "  " + s.leaf + ": " + YamlScalar(s, text), known) == scan
  {
    hide WithoutReturns, IsComment, IsHeader, TrimSpace, Cut;
    ScalarReadsBack(s, text);
    EntryShape(s.leaf, YamlScalar(s, text));
  }

  lemma {:induction false} KnownSettingsAreSkipped(scan: Scan, settings: seq<Setting>, values: Values, sys: System,
                                                   known: set<string>)
    requires sys.Lawful() && Covers(values, settings) && PlainNumbers(settings, values, sys)
    requires forall s | s in settings :: GoodSetting(s, sys) && s.section == scan.section && Key(s) in known
    ensures ScannedAll(scan, AllSettingLines(settings, values, sys), known) == scan
  {
    hide GoodSetting, Spelling, System.Lawful, Scanned, YamlScalar, Capitalised, SecondComment, Key, CommentLine,
         PlainScalar;
    if settings != [] {
      var front, s := settings[..|settings| - 1], settings[|settings| - 1];
      assert settings == front + [s];
      KnownSettingsAreSkipped(scan, front, values, sys, known);
      var comments := ["  # " + (Capitalised(s.usage) + "."), SecondComment(s, sys.platform.upper)];
      var line := EntryLine(s, values[s.flag], sys);
      CommentsOf(s, sys);
      CommentsAreNotScanned(scan, comments, known);
      NamesArePlain(s, sys);
      KnownEntryIsSkipped(scan, s, Spelling(s, values[s.flag], sys), known);
      assert [line][..0] == [];
      assert SettingLines(s, values[s.flag], sys) == comments + [line];
      ScanConcat(scan, comments, [line], known);
      ScanConcat(scan, AllSettingLines(front, values, sys), SettingLines(s, values[s.flag], sys), known);
    }
  }

  lemma HeaderIsScanned(scan: Scan, section: string, known: set<string>)
    requires PlainName(section)
    ensures ScannedAll(scan, ["", section + ":"], known) == scan.(section := section)
  {
    hide TrimSpace;
    HeaderShape(section);
    var lines := ["", section + ":"];
    assert lines[..1] == [""] && [""][..0] == [];
    assert ScannedAll(scan, [""], known) == scan;
  }

  lemma {:induction false} SectionsRetireNothing(scan: Scan, i: nat, table: seq<Setting>, values: Values, sys: System)
    requires sys.Lawful() && i <= |SECTION_ORDER| && Covers(values, table) && PlainNumbers(table, values, sys)
    requires forall s | s in table :: GoodSetting(s, sys)
    ensures ScannedAll(scan, SectionsFrom(i, table, values, sys), KnownKeys(table)).retired == scan.retired
    decreases |SECTION_ORDER| - i
  {
    hide GoodSetting, Spelling, System.Lawful, Scanned, AllSettingLines, PlainName, PlainScalar;
    if i < |SECTION_ORDER| {
      var section, known := SECTION_ORDER[i], KnownKeys(table);
      var settings := InSection(table, section);
      if settings != [] {
        assert settings[0] in table && settings[0].section == section;
        NamesArePlain(settings[0], sys);
        HeaderIsScanned(scan, section, known);
        KnownSettingsAreSkipped(scan.(section := section), settings, values, sys, known);
        ScanConcat(scan, ["", section + ":"], AllSettingLines(settings, values, sys), known);
      }
      var after := ScannedAll(scan, SectionLines(section, settings, values, sys), known);
      SectionsRetireNothing(after, i + 1, table, values, sys);
      ScanConcat(scan, SectionLines(section, settings, values, sys), SectionsFrom(i + 1, table, values, sys), known);
    }
  }

  lemma BlockIsBlankOrComment(o: RenderOptions)
    requires GoodOptions(o)
    ensures forall line | line in RetiredBlock(o) :: line == "" || CommentLine(line)
  {
    RetiredLinesAre(o);
  }

  /** Whatever block of retired keys it carries, a rendered file has none of its own. */
  lemma NothingToRetire(table: seq<Setting>, values: Values, o: RenderOptions, sys: System)
    requires sys.Lawful() && GoodTable(table, sys) && GoodOptions(o)
    requires Covers(values, table) && PlainNumbers(table, values, sys)
    requires forall r | r in o.retired :: OneLine(r.key) && OneLine(r.value)
    ensures ScannedAll(Scan("", []), SplitLines(Terminated(FileLines(table, values, o, sys))), KnownKeys(table)).retired == []
  {
    hide GoodSetting, GoodOptions, Heading, SectionsFrom, RetiredBlock, CommentLine, PlainNumbers, System.Lawful,
         SplitLines, Terminated, Scanned, OneLine, NbText;
    var start, known := Scan("", []), KnownKeys(table);
    var heading, sections, block := Heading(o), SectionsFrom(0, table, values, sys), RetiredBlock(o);
    RenderedLinesAreLines(table, values, o, sys);
    HeadingIsComment(o);
    BlockIsBlankOrComment(o);
    CommentsAreNotScanned(start, heading, known);
    SectionsRetireNothing(start, 0, table, values, sys);
    var after := ScannedAll(start, sections, known);
    CommentsAreNotScanned(after, block + [""], known);
    ScanConcat(start, heading, sections, known);
    ScanConcat(start, heading + sections, block + [""], known);
    assert FileLines(table, values, o, sys) + [""] == heading + sections + (block + [""]);
  }

  // ----- what can be found -----

  /** Made of such characters only. */
  predicate Of(s: string, p: char -> bool) { forall c | c in s :: p(c) }

  lemma {:induction false} CutKeeps(s: string, p: char -> bool)
    requires Of(s, p)
    ensures Cut(s, ':').Some? ==> Of(Cut(s, ':').value.0, p) && Of(Cut(s, ':').value.1, p)
  {
    if s != "" { CutKeeps(s[1..], p); }
  }

  lemma TrimKeeps(s: string, p: char -> bool)
    requires Of(s, p)
    ensures Of(TrimSpace(s), p)
  {
    var a, b := TrimIs(s);
  }

  /** A return with something other than space on both sides. */
  predicate Inner(s: string) {
    exists i, j, k :: 0 <= i < j < k < |s| && !IsSpace(s[i]) && s[j] == '\r' && !IsSpace(s[k])
  }

  /** The returns trimming leaves. */
  lemma TrimmedReturnsIff(s: string)
    ensures '\r' in TrimSpace(s) <==> Inner(s)
  {
    assert IsSpace('\r');
    hide IsSpace, TrimSpace;
    var a, b := TrimIs(s);
    if '\r' in s[a..b] {
      var j :| 0 <= j < b - a && s[a..b][j] == '\r';
      assert s[a + j] == '\r' && !IsSpace(s[a]) && !IsSpace(s[b - 1]);
    }
    if i, j, k :| 0 <= i < j < k < |s| && !IsSpace(s[i]) && s[j] == '\r' && !IsSpace(s[k]) {
      assert s[a..b][j - a] == '\r';
    }
  }

  lemma {:induction false} WithoutReturnsIs(line: string) returns (n: nat)
    ensures n <= |line| && WithoutReturns(line) == line[..n] && forall i | n <= i < |line| :: line[i] == '\r'
  {
    n := |line|;
    if line != "" && line[|line| - 1] == '\r' {
      n := WithoutReturnsIs(line[..|line| - 1]);
    }
  }

  /** What the search looks at of a line. */
  function Scannable(line: string): string { TrimSpace(WithoutReturns(line)) }

  lemma ScannableReturnsIff(line: string)
    ensures '\r' in Scannable(line) <==> Inner(line)
  {
    assert IsSpace('\r');
    hide IsSpace, TrimSpace, WithoutReturns;
    var n := WithoutReturnsIs(line);
    TrimmedReturnsIff(line[..n]);
    assert Inner(line) <==> Inner(line[..n]) by {
      if i, j, k :| 0 <= i < j < k < |line| && !IsSpace(line[i]) && line[j] == '\r' && !IsSpace(line[k]) {
        var s := line[..n];
        assert !IsSpace(s[i]) && s[j] == '\r' && !IsSpace(s[k]);
      }
      if i, j, k :| 0 <= i < j < k < n && !IsSpace(line[..n][i]) && line[..n][j] == '\r' && !IsSpace(line[..n][k]) {
        assert !IsSpace(line[i]) && line[j] == '\r' && !IsSpace(line[k]);
      }
    }
  }

  lemma ScannableKeeps(line: string, p: char -> bool)
    requires Of(line, p)
    ensures Of(Scannable(line), p)
  {
    hide TrimSpace, WithoutReturns;
    var n := WithoutReturnsIs(line);
    TrimKeeps(line[..n], p);
  }

  /** The returns of a section, and of a key and its value: those with something on both sides. */
  lemma FoundReturnsIff(section: string, line: string)
    ensures IsHeader(line) ==> ('\r' in HeaderName(line) <==> Inner(line))
    ensures
      var r, cut := Named(section, line), Cut(TrimSpace(line), ':');
      r.Some? ==>
        && ('\r' in r.value.key <==> '\r' in section || Inner(cut.value.0))
        && ('\r' in r.value.value <==> Inner(cut.value.1))
  {
    hide TrimSpace, Cut, Inner;
    TrimmedReturnsIff(line);
    var t := TrimSpace(line);
    if IsHeader(line) { assert t == HeaderName(line) + [':']; }
    var cut := Cut(t, ':');
    if cut.Some? {
      TrimmedReturnsIff(cut.value.0);
      TrimmedReturnsIff(cut.value.1);
    }
  }

  /** Keys and values are made of what the lines they come from are made of, the dot between the two parts apart. */
  lemma {:induction false} FoundIsOf(lines: seq<string>, known: set<string>, p: char -> bool)
    requires p('.') && forall line | line in lines :: Of(Scannable(line), p)
    ensures var scan := ScannedAll(Scan("", []), lines, known);
            Of(scan.section, p) && forall r | r in scan.retired :: Of(r.key, p) && Of(r.value, p)
  {
    assert Of("", p);
    hide Of, TrimSpace, WithoutReturns, IsComment, IsHeader, HeaderName, Named;
    if lines != [] {
      var front, line := lines[..|lines| - 1], lines[|lines| - 1];
      assert lines == front + [line];
      FoundIsOf(front, known, p);
      var scan := ScannedAll(Scan("", []), front, known);
      assert line in lines;
      assert Of(TrimSpace(WithoutReturns(line)), p);
      ScannedLineIsOf(scan.section, WithoutReturns(line), p);
    }
  }

  lemma ScannedLineIsOf(section: string, trimmed: string, p: char -> bool)
    requires p('.') && Of(section, p) && Of(TrimSpace(trimmed), p)
    ensures IsHeader(trimmed) ==> Of(HeaderName(trimmed), p)
    ensures var r := Named(section, trimmed); r.Some? ==> Of(r.value.key, p) && Of(r.value.value, p)
  {
    hide TrimSpace, Cut;
    var t := TrimSpace(trimmed);
    assert IsHeader(trimmed) ==> Of(t[..|t| - 1], p);
    CutKeeps(t, p);
    if Cut(t, ':').Some? {
      var name := TrimSpace(Cut(t, ':').value.0);
      TrimKeeps(Cut(t, ':').value.0, p);
      TrimKeeps(Cut(t, ':').value.1, p);
      assert Of(section + "." + name, p);
    }
  }

  /**
   * What is found in a file: no key or value has a line feed in it; none has a return if no line has one
   * with something on both sides; and then all are printable if the file is.
   */
  lemma RetiredKeysAreLines(lines: seq<string>, known: set<string>)
    requires forall line | line in lines :: OneLine(line)
    ensures
      var found := ScannedAll(Scan("", []), lines, known).retired;
      && (forall r | r in found :: OneLine(r.key) && OneLine(r.value))
      && ((forall line | line in lines :: !Inner(line)) ==> forall r | r in found :: Unbroken(r.key) && Unbroken(r.value))
      && ((forall line | line in lines :: !Inner(line) && Of(line, c => NbChar(c) || c == '\r')) ==>
            forall r | r in found :: NbText(r.key) && NbText(r.value))
  {
    hide Inner, TrimSpace, WithoutReturns, ScannedAll, NbChar;
    assert NbChar('.') by { DotIsPrintable(); }
    var line, unbroken, printable := (c: char) => c != '\n', (c: char) => c != '\n' && c != '\r', c => NbChar(c);
    var orReturn := c => NbChar(c) || c == '\r';
    forall l | l in lines
      ensures Of(Scannable(l), line) && (!Inner(l) ==> Of(Scannable(l), unbroken))
      ensures !Inner(l) && Of(l, orReturn) ==> Of(Scannable(l), printable)
    {
      assert Of(l, line);
      ScannableKeeps(l, line);
      ScannableReturnsIff(l);
      if Of(l, orReturn) { ScannableKeeps(l, orReturn); }
    }
    FoundIsOf(lines, known, line);
    if forall l | l in lines :: !Inner(l) {
      FoundIsOf(lines, known, unbroken);
      if forall l | l in lines :: Of(l, orReturn) { FoundIsOf(lines, known, printable); }
    }
  }

  lemma DotIsPrintable()
    ensures NbChar('.')
  {}

  /** What stands before the first section header is nobody's setting. */
  lemma {:induction false} NothingBeforeAHeader(lines: seq<string>, known: set<string>)
    requires forall line | line in lines :: !IsHeader(WithoutReturns(line))
    ensures ScannedAll(Scan("", []), lines, known) == Scan("", [])
  {
    hide WithoutReturns, IsHeader, IsComment, TrimSpace, Cut;
    if lines != [] {
      var front, line := lines[..|lines| - 1], lines[|lines| - 1];
      assert lines == front + [line];
      NothingBeforeAHeader(front, known);
    }
  }
}
