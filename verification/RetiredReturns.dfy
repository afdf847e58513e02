/**
 * A return within a retired value: the search for retired keys keeps it, for YAML it ends the comment
 * the value is written into, and what comes after it is a setting again.
 */
module RetiredReturns {
  import opened Prelude
  import opened Text
  import opened TextLines
  import opened Sums
  import opened Quoting
  import opened Settings
  import opened ConfigFile
  import opened ConfigLines
  import opened ConfigReader
  import opened Retiring
  import opened ConfigRoundTrip
  import opened ConfigRewrite

  /** A setting's line. */
  function SettingLine(leaf: string, text: string): string { "  " + leaf + ": " + text }

  /** A plain scalar that ends no line. */
  predicate Plain(text: string) {
    Standing(text) && Unbroken(text) && Scalar(text).Some?
  }

  /** One value to the search for retired keys. */
  function WithReturn(text: string, leaf: string, value: string): string {
    text + "\r" + SettingLine(leaf, value)
  }

  lemma WithReturnStands(text: string, leaf: string, value: string)
    requires Plain(text) && PlainName(leaf) && Plain(value)
    ensures var v := WithReturn(text, leaf, value); Standing(v) && OneLine(v) && '\r' in v
  {
    var v := WithReturn(text, leaf, value);
    assert v[0] == text[0] && v[|v| - 1] == value[|value| - 1] && v[|text|] == '\r';
  }

  /** The search for retired keys finds one key, whose value has all that comes after the return. */
  lemma AReturnIsKept(section: string, gone: string, text: string, leaf: string, value: string, known: set<string>)
    requires PlainName(section) && PlainName(gone) && Plain(text) && PlainName(leaf) && Plain(value)
    requires section + "." + gone !in known
    ensures
      var file := Terminated([section + ":", SettingLine(gone, WithReturn(text, leaf, value))]);
      ScannedAll(Scan("", []), SplitLines(file), known).retired == [Retired(section + "." + gone, WithReturn(text, leaf, value))]
  {
    hide TrimSpace, IsComment, IsHeader, Cut, PlainName, Plain, Standing, SplitLines, Terminated, WithReturn, Scanned;
    var v := WithReturn(text, leaf, value);
    var lines := [section + ":", SettingLine(gone, v)];
    WithReturnStands(text, leaf, value);
    TwoLines(section, gone, v);
    SplitUndoesTermination(lines);
    HeaderIsFound(section, known);
    SettingIsFound(section, gone, v, known);
    NothingIsFound(Scan(section, [Retired(section + "." + gone, v)]), known);
    var s := lines + [""];
    assert s[..2] == lines && lines[..1] == [section + ":"] && lines[..1][..0] == [];
    assert ScannedAll(Scan("", []), lines[..1], known) == Scan(section, []);
    assert ScannedAll(Scan("", []), s[..2], known) == Scan(section, [Retired(section + "." + gone, v)]);
  }

  lemma TwoLines(section: string, gone: string, v: string)
    requires PlainName(section) && PlainName(gone) && OneLine(v)
    ensures OneLine(section + ":") && OneLine(SettingLine(gone, v))
  {}

  lemma HeaderIsFound(section: string, known: set<string>)
    requires PlainName(section)
    ensures Scanned(Scan("", []), section + ":", known) == Scan(section, [])
  {
    HeaderShape(section);
  }

  lemma SettingIsFound(section: string, gone: string, v: string, known: set<string>)
    requires PlainName(section) && PlainName(gone) && Standing(v) && section + "." + gone !in known
    ensures Scanned(Scan(section, []), SettingLine(gone, v), known) == Scan(section, [Retired(section + "." + gone, v)])
  {
    EntryShape(gone, v);
  }

  lemma NothingIsFound(scan: Scan, known: set<string>)
    ensures Scanned(scan, "", known) == scan
  {}

  /** To YAML the same text has two keys. */
  lemma AReturnEndsTheLine(section: string, gone: string, text: string, leaf: string, value: string)
    requires PlainName(section) && PlainName(gone) && Plain(text) && PlainName(leaf) && Plain(value)
    requires section + "." + gone != section + "." + leaf
    ensures
      var r := ReadText(Terminated([section + ":", SettingLine(gone, WithReturn(text, leaf, value))]));
      !r.broken && r.found == map[section + "." + gone := Scalar(text).value, section + "." + leaf := Scalar(value).value]
  {
    hide YamlLines, ReadLine, Scalar, PlainName, Standing;
    var header, first, second := section + ":", SettingLine(gone, text), SettingLine(leaf, value);
    var file := Terminated([header, SettingLine(gone, WithReturn(text, leaf, value))]);
    LinesAreUnbroken(section, gone, text, leaf, value);
    TwoTerminated(header, SettingLine(gone, WithReturn(text, leaf, value)));
    assert file == header + "\n" + (first + "\r" + (second + "\n" + ""));
    OneLineFirst(header, first + "\r" + (second + "\n" + ""));
    OneReturnFirst(first, second + "\n" + "");
    OneLineFirst(second, "");
    NothingIsALine();
    var lines := [header, first, second, ""];
    assert [header] + ([first] + ([second] + [""])) == lines;
    assert YamlLines(file) == lines;
    HeaderIsRead(NOTHING_READ, section);
    var a := NOTHING_READ.(section := section);
    EntryIsRead(a, gone, text);
    assert section != "" by { NotEmpty(section); }
    var b := a.(found := map[section + "." + gone := Scalar(text).value]);
    PlainNamesArePrintable(gone);
    PlainNamesArePrintable(leaf);
    assert Entry(a, gone, text) == b;
    EntryIsRead(b, leaf, value);
    var c := b.(found := b.found[section + "." + leaf := Scalar(value).value]);
    EmptyLineIsRead(c);
    assert lines[..3] == [header, first, second] && lines[..3][..2] == [header, first]
           && [header, first][..1] == [header] && [header][..0] == [];
    assert ReadLines(NOTHING_READ, [header]) == a;
    assert ReadLines(NOTHING_READ, [header, first]) == b;
    assert ReadLines(NOTHING_READ, [header, first, second]) == c;
  }

  lemma TwoTerminated(a: string, b: string)
    ensures Terminated([a, b]) == a + "\n" + (b + "\n" + "")
  {
    assert [a, b][1..] == [b] && [b][1..] == [];
    assert Terminated([b]) == b + "\n" + "";
  }

  lemma NotEmpty(name: string)
    requires PlainName(name)
    ensures name != ""
  {}

  lemma NothingIsALine()
    ensures YamlLines("") == [""]
  {}

  lemma LinesAreUnbroken(section: string, gone: string, text: string, leaf: string, value: string)
    requires PlainName(section) && PlainName(gone) && Plain(text) && PlainName(leaf) && Plain(value)
    ensures Unbroken(section + ":") && Unbroken(SettingLine(gone, text)) && Unbroken(SettingLine(leaf, value))
  {}

  // ----- written into the next file -----

  lemma {:induction false} SomeSectionIsLast(before: string, i: nat, table: seq<Setting>)
    requires i <= |SECTION_ORDER| && (before != "" || exists s :: s in table && s.section in SECTION_ORDER[i..])
    ensures LastSection(before, i, table) != ""
    decreases |SECTION_ORDER| - i
  {
    hide InSection;
    if i < |SECTION_ORDER| {
      var here := SECTION_ORDER[i];
      assert here != "" && SECTION_ORDER[i..] == [here] + SECTION_ORDER[i + 1..];
      if s :| s in table && s.section == here { InItsSection(table, s); }
      SomeSectionIsLast(if InSection(table, here) == [] then before else here, i + 1, table);
    }
  }

  lemma InItsSection(table: seq<Setting>, s: Setting)
    requires s in table
    ensures s in InSection(table, s.section)
  {}

  /** How YAML breaks and reads the one retired key. */
  lemma TheRestIsASetting(r: Retired, text: string, leaf: string, value: string, q: Reading)
    requires NbText(r.key) && NbText(text) && r.value == WithReturn(text, leaf, value)
    requires PlainName(leaf) && Plain(value)
    ensures ReadLines(q, YamlLines(Terminated(Mapped([r], ByLine())))) == Entry(q, leaf, value)
  {
    hide YamlLines, ReadLine, Entry, PlainName, Standing;
    var comment, line := "# " + r.key + ": " + text, SettingLine(leaf, value);
    assert Terminated(Mapped([r], ByLine())) == comment + "\r" + (line + "\n" + "");
    assert RetiredLine(Retired(r.key, text)) == comment;
    RetiredLineIs(Retired(r.key, text));
    NbTextIsUnbroken(comment);
    LineIsUnbroken(leaf, value);
    OneReturnFirst(comment, line + "\n" + "");
    OneLineFirst(line, "");
    NothingIsALine();
    var lines := [comment, line, ""];
    assert [comment] + ([line] + [""]) == lines;
    assert YamlLines(Terminated(Mapped([r], ByLine()))) == lines;
    CommentsReadAsNothing(q, [comment]);
    EntryIsRead(q, leaf, value);
    EmptyLineIsRead(Entry(q, leaf, value));
    assert lines[..2] == [comment, line] && [comment, line][..1] == [comment];
    assert ReadLines(q, [comment, line]) == Entry(q, leaf, value);
  }

  lemma LineIsUnbroken(leaf: string, value: string)
    requires PlainName(leaf) && Plain(value)
    ensures Unbroken(SettingLine(leaf, value))
  {}

  /**
   * Retired as one value, it is a setting of the file's last section again: one the file has already
   * makes the whole file unreadable, and any other is read from it.
   */
  lemma AReturnLetsASettingIn(
      table: seq<Setting>, values: Values, o: RenderOptions, r: Retired, text: string, leaf: string, value: string, sys: System)
    requires sys.Lawful() && GoodTable(table, sys) && GoodOptions(o) && Covers(values, table) && AllWritable(table, values, sys)
    requires table != [] && o.retired == [r] && NbText(r.key) && NbText(text) && r.value == WithReturn(text, leaf, value)
    requires PlainName(leaf) && Plain(value)
    ensures
      var key := LastSection("", 0, table) + "." + leaf;
      var read := ReadText(Terminated(FileLines(table, values, o, sys)));
      && (read.broken <==> exists s :: s in table && Key(s) == key)
      && (!read.broken ==> key in read.found && read.found[key] == Scalar(value).value)
  {
    hide GoodSetting, GoodOptions, Before, YamlLines, Terminated, FileLines, ReadLine, Spelling, System.Lawful,
         LastSection, Key, Scalar, PlainName, NbText, Standing, Unbroken;
    assert PlainNumbers(table, values, sys) by { WritableNumbersArePlain(table, values, sys); }
    WrittenIsRead(table, values, o, sys);
    TheRestIsRetired(table, values, o, sys);
    var q := ReadLines(NOTHING_READ, Before(table, values, o, sys));
    TheRestIsASetting(r, text, leaf, value, q);
    assert table[0].section in SECTION_ORDER[0..];
    SomeSectionIsLast("", 0, table);
    PlainNamesArePrintable(leaf);
  }

  lemma WritableNumbersArePlain(table: seq<Setting>, values: Values, sys: System)
    requires Covers(values, table) && AllWritable(table, values, sys)
    ensures PlainNumbers(table, values, sys)
  {
    hide Spelling;
  }
}
