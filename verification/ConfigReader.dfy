/**
 * Reading the configuration file: YAML 1.2.2 block mappings as far as the writer uses them, and the
 * fields filled from what was read (internal/config/config.go, bind.go).
 */
module ConfigReader {
  import opened Prelude
  import opened Text
  import opened TextLines
  import opened Quoting
  import opened Settings
  import opened ConfigLines

  datatype Reading = Reading(section: string, found: map<string, string>, broken: bool)

  /** A scalar: quoted, or plain. */
  function Scalar(text: string): Option<string> {
    if text != "" && text[0] == '"' then Unquoted(text) else if NbText(text) then Some(text) else None
  }

  function Broken(r: Reading): Reading { r.(broken := true) }

  /** A key may come once (section 3.2.1.1). */
  function Entry(r: Reading, name: string, text: string): Reading {
    var value, key := Scalar(text), r.section + "." + name;
    if r.section == "" || value.None? || !NbText(name) || key in r.found then Broken(r)
    else r.(found := r.found[key := value.value])
  }

  /** A comment holds printable characters only (section 6.6). */
  function ReadLine(r: Reading, line: string): Reading {
    if TrimSpace(line) == "" || IsComment(line) then if NbText(line) then r else Broken(r)
    else if line[0] != ' ' then
      if IsHeader(line) && NbText(line) then r.(section := HeaderName(line)) else Broken(r)
    else
      var cut := Cut(TrimSpace(line), ':');
      if cut.None? then Broken(r) else Entry(r, TrimSpace(cut.value.0), TrimSpace(cut.value.1))
  }

  function ReadLines(r: Reading, lines: seq<string>): Reading {
    if lines == [] then r else
    ReadLine(ReadLines(r, lines[..|lines| - 1]), lines[|lines| - 1])
  }

  const NOTHING_READ := Reading("", map[], false)

  function ReadText(text: string): Reading {
    ReadLines(NOTHING_READ, YamlLines(text))
  }

  /** The text a setting resolves to: the file's, or the declared default. */
  function Resolved(s: Setting, found: map<string, string>): string {
    if Key(s) in found then found[Key(s)] else s.standard
  }

  /** The configuration a file gives; None if it cannot be read, or one of its settings cannot. */
  ghost predicate Loads(text: string, table: seq<Setting>, config: map<string, Value>, sys: System) {
    var r := ReadText(text);
    && !r.broken
    && forall s | s in table ::
         s.flag in config && ReadSetting(s.field, Resolved(s, r.found), sys) == Some(config[s.flag])
  }

  /** populate: every setting is read, and one that cannot be fails the whole. */
  method Load(text: string, table: seq<Setting>, sys: System) returns (config: Option<map<string, Value>>)
    requires forall i, j | 0 <= i < j < |table| :: table[i].flag != table[j].flag
    ensures config.Some? ==> Loads(text, table, config.value, sys)
    ensures config.None? ==> forall c :: !Loads(text, table, c, sys)
  {
    hide ReadSetting, ReadText;
    var r := ReadText(text);
    if r.broken {
      return None;
    }
    var cfg: map<string, Value> := map[];
    var failed := false;
    for i := 0 to |table|
      invariant !failed ==> forall j | 0 <= j < i ::
        table[j].flag in cfg && ReadSetting(table[j].field, Resolved(table[j], r.found), sys) == Some(cfg[table[j].flag])
      invariant failed ==> exists j :: 0 <= j < i && ReadSetting(table[j].field, Resolved(table[j], r.found), sys) == None
    {
      var value := ReadSetting(table[i].field, Resolved(table[i], r.found), sys);
      if value.None? {
        failed := true;
      } else {
        cfg := cfg[table[i].flag := value.value];
      }
    }
    return if failed then None else Some(cfg);
  }

  lemma {:induction false} ReadConcat(r: Reading, a: seq<string>, b: seq<string>)
    ensures ReadLines(r, a + b) == ReadLines(ReadLines(r, a), b)
  {
    if b == [] {
      assert a + b == a;
    } else {
      assert (a + b)[..|a + b| - 1] == a + b[..|b| - 1];
      ReadConcat(r, a, b[..|b| - 1]);
    }
  }

  lemma {:induction false} CommentsReadAsNothing(r: Reading, lines: seq<string>)
    requires forall line | line in lines :: line == "" || (CommentLine(line) && NbText(line))
    ensures ReadLines(r, lines) == r
  {
    if lines != [] {
      var line := lines[|lines| - 1];
      CommentsReadAsNothing(r, lines[..|lines| - 1]);
      if line != "" { CommentsAreComments(line); }
    }
  }

  /** What is broken stays broken. */
  lemma {:induction false} BrokenForGood(r: Reading, lines: seq<string>)
    requires r.broken
    ensures ReadLines(r, lines).broken
  {
    if lines != [] { BrokenForGood(r, lines[..|lines| - 1]); }
  }

  /** A line nothing can be read from breaks the file. */
  lemma BadLineBreaks(r: Reading, lines: seq<string>, i: nat)
    requires i < |lines| && forall q :: ReadLine(q, lines[i]).broken
    ensures ReadLines(r, lines).broken
  {
    assert lines[..i + 1][..i] == lines[..i];
    assert ReadLines(r, lines[..i + 1]).broken;
    ReadConcat(r, lines[..i + 1], lines[i + 1..]);
    assert lines[..i + 1] + lines[i + 1..] == lines;
    BrokenForGood(ReadLines(r, lines[..i + 1]), lines[i + 1..]);
  }

  lemma HeaderIsRead(r: Reading, section: string)
    requires PlainName(section)
    ensures ReadLine(r, section + ":") == r.(section := section)
  {
    HeaderShape(section);
    PlainNamesArePrintable(section);
  }

  lemma PlainNamesArePrintable(name: string)
    requires PlainName(name)
    ensures NbText(name) && NbText(name + ":")
  {
    assert forall c | c in name + ":" :: c in name || c == ':';
  }

  lemma EntryIsRead(r: Reading, leaf: string, scalar: string)
    requires PlainName(leaf) && Standing(scalar)
    ensures ReadLine(r, "  " + leaf + ": " + scalar) == Entry(r, leaf, scalar)
  {
    EntryShape(leaf, scalar);
  }
}
