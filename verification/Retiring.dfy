/**
 * Keys a configuration file has that no setting has any more (internal/config/retired.go): found in the
 * file that is replaced and kept as comments in the file that replaces it.
 */
module Retiring {
  import opened Prelude
  import opened Text
  import opened TextLines
  import opened Sorting
  import opened Quoting
  import opened Settings
  import opened ConfigFile
  import opened ConfigLines

  /** The setting an indented line names in its section. */
  function Named(section: string, line: string): Option<Retired> {
    if section == "" || line == "" || line[0] != ' ' then None else
    var cut := Cut(TrimSpace(line), ':');
    if cut.None? then None
    else Some(Retired(section + "." + TrimSpace(cut.value.0), TrimSpace(cut.value.1)))
  }

  datatype Scan = Scan(section: string, retired: seq<Retired>)

  function Scanned(scan: Scan, line: string, known: set<string>): Scan {
    var trimmed := WithoutReturns(line);
    if trimmed == "" || IsComment(trimmed) then scan
    else if IsHeader(trimmed) then scan.(section := HeaderName(trimmed))
    else
      var r := Named(scan.section, trimmed);
      if r.None? || r.value.key in known then scan else scan.(retired := scan.retired + [r.value])
  }

  function ScannedAll(scan: Scan, lines: seq<string>, known: set<string>): Scan {
    if lines == [] then scan else
    Scanned(ScannedAll(scan, lines[..|lines| - 1], known), lines[|lines| - 1], known)
  }

  function KnownKeys(table: seq<Setting>): set<string> {
    set s | s in table :: Key(s)
  }

  function ByKey(): (Retired, Retired) -> bool { (a: Retired, b: Retired) => StringLess(a.key, b.key) }

  lemma ByKeyIsStrictWeak()
    ensures StrictWeak(ByKey())
  {
    forall a ensures !ByKey()(a, a) { StringLessIrreflexive(a.key); }
    forall a, b, c | ByKey()(a, b) && ByKey()(b, c) ensures ByKey()(a, c) { StringLessTransitive(a.key, b.key, c.key); }
    forall a, b, c | !ByKey()(a, b) && !ByKey()(b, c) ensures !ByKey()(a, c) { StringNotLess(a.key, b.key, c.key); }
  }

  /** Found line by line, then sorted by key. */
  method RetiredIn(existing: string, table: seq<Setting>) returns (retired: seq<Retired>)
    ensures multiset(retired) == multiset(ScannedAll(Scan("", []), SplitLines(existing), KnownKeys(table)).retired)
    ensures Sorted(retired, ByKey())
  {
    hide WithoutReturns, IsComment, IsHeader, HeaderName, Named;
    var known := KnownKeys(table);
    var section := "";
    retired := [];
    var lines := SplitLines(existing);
    for i := 0 to |lines|
      invariant Scan(section, retired) == ScannedAll(Scan("", []), lines[..i], known)
    {
      assert lines[..i + 1][..i] == lines[..i];
      var trimmed := WithoutReturns(lines[i]);
      if trimmed == "" || IsComment(trimmed) {
        continue;
      }
      if IsHeader(trimmed) {
        section := HeaderName(trimmed);
        continue;
      }
      var r := Named(section, trimmed);
      if r.None? {
        continue;
      }
      if r.value.key in known {
        continue;
      }
      retired := retired + [r.value];
    }
    assert lines[..|lines|] == lines;
    ByKeyIsStrictWeak();
    StableSortSorts(retired, ByKey());
    StableSortPermutes(retired, ByKey());
    retired := StableSort(retired, ByKey());
  }
}
