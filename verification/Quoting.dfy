/**
 * Double-quoted YAML scalars: quote of internal/config/writer.go, and the reading of YAML 1.2.2
 * (section 7.3.1, with the escapes of section 5.7) that has to undo it.
 */
module Quoting {
  import opened Prelude

  // ----- the writer -----

  function Escaped(r: char): string {
    match r
    case '"' => "\\\""
    case '\\' => "\\\\"
    case '\n' => "\\n"
    case '\r' => "\\r"
    case '\t' => "\\t"
    case _ => [r]
  }

  function EscapedAll(value: string): string {
    if value == "" then "" else Escaped(value[0]) + EscapedAll(value[1..])
  }

  function Quoted(value: string): string {
    "\"" + EscapedAll(value) + "\""
  }

  lemma {:induction false} EscapedSnoc(value: string, r: char)
    ensures EscapedAll(value + [r]) == EscapedAll(value) + Escaped(r)
  {
    if value == "" {
      assert [r][1..] == "";
    } else {
      assert (value + [r])[1..] == value[1..] + [r];
      EscapedSnoc(value[1..], r);
    }
  }

  lemma OneMoreRune(b: string, value: string, i: nat, written: string)
    requires i < |value| && b == "\"" + EscapedAll(value[..i]) && written == Escaped(value[i])
    ensures b + written == "\"" + EscapedAll(value[..i + 1])
  {
    hide Escaped;
    EscapedSnoc(value[..i], value[i]);
    assert value[..i + 1] == value[..i] + [value[i]];
  }

  method Quote(value: string) returns (b: string)
    ensures b == Quoted(value)
  {
    b := "\"";
    for i := 0 to |value|
      invariant b == "\"" + EscapedAll(value[..i])
    {
      var written;
      match value[i] {
        case '"' => written := "\\\"";
        case '\\' => written := "\\\\";
        case '\n' => written := "\\n";
        case '\r' => written := "\\r";
        case '\t' => written := "\\t";
        case _ => written := [value[i]];
      }
      OneMoreRune(b, value, i, written);
      b := b + written;
    }
    assert value[..|value|] == value;
    b := b + "\"";
  }

  // ----- the reader -----

  /** nb-json: what may stand unescaped in a quoted scalar (section 5.1). */
  predicate NbJson(c: char) { c == '\t' || c >= ' ' }

  /** nb-char: what may stand outside quotes and in comments (sections 5.1 and 5.4): printable, and no break. */
  predicate NbChar(c: char) {
    || c == '\t' || ' ' <= c <= '~' || c == '\U{85}' || '\U{A0}' <= c <= '\U{D7FF}'
    || ('\U{E000}' <= c <= '\U{FFFD}' && c != '\U{FEFF}') || c >= '\U{10000}'
  }

  predicate NbText(s: string) { forall c | c in s :: NbChar(c) }

  /** The escapes of section 5.7 that are one character; the hexadecimal ones are never written. */
  function Unescaped(c: char): Option<char> {
    match c
    case '0' => Some('\0')
    case 'a' => Some('\U{07}')
    case 'b' => Some('\U{08}')
    case 't' => Some('\t')
    case '\t' => Some('\t')
    case 'n' => Some('\n')
    case 'v' => Some('\U{0B}')
    case 'f' => Some('\U{0C}')
    case 'r' => Some('\r')
    case 'e' => Some('\U{1B}')
    case ' ' => Some(' ')
    case '"' => Some('"')
    case '/' => Some('/')
    case '\\' => Some('\\')
    case 'N' => Some('\U{85}')
    case '_' => Some('\U{A0}')
    case 'L' => Some('\U{2028}')
    case 'P' => Some('\U{2029}')
    case _ => None
  }

  function Prepended(c: Option<char>, rest: Option<string>): Option<string> {
    if c.None? || rest.None? then None else Some([c.value] + rest.value)
  }

  /** The content up to the closing quote, which has to be the end of the text. */
  function UnquotedRest(s: string): Option<string> {
    if s == "" then None
    else if s[0] == '"' then if |s| == 1 then Some("") else None
    else if s[0] == '\\' then
      if |s| == 1 then None else Prepended(Unescaped(s[1]), UnquotedRest(s[2..]))
    else Prepended(if NbJson(s[0]) then Some(s[0]) else None, UnquotedRest(s[1..]))
  }

  function Unquoted(s: string): Option<string> {
    if s != "" && s[0] == '"' then UnquotedRest(s[1..]) else None
  }

  /** What the writer has an escape for, or the reader needs none for. */
  predicate Quotable(value: string) {
    forall r | r in value :: NbJson(r) || r == '\n' || r == '\r'
  }

  lemma OneEscape(r: char, rest: string)
    ensures UnquotedRest(Escaped(r) + rest) ==
      Prepended(if Quotable([r]) then Some(r) else None, UnquotedRest(rest))
  {
    var s := Escaped(r) + rest;
    assert s[|Escaped(r)|..] == rest;
    assert r in [r];
  }

  lemma {:induction false} UnquotedEscapes(value: string)
    ensures UnquotedRest(EscapedAll(value) + "\"") == if Quotable(value) then Some(value) else None
  {
    if value == "" {
      assert EscapedAll(value) + "\"" == "\"";
    } else {
      var rest := EscapedAll(value[1..]) + "\"";
      assert EscapedAll(value) + "\"" == Escaped(value[0]) + rest;
      OneEscape(value[0], rest);
      UnquotedEscapes(value[1..]);
      assert value == [value[0]] + value[1..];
      assert Quotable(value) <==> Quotable([value[0]]) && Quotable(value[1..]);
    }
  }

  /** Quoting is undone exactly when the value has no control character but tab, line feed and return. */
  lemma QuotingIsUndoneIff(value: string)
    ensures Unquoted(Quoted(value)) == Some(value) <==> Quotable(value)
    ensures !Quotable(value) ==> Unquoted(Quoted(value)) == None
  {
    assert Quoted(value)[1..] == EscapedAll(value) + "\"";
    UnquotedEscapes(value);
  }

  /** A quoted value stays on its line. */
  lemma {:induction false} EscapedHasNoBreak(value: string)
    ensures '\n' !in EscapedAll(value) && '\r' !in EscapedAll(value)
  {
    if value != "" { EscapedHasNoBreak(value[1..]); }
  }
}
