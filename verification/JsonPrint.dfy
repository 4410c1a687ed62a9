/** The json-c printers: snprintf of 64-bit integers, json_escape_str and the
    object and array serializers, for every combination of the SPACED, PRETTY,
    PRETTY_TAB and NOSLASHESCAPE flags. */
module JsonPrint {
  import opened Json

  datatype Flags = Flags(spaced: bool, pretty: bool, prettyTab: bool, noSlashEscape: bool)

  // ---- decimal integers ----------------------------------------------------

  predicate IsDigit(c: char) { '0' <= c <= '9' }

  predicate AllDigits(s: string) {
    forall i :: 0 <= i < |s| ==> IsDigit(s[i])
  }

  function DigitChar(d: int): (c: char)
    requires 0 <= d < 10
    ensures IsDigit(c) && c as int - '0' as int == d
  {
    (d + '0' as int) as char
  }

  function DigitsValue(s: string): nat
    requires AllDigits(s)
  {
    if s == "" then 0
    else DigitsValue(s[..|s| - 1]) * 10 + (s[|s| - 1] as int - '0' as int)
  }

  function Decimal(n: nat): (s: string)
    ensures s != "" && AllDigits(s)
    ensures DigitsValue(s) == n
    ensures s[0] == '0' ==> n == 0
  {
    if n < 10 then
      assert DigitsValue([DigitChar(n)][..0]) == 0;
      [DigitChar(n)]
    else
      var s := Decimal(n / 10) + [DigitChar(n % 10)];
      assert s[..|s| - 1] == Decimal(n / 10);
      s
  }

  function PrintInt(n: int): string {
    if n < 0 then "-" + Decimal(-n) else Decimal(n)
  }

  // ---- strings -------------------------------------------------------------

  function HexDigit(d: int): char
    requires 0 <= d < 16
  {
    if d < 10 then (d + '0' as int) as char else (d - 10 + 'a' as int) as char
  }

  /** Bytes with a two-character escape. */
  predicate HasShortEscape(c: char) {
    c == '\U{08}' || c == '\n' || c == '\r' || c == '\t' || c == '\U{0C}'
    || c == '"' || c == '\\' || c == '/'
  }

  function ShortEscape(c: char): string
    requires HasShortEscape(c)
  {
    if c == '\U{08}' then "\\b"
    else if c == '\n' then "\\n"
    else if c == '\r' then "\\r"
    else if c == '\t' then "\\t"
    else if c == '\U{0C}' then "\\f"
    else if c == '"' then "\\\""
    else if c == '\\' then "\\\\"
    else "\\/"
  }

  /** The bytes json_escape_str writes for one input byte. */
  function EscapeChar(c: char, f: Flags): string {
    if c == '/' && f.noSlashEscape then [c]
    else if HasShortEscape(c) then ShortEscape(c)
    else if c < ' ' then "\\u00" + [HexDigit(c as int / 16), HexDigit(c as int % 16)]
    else [c]
  }

  function Escape(s: string, f: Flags): string {
    if s == "" then "" else EscapeChar(s[0], f) + Escape(s[1..], f)
  }

  lemma {:induction false} EscapeSnoc(s: string, c: char, f: Flags)
    ensures Escape(s + [c], f) == Escape(s, f) + EscapeChar(c, f)
  {
    if s == "" {
      assert s + [c] == [c];
      assert Escape([c][1..], f) == "";
    } else {
      assert (s + [c])[1..] == s[1..] + [c];
      EscapeSnoc(s[1..], c, f);
    }
  }

  lemma {:induction false} EscapeNext(str: string, pos: nat, f: Flags)
    requires pos < |str|
    ensures Escape(str[..pos + 1], f) == Escape(str[..pos], f) + EscapeChar(str[pos], f)
  {
    assert str[..pos + 1] == str[..pos] + [str[pos]];
    EscapeSnoc(str[..pos], str[pos], f);
  }

  /** The switch inside json_escape_str: the escape of one byte, or `copied`
      when the byte just extends the current run. */
  method EscapeByte(c: char, f: Flags) returns (copied: bool, esc: string)
    ensures esc == EscapeChar(c, f)
    ensures copied ==> esc == [c]
  {
    if HasShortEscape(c) {
      if f.noSlashEscape && c == '/' {
        return true, [c];
      }
      return false, ShortEscape(c);
    }
    if c < ' ' {
      return false, "\\u00" + [HexDigit(c as int / 16), HexDigit(c as int % 16)];
    }
    return true, [c];
  }

  /** The run of copied bytes gets one byte longer. */
  lemma {:induction false} RunLonger(out: string, str: string, from: nat, pos: nat, all: string)
    requires from <= pos < |str| && out + str[from..pos] == all
    ensures out + str[from..pos + 1] == all + [str[pos]]
  {
  }

  /** json_escape_str: the loop appends runs of plain bytes in one piece and
      escapes the rest, with `startOffset` at the beginning of the current run. */
  method EscapeStr(pb: string, str: string, f: Flags) returns (out: string)
    ensures out == pb + Escape(str, f)
  {
    var pos, startOffset := 0, 0;
    out := pb;
    ghost var all := pb;
    assert out + str[0..0] == all;
    while pos < |str|
      invariant 0 <= startOffset <= pos <= |str|
      invariant all == pb + Escape(str[..pos], f)
      invariant out + str[startOffset..pos] == all
    {
      var copied, esc := EscapeByte(str[pos], f);
      EscapeNext(str, pos, f);
      if copied {
        RunLonger(out, str, startOffset, pos, all);
      } else {
        if pos > startOffset {
          out := out + str[startOffset..pos];
        }
        assert out == all;
        out := out + esc;
        startOffset := pos + 1;
        assert out + str[pos + 1..pos + 1] == out;
      }
      all := all + esc;
      pos := pos + 1;
    }
    assert str[..pos] == str;
    if pos > startOffset {
      out := out + str[startOffset..pos];
    }
  }

  // ---- values --------------------------------------------------------------

  function Repeat(c: char, n: nat): (s: string)
    ensures |s| == n && forall i :: 0 <= i < n ==> s[i] == c
  {
    seq(n, _ => c)
  }

  function Indent(level: nat, f: Flags): string {
    if !f.pretty then ""
    else if f.prettyTab then Repeat('\t', level)
    else Repeat(' ', level * 2)
  }

  /** What precedes each child of a container printed at `level`. */
  function Lead(level: nat, f: Flags): string {
    (if f.pretty then "\n" else if f.spaced then " " else "") + Indent(level + 1, f)
  }

  /** What follows the last child, before the closing bracket. */
  function Trail(level: nat, hadChildren: bool, f: Flags): string {
    (if f.pretty && hadChildren then "\n" + Indent(level, f) else "")
    + (if f.spaced && !f.pretty then " " else "")
  }

  function Colon(f: Flags): string { if f.spaced then ": " else ":" }

  function Quoted(s: string, f: Flags): string { "\"" + Escape(s, f) + "\"" }

  function Print(v: Json, level: nat, f: Flags): string
    decreases v
  {
    match v
    case Null => "null"
    case Bool(b) => if b then "true" else "false"
    case Int64(i) => PrintInt(i)
    case UInt64(u) => PrintInt(u)
    case Str(s) => Quoted(s, f)
    case Arr(items) =>
      "[" + PrintItems(items, true, level, f) + Trail(level, items != [], f) + "]"
    case Obj(fields) =>
      "{" + PrintFields(fields, true, level, f) + Trail(level, fields != [], f) + "}"
  }

  function PrintItems(items: seq<Json>, first: bool, level: nat, f: Flags): string
    decreases items
  {
    if items == [] then ""
    else
      (if first then "" else ",") + Lead(level, f) + Print(items[0], level + 1, f)
      + PrintItems(items[1..], false, level, f)
  }

  function PrintFields(fields: seq<Field>, first: bool, level: nat, f: Flags): string
    decreases fields
  {
    if fields == [] then ""
    else
      (if first then "" else ",") + Lead(level, f)
      + Quoted(fields[0].key, f) + Colon(f) + Print(fields[0].value, level + 1, f)
      + PrintFields(fields[1..], false, level, f)
  }
}
