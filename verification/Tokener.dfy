/** json_tokener as a pushdown machine over single characters.

    `Step` is one pass of the big switch: it either consumes the character
    (`Next`), jumps back to `redo_char` (`Redo`) or leaves the loop (`Out`).
    `Char` follows the redo jumps, `Run` is the loop of one call and `ParseEx` is
    the call itself.  The printbuf grows one character at a time here; the class
    `JsonTokener` appends whole runs and is proved to reach the same states. */
module Tokener {
  import opened Json
  import opened JsonPrint

  /** enum json_tokener_state, as the number C gives each enumerator. */
  type State = int

  const Eatws: State := 0
  const Start: State := 1
  const Finish: State := 2
  const NullWord: State := 3
  const CommentStart: State := 4
  const Comment: State := 5
  const CommentEol: State := 6
  const CommentEnd: State := 7
  const InString: State := 8
  const StringEscape: State := 9
  const EscapeUnicode: State := 10
  const NeedEscape: State := 11
  const NeedU: State := 12
  const Boolean: State := 13
  const Number: State := 14
  const Array: State := 15
  const ArrayAdd: State := 16
  const ArraySep: State := 17
  const FieldStart: State := 18
  const InField: State := 19
  const FieldEnd: State := 20
  const ObjValue: State := 21
  const ObjValueAdd: State := 22
  const ObjSep: State := 23
  const ArrayAfterSep: State := 24
  const FieldStartAfterSep: State := 25
  const Inf: State := 26

  datatype Error =
    | Success | Continue | TooDeep | Eof | Unexpected | ParseNull | ParseBoolean | ParseNumber
    | ParseArray | KeyName | KeySep | ValueSep | ParseString | ParseComment
    | ForeignDouble  // the input denotes a double: strtod is not modelled

  /** One json_tokener_srec. */
  datatype Level = Level(state: State, saved: State, current: Json, field: string)

  /** Locals of the number case, alive only inside one call. */
  datatype NumLocals = NumLocals(isExponent: bool, negOk: bool, posOk: bool, caseLen: nat)

  datatype MaybeLocals = NoLocals | Locals(l: NumLocals)

  /** The fields of json_tokener that one token uses. */
  datatype Scratch = Scratch(
    pb: string,
    stPos: nat,
    ucs: nat,              // ucs_char
    high: nat,             // high_surrogate
    quote: char,
    isDouble: bool,
    num: MaybeLocals)

  datatype Env = Env(maxDepth: nat, strict: bool, allowTrailing: bool)

  datatype Tok = Tok(
    base: seq<Level>,      // stack[0..depth]
    top: Level,            // stack[depth]
    w: Scratch,
    env: Env)

  datatype Outcome = Redo(t: Tok) | Next(t: Tok) | Out(err: Error, t: Tok)

  const FRESH := Level(Eatws, Start, Null, "")

  function Init(env: Env): Tok {
    Tok([], FRESH, Scratch("", 0, 0, 0, NUL, false, NoLocals), env)
  }

  predicate IsWs(c: char) { c == ' ' || c == '\t' || c == '\n' || c == '\r' }

  predicate IsHex(c: char) {
    ('0' <= c <= '9') || ('A' <= c <= 'F') || ('a' <= c <= 'f')
  }

  /** jt_hexdigit */
  function HexValue(c: char): (d: int)
    requires IsHex(c)
    ensures 0 <= d < 16
  {
    if c <= '9' then c as int - '0' as int else c as int % 8 + 9
  }

  function To(t: Tok, s: State): Tok { t.(top := t.top.(state := s)) }

  /** state = eatws; saved_state = s */
  function Then(t: Tok, s: State): Tok { t.(top := t.top.(state := Eatws, saved := s)) }

  function Put(t: Tok, s: string): Tok { t.(w := t.w.(pb := t.w.pb + s)) }

  /** A finished value: current = v, then eatws until finish. */
  function Done(t: Tok, v: Json): Tok {
    t.(top := t.top.(state := Eatws, saved := Finish, current := v),
       w := t.w.(num := NoLocals))
  }

  function Push(t: Tok, s: State): Tok {
    t.(base := t.base + [t.top.(state := s)], top := FRESH)
  }

  // ---- the cases of the switch ---------------------------------------------

  function StepEatws(t: Tok, c: char): Outcome {
    if IsWs(c) then Next(t)
    else if c == '/' && !t.env.strict then Next(To(t.(w := t.w.(pb := [c])), CommentStart))
    else Redo(To(t, t.top.saved))
  }

  function StartWord(t: Tok, s: State): Tok { To(t.(w := t.w.(pb := "", stPos := 0)), s) }

  function StartText(t: Tok, c: char, s: State): Tok { To(t.(w := t.w.(pb := "", quote := c)), s) }

  function StartNumber(t: Tok): Tok {
    To(t.(w := t.w.(pb := "", isDouble := false, num := NoLocals)), Number)
  }

  function Open(t: Tok, v: Json, s: State): Tok {
    t.(top := t.top.(state := Eatws, saved := s, current := v))
  }

  function StepStart(t: Tok, c: char): Outcome {
    if c == '{' then Next(Open(t, Obj([]), FieldStart))
    else if c == '[' then Next(Open(t, Arr([]), Array))
    else if c == 'I' || c == 'i' then Redo(StartWord(t, Inf))
    else if c == 'N' || c == 'n' then Redo(StartWord(t, NullWord))
    else if c == '"' || (c == '\'' && !t.env.strict) then Next(StartText(t, c, InString))
    else if c == 'T' || c == 't' || c == 'F' || c == 'f' then Redo(StartWord(t, Boolean))
    else if IsDigit(c) || c == '-' then Redo(StartNumber(t))
    else Out(Unexpected, t)
  }

  predicate Waiting(l: Level) {
    (l.state == ArrayAdd && l.current.Arr?) || (l.state == ObjValueAdd && l.current.Obj?)
  }

  /** The parent level after it has added the finished child. */
  function AddChild(up: Level, v: Json): Level
    requires Waiting(up)
  {
    if up.state == ArrayAdd then
      Level(Eatws, ArraySep, Arr(up.current.items + [v]), up.field)
    else
      Level(Eatws, ObjSep, Obj(ObjectPut(up.current.fields, up.field, v)), "")
  }

  function Pop(t: Tok): Tok
    requires t.base != [] && Waiting(t.base[|t.base| - 1])
  {
    var up := t.base[|t.base| - 1];
    t.(base := t.base[..|t.base| - 1], top := AddChild(up, t.top.current))
  }

  /** Finish: at depth 0 the call ends, otherwise the value is handed to the parent,
      which adds it in the same pass (the local `obj` never outlives the character). */
  function StepFinish(t: Tok): Outcome {
    if t.base == [] then Out(Success, t)
    else if Waiting(t.base[|t.base| - 1]) then Redo(Pop(t))
    else Out(Unexpected, t)  // unreachable: see Valid
  }

  function Lower(c: char): char {
    if 'A' <= c <= 'Z' then (c as int + 32) as char else c
  }

  /** strncmp / strncasecmp of the first |w| characters of buf with w. */
  predicate Matches(w: string, buf: string, strict: bool) {
    |w| <= |buf|
    && (buf[..|w|] == w
        || (!strict && forall i :: 0 <= i < |w| ==> Lower(w[i]) == Lower(buf[i])))
  }

  function Min(a: nat, b: nat): nat { if a < b then a else b }

  function Longer(t: Tok): Tok { t.(w := t.w.(stPos := t.w.stPos + 1)) }

  function StepNull(t: Tok, c: char): Outcome {
    var t1 := Put(t, [c]);
    if Matches("null"[..Min(t.w.stPos + 1, 4)], t1.w.pb, t.env.strict) then
      if t.w.stPos == 4 then Redo(Done(t1, Null)) else Next(Longer(t1))
    else if Matches("NaN"[..Min(t.w.stPos + 1, 3)], t1.w.pb, t.env.strict) then
      if t.w.stPos == 3 then Out(ForeignDouble, t1) else Next(Longer(t1))
    else Out(ParseNull, t1)
  }

  function StepBoolean(t: Tok, c: char): Outcome {
    var t1 := Put(t, [c]);
    if Matches("true"[..Min(t.w.stPos + 1, 4)], t1.w.pb, t.env.strict) then
      if t.w.stPos == 4 then Redo(Done(t1, Bool(true))) else Next(Longer(t1))
    else if Matches("false"[..Min(t.w.stPos + 1, 5)], t1.w.pb, t.env.strict) then
      if t.w.stPos == 5 then Redo(Done(t1, Bool(false))) else Next(Longer(t1))
    else Out(ParseBoolean, t1)
  }

  function StepCommentStart(t: Tok, c: char): Outcome {
    if c == '*' then Next(To(Put(t, [c]), Comment))
    else if c == '/' then Next(To(Put(t, [c]), CommentEol))
    else Out(ParseComment, t)
  }

  function StepComment(t: Tok, c: char): Outcome {
    if t.top.state == Comment then
      Next(To(Put(t, [c]), if c == '*' then CommentEnd else Comment))
    else if t.top.state == CommentEol then
      if c == '\n' then Next(To(t, Eatws)) else Next(Put(t, [c]))
    else
      Next(To(Put(t, [c]), if c == '/' then Eatws else Comment))
  }

  /** Text up to the first NUL: what strdup keeps of the printbuf. */
  function CString(s: string): string {
    if s == "" || s[0] == NUL then "" else [s[0]] + CString(s[1..])
  }

  /** The closing quote of a string or of a field name. */
  function CloseText(t: Tok): Tok {
    if t.top.state == InString then Done(t, Str(t.w.pb))
    else t.(top := t.top.(state := Eatws, saved := FieldEnd, field := CString(t.w.pb)))
  }

  /** json_tokener_state_string and json_tokener_state_object_field */
  function StepText(t: Tok, c: char): Outcome {
    if c == t.w.quote then Next(CloseText(t))
    else if c == '\\' then Next(t.(top := t.top.(saved := t.top.state, state := StringEscape)))
    else if t.env.strict && c as int <= 0x1f then Out(ParseString, t)
    else Next(Put(t, [c]))
  }

  /** The byte a one-letter escape stands for; "" when there is none. */
  function Unescaped(c: char): string {
    if c == '"' || c == '\\' || c == '/' then [c]
    else if c == 'b' then "\U{08}"
    else if c == 'n' then "\n"
    else if c == 'r' then "\r"
    else if c == 't' then "\t"
    else if c == 'f' then "\U{0C}"
    else ""
  }

  function StepEscape(t: Tok, c: char): Outcome {
    if c == 'u' then Next(To(t.(w := t.w.(ucs := 0, stPos := 0)), EscapeUnicode))
    else if Unescaped(c) != "" then Next(To(Put(t, Unescaped(c)), t.top.saved))
    else Out(ParseString, t)
  }

  const REPLACEMENT := "\U{EF}\U{BF}\U{BD}"

  predicate IsHigh(u: int) { 0xD800 <= u < 0xDC00 }
  predicate IsLow(u: int) { 0xDC00 <= u < 0xE000 }

  /** DECODE_SURROGATE_PAIR */
  function Pair(hi: nat, lo: nat): nat { hi % 0x400 * 0x400 + lo % 0x400 + 0x10000 }

  /** The bytes appended for one code point that is not a high surrogate. */
  function AppendedBytes(u: nat): string {
    if u < 0x80 then [u as char]
    else if u < 0x800 then [(0xC0 + u / 0x40) as char, (0x80 + u % 0x40) as char]
    else if IsHigh(u) || IsLow(u) then REPLACEMENT
    else if u < 0x10000 then
      [(0xE0 + u / 0x1000) as char, (0x80 + u / 0x40 % 0x40) as char, (0x80 + u % 0x40) as char]
    else if u < 0x110000 then
      [(0xF0 + u / 0x40000 % 8) as char, (0x80 + u / 0x1000 % 0x40) as char,
       (0x80 + u / 0x40 % 0x40) as char, (0x80 + u % 0x40) as char]
    else REPLACEMENT
  }

  /** A complete \uNNNN in ucs: what it does to the scratch fields. */
  function EndUnicode(w: Scratch): Scratch {
    var paired := w.high != 0 && IsLow(w.ucs);
    var u := if paired then Pair(w.high, w.ucs) else w.ucs;
    var pb := if w.high != 0 && !paired then w.pb + REPLACEMENT else w.pb;
    if IsHigh(u) then w.(pb := pb, stPos := 0, high := u, ucs := 0)
    else w.(pb := pb + AppendedBytes(u), stPos := 0, high := 0, ucs := u)
  }

  function Pow16(n: nat): nat { if n == 0 then 1 else 16 * Pow16(n - 1) }

  /** One hex digit; `|=` of a digit into still clear bits is addition. */
  function PutHex(w: Scratch, c: char): Scratch
    requires IsHex(c)
  {
    w.(ucs := w.ucs + HexValue(c) * Pow16(if w.stPos < 3 then 3 - w.stPos else 0),
       stPos := w.stPos + 1)
  }

  function StepUnicode(t: Tok, c: char): Outcome {
    if !IsHex(c) then Out(ParseString, t)
    else
      var w := PutHex(t.w, c);
      if w.stPos < 4 then Next(t.(w := w))
      else
        var w' := EndUnicode(w);
        Next(To(t.(w := w'), if w'.high != 0 then NeedEscape else t.top.saved))
  }

  /** A high surrogate that turns out to stand alone. */
  function Unpaired(w: Scratch): Scratch {
    w.(pb := w.pb + REPLACEMENT, high := 0, ucs := 0, stPos := 0)
  }

  function StepNeedEscape(t: Tok, c: char): Outcome {
    if c == '\\' then Next(To(t, NeedU))
    else Redo(To(t.(w := Unpaired(t.w)), t.top.saved))
  }

  function StepNeedU(t: Tok, c: char): Outcome {
    if c == 'u' then Next(To(t, EscapeUnicode))
    else Redo(To(t.(w := Unpaired(t.w)), StringEscape))
  }

  // ---- numbers --------------------------------------------------------------

  predicate HasExponent(pb: string) { 'e' in pb || 'E' in pb }

  /** The locals on entry to the number case: rebuilt from what earlier calls saved. */
  function Regenerate(pb: string): NumLocals {
    if HasExponent(pb) then
      // strchr finds the first 'e', or the first 'E' when there is no 'e'
      var atEnd := (pb[|pb| - 1] == 'e' && 'e' !in pb[..|pb| - 1])
                || ('e' !in pb && pb[|pb| - 1] == 'E' && 'E' !in pb[..|pb| - 1]);
      NumLocals(true, atEnd, atEnd, 0)
    else NumLocals(false, true, false, 0)
  }

  function LocalsOf(w: Scratch): NumLocals {
    if w.num.Locals? then w.num.l else Regenerate(w.pb)
  }

  predicate IsNumberChar(c: char, l: NumLocals, isDouble: bool) {
    IsDigit(c) || (!l.isExponent && (c == 'e' || c == 'E'))
    || (l.negOk && c == '-') || (l.posOk && c == '+') || (!isDouble && c == '.')
  }

  function AfterNumberChar(c: char, l: NumLocals): NumLocals {
    if c == '.' then NumLocals(l.isExponent, true, true, l.caseLen + 1)
    else if c == 'e' || c == 'E' then NumLocals(true, true, true, l.caseLen + 1)
    else NumLocals(l.isExponent, false, false, l.caseLen + 1)
  }

  predicate EndsNumber(c: char) {
    c == ',' || c == ']' || c == '}' || c == '/' || c == 'I' || c == 'i' || IsWs(c)
  }

  function DigitPrefix(s: string): (p: string)
    ensures AllDigits(p) && p <= s
  {
    if s == "" || !IsDigit(s[0]) then "" else [s[0]] + DigitPrefix(s[1..])
  }

  /** strtoll / strtoull through json_parse_int64 / json_parse_uint64: the longest
      digit prefix, clamped to the type; false when there is no digit. */
  function FinishNumber(pb: string, strict: bool): (r: (bool, Json)) {
    var negative := pb != "" && pb[0] == '-';
    var digits := DigitPrefix(if negative then pb[1..] else pb);
    if digits == "" then (false, Null)
    else
      var n: int := DigitsValue(digits);
      if negative then
        if -n < INT64_MIN then (!strict, Int64(INT64_MIN)) else (true, Int64(-n))
      else if strict && n != 0 && pb[0] == '0' then (false, Null)
      else if n > UINT64_MAX then (!strict, UInt64(UINT64_MAX))
      else (true, if n <= INT64_MAX then Int64(n) else UInt64(n))
  }

  function PutNumberChar(w: Scratch, c: char, l: NumLocals): Scratch {
    w.(pb := w.pb + [c], num := Locals(AfterNumberChar(c, l)),
       isDouble := w.isDouble || c == '.' || c == 'e' || c == 'E')
  }

  /** After the last number character; `r` is what FinishNumber makes of the text. */
  function EndNumber(t: Tok, c: char, l: NumLocals, r: (bool, Json)): Outcome {
    if t.w.pb != "" && t.w.pb[0] == '-' && l.caseLen <= 1 && (c == 'i' || c == 'I') then
      Redo(To(t.(w := t.w.(stPos := 0, num := NoLocals)), Inf))
    else if t.w.isDouble then Out(ForeignDouble, t)
    else if r.0 then Redo(Done(t, r.1))
    else Out(ParseNumber, t)
  }

  function StepNumber(t: Tok, c: char): Outcome {
    var l := LocalsOf(t.w);
    if c != NUL && IsNumberChar(c, l, t.w.isDouble) then
      Next(t.(w := PutNumberChar(t.w, c, l)))
    else if t.base != [] && !EndsNumber(c) then Out(ParseNumber, t)
    else EndNumber(t, c, l, FinishNumber(t.w.pb, t.env.strict))
  }

  // ---- containers -----------------------------------------------------------

  function StepArray(t: Tok, c: char): Outcome {
    if c == ']' then
      if t.top.state == ArrayAfterSep && t.env.strict then Out(Unexpected, t)
      else Next(Then(t, Finish))
    else if |t.base| + 1 >= t.env.maxDepth then Out(TooDeep, t)
    else Redo(Push(t, ArrayAdd))
  }

  function StepArraySep(t: Tok, c: char): Outcome {
    if c == ']' then Next(Then(t, Finish))
    else if c == ',' then Next(Then(t, ArrayAfterSep))
    else Out(ParseArray, t)
  }

  function StepFieldStart(t: Tok, c: char): Outcome {
    if c == '}' then
      if t.top.state == FieldStartAfterSep && t.env.strict then Out(Unexpected, t)
      else Next(Then(t, Finish))
    else if c == '"' || c == '\'' then Next(StartText(t, c, InField))
    else Out(KeyName, t)
  }

  function StepFieldEnd(t: Tok, c: char): Outcome {
    if c == ':' then Next(Then(t, ObjValue)) else Out(KeySep, t)
  }

  function StepObjValue(t: Tok): Outcome {
    if |t.base| + 1 >= t.env.maxDepth then Out(TooDeep, t) else Redo(Push(t, ObjValueAdd))
  }

  function StepObjSep(t: Tok, c: char): Outcome {
    if c == '}' then Next(Then(t, Finish))
    else if c == ',' then Next(Then(t, FieldStartAfterSep))
    else Out(ValueSep, t)
  }

  function StepToken(t: Tok, c: char): Outcome {
    var s := t.top.state;
    if s == Start then StepStart(t, c)
    else if s == Finish then StepFinish(t)
    else if s == NullWord then StepNull(t, c)
    else if s == Boolean then StepBoolean(t, c)
    else if s == Number then StepNumber(t, c)
    else Out(ForeignDouble, t)  // Inf
  }

  function StepCharacters(t: Tok, c: char): Outcome {
    var s := t.top.state;
    if s == StringEscape then StepEscape(t, c)
    else if s == EscapeUnicode then StepUnicode(t, c)
    else if s == NeedEscape then StepNeedEscape(t, c)
    else if s == NeedU then StepNeedU(t, c)
    else StepText(t, c)  // InString and InField
  }

  function StepContainer(t: Tok, c: char): Outcome {
    var s := t.top.state;
    if s == Array || s == ArrayAfterSep then StepArray(t, c)
    else if s == ArraySep then StepArraySep(t, c)
    else if s == FieldStart || s == FieldStartAfterSep then StepFieldStart(t, c)
    else if s == FieldEnd then StepFieldEnd(t, c)
    else if s == ObjValue then StepObjValue(t)
    else if s == ObjSep then StepObjSep(t, c)
    else Out(Unexpected, t)  // ArrayAdd and ObjValueAdd are entered only from Finish
  }

  predicate Wording(s: State) { s == NullWord || s == Boolean || s == Number || s == Inf }

  predicate Unicoding(s: State) { s == EscapeUnicode || s == NeedEscape || s == NeedU }

  predicate Commenting(s: State) { s == Comment || s == CommentEol || s == CommentEnd }

  predicate Quoting(s: State) {
    s == InString || s == InField || s == StringEscape || Unicoding(s)
  }

  function Step(t: Tok, c: char): Outcome {
    var s := t.top.state;
    if s == Eatws then StepEatws(t, c)
    else if Quoting(s) then StepCharacters(t, c)
    else if s == Start || s == Finish || Wording(s) then StepToken(t, c)
    else if s == CommentStart then StepCommentStart(t, c)
    else if Commenting(s) then StepComment(t, c)
    else StepContainer(t, c)
  }

  // ---- what every character keeps -------------------------------------------

  /** A state in which `Eatws` may be told to continue. */
  predicate Resumable(s: State, v: Json) {
    || s == Start || s == Finish
    || (v.Arr? && (s == Array || s == ArrayAfterSep || s == ArraySep))
    || (v.Obj? && (s == FieldStart || s == FieldStartAfterSep || s == FieldEnd
                   || s == ObjValue || s == ObjSep))
  }

  predicate InText(s: State, v: Json) { s == InString || (s == InField && v.Obj?) }

  predicate Spacing(s: State) { s == Eatws || s == CommentStart || Commenting(s) }

  predicate TopOk(l: Level) {
    (l.saved == Finish ==> Spacing(l.state) || l.state == Finish)
    && if Spacing(l.state) then Resumable(l.saved, l.current)
    else if l.state == StringEscape || Unicoding(l.state) then InText(l.saved, l.current)
    else Wording(l.state) || InText(l.state, l.current) || Resumable(l.state, l.current)
  }

  /** What high_surrogate can hold. */
  predicate HighOk(w: Scratch) { w.high == 0 || IsHigh(w.high) }

  /** Number locals live only inside a number, and a text being read knows its quote. */
  predicate ScratchOk(s: State, w: Scratch) {
    && (w.num.Locals? ==> s == Number)
    && (Quoting(s) ==> w.quote != NUL)
    && HighOk(w)
    && (s == EscapeUnicode ==> w.stPos < 4)
    && (s == NeedEscape || s == NeedU ==> w.high != 0 && w.stPos == 0 && w.ucs == 0)
  }

  ghost predicate BaseOk(base: seq<Level>, env: Env) {
    && |base| + 1 <= env.maxDepth
    && forall i :: 0 <= i < |base| ==> Waiting(base[i])
  }

  /** The stack stays within max_depth, every level below the top waits to add a
      child to a container of the right kind, and the scratch fields fit the state. */
  ghost predicate Valid(t: Tok) {
    BaseOk(t.base, t.env) && TopOk(t.top) && ScratchOk(t.top.state, t.w)
  }

  /** A high surrogate is pending only inside an escape.  Every tokener starts so;
      json_tokener_reset in the middle of an escape does not restore it. */
  ghost predicate Clean(t: Tok) {
    Valid(t) && (t.w.high == 0 || Unicoding(t.top.state))
  }

  /** Bounds the number of redo jumps on one character. */
  function Rank(l: Level): nat {
    if l.state == Eatws then RankOf(l.saved) + 1 else RankOf(l.state)
  }

  function RankOf(s: State): nat {
    if s == Array || s == ArrayAfterSep || s == ObjValue then 8
    else if s == Start then 6
    else if s == NullWord || s == Boolean || s == Number then 5
    else if s == Finish then 3
    else if s == NeedEscape || s == NeedU then 1
    else 0
  }

  ghost predicate Kept(t: Tok, o: Outcome) {
    && o.t.env == t.env && HighOk(o.t.w)
    && (if o.Out? then o.err != Continue else Valid(o.t) && (Clean(t) ==> Clean(o.t)))
    && (o.Redo? ==> Rank(o.t.top) < Rank(t.top))
    && (o.Next? ==> o.t.top.state != Finish)
  }

  lemma {:induction false} EatwsKeeps(t: Tok, c: char)
    requires Valid(t) && t.top.state == Eatws
    ensures Kept(t, StepEatws(t, c)) == true
  {
  }

  lemma {:induction false} StartKeeps(t: Tok, c: char)
    requires Valid(t) && t.top.state == Start
    ensures Kept(t, StepStart(t, c)) == true
  {
  }

  lemma {:induction false} FinishKeeps(t: Tok)
    requires Valid(t) && t.top.state == Finish
    ensures Kept(t, StepFinish(t)) == true
  {
  }

  lemma {:induction false} NullKeeps(t: Tok, c: char)
    requires Valid(t) && t.top.state == NullWord
    ensures Kept(t, StepNull(t, c)) == true
  {
  }

  lemma {:induction false} BooleanKeeps(t: Tok, c: char)
    requires Valid(t) && t.top.state == Boolean
    ensures Kept(t, StepBoolean(t, c)) == true
  {
  }

  lemma {:induction false} EndNumberKeeps(t: Tok, c: char, l: NumLocals, r: (bool, Json))
    requires Valid(t) && t.top.state == Number
    ensures Kept(t, EndNumber(t, c, l, r)) == true
  {
  }

  lemma {:induction false} NumberKeeps(t: Tok, c: char)
    requires Valid(t) && t.top.state == Number
    ensures Kept(t, StepNumber(t, c)) == true
  {
    var l := LocalsOf(t.w);
    if c != NUL && IsNumberChar(c, l, t.w.isDouble) {
      assert Valid(t.(w := PutNumberChar(t.w, c, l)));
    } else {
      EndNumberKeeps(t, c, l, FinishNumber(t.w.pb, t.env.strict));
    }
  }

  lemma {:induction false} CommentKeeps(t: Tok, c: char)
    requires Valid(t) && Spacing(t.top.state)
    ensures t.top.state == CommentStart ==> Kept(t, StepCommentStart(t, c))
    ensures Commenting(t.top.state) ==> Kept(t, StepComment(t, c))
  {
  }

  lemma {:induction false} TextKeeps(t: Tok, c: char)
    requires Valid(t) && (t.top.state == InString || t.top.state == InField)
    ensures Kept(t, StepText(t, c)) == true
  {
  }

  lemma {:induction false} EscapeKeeps(t: Tok, c: char)
    requires Valid(t) && t.top.state == StringEscape
    ensures Kept(t, StepEscape(t, c)) == true
  {
  }

  lemma {:induction false} UnicodeKeeps(t: Tok, c: char)
    requires Valid(t) && t.top.state == EscapeUnicode
    ensures Kept(t, StepUnicode(t, c)) == true
  {
  }

  lemma {:induction false} NeedKeeps(t: Tok, c: char)
    requires Valid(t)
    ensures t.top.state == NeedEscape ==> Kept(t, StepNeedEscape(t, c))
    ensures t.top.state == NeedU ==> Kept(t, StepNeedU(t, c))
  {
  }

  lemma {:induction false} ArrayKeeps(t: Tok, c: char)
    requires Valid(t) && t.top.current.Arr?
    ensures t.top.state == Array || t.top.state == ArrayAfterSep ==> Kept(t, StepArray(t, c))
    ensures t.top.state == ArraySep ==> Kept(t, StepArraySep(t, c))
  {
  }

  lemma {:induction false} ObjectKeeps(t: Tok, c: char)
    requires Valid(t) && t.top.current.Obj?
    ensures t.top.state == FieldStart || t.top.state == FieldStartAfterSep
            ==> Kept(t, StepFieldStart(t, c))
    ensures t.top.state == FieldEnd ==> Kept(t, StepFieldEnd(t, c))
    ensures t.top.state == ObjValue ==> Kept(t, StepObjValue(t))
    ensures t.top.state == ObjSep ==> Kept(t, StepObjSep(t, c))
  {
  }

  lemma {:induction false} TokenKeeps(t: Tok, c: char)
    requires Valid(t) && (t.top.state == Start || t.top.state == Finish || Wording(t.top.state))
    ensures Kept(t, StepToken(t, c)) == true
  {
    var s := t.top.state;
    if s == Start { StartKeeps(t, c); }
    else if s == Finish { FinishKeeps(t); }
    else if s == NullWord { NullKeeps(t, c); }
    else if s == Boolean { BooleanKeeps(t, c); }
    else if s == Number { NumberKeeps(t, c); }
  }

  lemma {:induction false} CharactersKeep(t: Tok, c: char)
    requires Valid(t) && Quoting(t.top.state)
    ensures Kept(t, StepCharacters(t, c)) == true
  {
    var s := t.top.state;
    if s == StringEscape { EscapeKeeps(t, c); }
    else if s == EscapeUnicode { UnicodeKeeps(t, c); }
    else if s == NeedEscape || s == NeedU { NeedKeeps(t, c); }
    else { TextKeeps(t, c); }
  }

  lemma {:induction false} ContainerKeeps(t: Tok, c: char)
    requires Valid(t) && t.top.state != Start && t.top.state != Finish
    requires !Spacing(t.top.state) && !Wording(t.top.state) && !Quoting(t.top.state)
    ensures Kept(t, StepContainer(t, c)) == true
  {
    if t.top.current.Arr? { ArrayKeeps(t, c); } else { ObjectKeeps(t, c); }
  }

  /** Every step keeps the machine valid, and every redo jump gets closer to the
      end of the redo chain. */
  lemma {:induction false} StepKeeps(t: Tok, c: char)
    requires Valid(t)
    ensures Kept(t, Step(t, c)) == true
  {
    var s := t.top.state;
    if s == Eatws { EatwsKeeps(t, c); }
    else if Quoting(s) { CharactersKeep(t, c); }
    else if s == Start || s == Finish || Wording(s) { TokenKeeps(t, c); }
    else if Spacing(s) { CommentKeeps(t, c); }
    else { ContainerKeeps(t, c); }
  }

  // ---- one character, one call ----------------------------------------------

  /** A character with its redo jumps followed to the end. */
  function Char(t: Tok, c: char): (o: Outcome)
    requires Valid(t)
    ensures !o.Redo? && o.t.env == t.env && HighOk(o.t.w)
    ensures if o.Out? then o.err != Continue else Valid(o.t) && o.t.top.state != Finish
    ensures o.Next? && Clean(t) ==> Clean(o.t)
    decreases Rank(t.top)
  {
    StepKeeps(t, c);
    var o := Step(t, c);
    if o.Redo? then Char(o.t, c) else o
  }

  /** Depth 0, a finished value, only white space since: PEEK_CHAR reports success
      at the end of the input. */
  predicate Complete(t: Tok) {
    t.base == [] && t.top.state == Eatws && t.top.saved == Finish
  }

  datatype CallEnd = CallEnd(err: Error, t: Tok, c: char)

  /** The loop of json_tokener_parse_ex; `c` is the last character looked at. */
  function Run(t: Tok, s: string, c: char): (e: CallEnd)
    requires Valid(t)
    ensures e.t.env == t.env && HighOk(e.t.w)
    ensures e.err == Continue ==> Valid(e.t) && (Clean(t) ==> Clean(e.t))
    decreases |s|
  {
    if s == "" then CallEnd(if Complete(t) then Success else Continue, t, c)
    else
      var o := Char(t, s[0]);
      if o.Out? then CallEnd(o.err, o.t, s[0])
      else if s[0] == NUL then CallEnd(Success, o.t, NUL)
      else Run(o.t, s[1..], s[0])
  }

  /** The checks at label `out`. */
  function AtOut(e: CallEnd): Error {
    var atFinish := e.t.top.state == Finish;
    if e.c != NUL && atFinish && e.t.base == [] && e.t.env.strict && !e.t.env.allowTrailing
    then Unexpected
    else if e.c == NUL && !atFinish && e.t.top.saved != Finish then Eof
    else e.err
  }

  datatype ParseResult = ParseResult(err: Error, value: Json, t: Tok)

  /** A new call has no number locals. */
  function BeginCall(t: Tok): Tok { t.(w := t.w.(num := NoLocals)) }

  /** The loop over json_tokener_reset_level at the end of a successful call; it does not
      change depth. */
  function ResetLevels(t: Tok): Tok {
    t.(base := seq(|t.base|, _ => FRESH), top := FRESH)
  }

  /** json_tokener_parse_ex: success hands out the value and resets the levels. */
  function ParseEx(t: Tok, chunk: string): (r: ParseResult)
    requires Valid(t)
    ensures r.t.env == t.env && HighOk(r.t.w)
    ensures r.err == Continue ==> Valid(r.t) && (Clean(t) ==> Clean(r.t))
  {
    var e := Run(BeginCall(t), chunk, '\U{01}');
    var err := AtOut(e);
    if err == Success then ParseResult(Success, e.t.top.current, ResetLevels(e.t))
    else ParseResult(err, Null, e.t)
  }

  /** json_tokener_reset clears the levels; the scratch fields stay. */
  function AfterReset(t: Tok): Tok {
    BeginCall(t.(base := [], top := FRESH))
  }
}
