/** Printing and parsing are inverse: every value json-c can hold, without doubles,
    printed with any of the layout flags, is rebuilt by the tokener. */
module RoundTrip {
  import opened Json
  import opened JsonPrint
  import opened Tokener
  import opened TokenerFeed
  import RoundTripScalars

  // ---- strings and field names ----------------------------------------------

  lemma {:induction false} OpenString(t: Tok) returns (t': Tok)
    requires Clean(t) && t.top == FRESH
    ensures Clean(t') && Char(t, '"') == Next(t') && RoundTripScalars.Quoted(t', InString, "")
    ensures t'.base == t.base && t'.env == t.env && t'.top.field == ""
  {
    RoundTripScalars.EnterStart(t, '"');
    t' := StartText(To(t, Start), '"', InString);
    NextStep(To(t, Start), '"', t');
  }

  lemma {:induction false} CloseString(t: Tok, s: string) returns (t': Tok)
    requires Clean(t) && RoundTripScalars.Quoted(t, InString, s)
    ensures Clean(t') && Char(t, '"') == Next(t') && Settled(t', Str(s))
    ensures t'.base == t.base && t'.env == t.env && t'.top.state == Eatws
  {
    t' := Done(t, Str(s));
    NextStep(t, '"', t');
  }

  /** Text between double quotes, for strings and for field names. */
  lemma {:induction false} FeedQuoted(t: Tok, a: Tok, q: State, s: string, f: Flags, b: Tok, t': Tok)
    requires Clean(t) && Calm(t, '"') && Clean(a) && Char(t, '"') == Next(a)
    requires RoundTripScalars.Quoted(a, q, "") && Clean(b) && RoundTripScalars.Quoted(b, q, s)
    requires Feed(a, Escape(s, f)) == Alive(b) && Char(b, '"') == Next(t')
    ensures Feed(t, Quoted(s, f)) == Alive(t')
  {
    FeedOne(b, '"', "", t');
    FeedParts(a, Escape(s, f), b, "\"", t');
    FeedOne(t, '"', Escape(s, f) + "\"", a);
    assert Quoted(s, f) == ['"'] + (Escape(s, f) + "\"");
  }

  lemma {:induction false} FeedString(t: Tok, s: string, f: Flags) returns (t': Tok)
    requires Clean(t) && t.top == FRESH
    ensures Feed(t, Quoted(s, f)) == Alive(t') && Clean(t') && Settled(t', Str(s))
    ensures t'.base == t.base && t'.env == t.env && t'.top.state == Eatws
  {
    var a := OpenString(t);
    var b := RoundTripScalars.FeedEscaped(a, InString, s, f);
    assert "" + s == s;
    t' := CloseString(b, s);
    FeedQuoted(t, a, InString, s, f, b, t');
  }

  predicate BeforeField(t: Tok) {
    t.top.state == Eatws && (t.top.saved == FieldStart || t.top.saved == FieldStartAfterSep)
    && t.top.current.Obj?
  }

  lemma {:induction false} OpenField(t: Tok) returns (t': Tok)
    requires Clean(t) && BeforeField(t)
    ensures Clean(t') && Char(t, '"') == Next(t') && RoundTripScalars.Quoted(t', InField, "")
    ensures t'.base == t.base && t'.env == t.env && t'.top.current == t.top.current
  {
    Resume(t, '"');
    var u := To(t, t.top.saved);
    t' := StartText(u, '"', InField);
    NextStep(u, '"', t');
  }

  lemma {:induction false} CStringWhole(s: string)
    requires NUL !in s
    ensures CString(s) == s
  {
    if s != "" {
      CStringWhole(s[1..]);
      assert s == [s[0]] + s[1..];
    }
  }

  lemma {:induction false} CloseField(t: Tok, k: string) returns (t': Tok)
    requires Clean(t) && RoundTripScalars.Quoted(t, InField, k) && NUL !in k
    ensures Clean(t') && Char(t, '"') == Next(t')
    ensures t'.base == t.base && t'.env == t.env
    ensures t'.top == Level(Eatws, FieldEnd, t.top.current, k)
  {
    CStringWhole(k);
    t' := CloseText(t);
    NextStep(t, '"', t');
  }

  lemma {:induction false} FeedKey(t: Tok, k: string, f: Flags) returns (t': Tok)
    requires Clean(t) && BeforeField(t) && NUL !in k
    ensures Feed(t, Quoted(k, f)) == Alive(t') && Clean(t')
    ensures t'.base == t.base && t'.env == t.env
    ensures t'.top == Level(Eatws, FieldEnd, t.top.current, k)
  {
    var a := OpenField(t);
    var b := RoundTripScalars.FeedEscaped(a, InField, k, f);
    assert "" + k == k;
    t' := CloseField(b, k);
    FeedQuoted(t, a, InField, k, f, b, t');
  }

  lemma {:induction false} FeedColon(t: Tok, f: Flags) returns (t': Tok)
    requires Clean(t) && t.top.state == Eatws && t.top.saved == FieldEnd
    ensures Feed(t, Colon(f)) == Alive(t') && Clean(t')
    ensures t'.base == t.base && t'.env == t.env && t'.top == t.top.(saved := ObjValue)
  {
    Resume(t, ':');
    var u := To(t, FieldEnd);
    t' := Then(u, ObjValue);
    NextStep(u, ':', t');
    FeedOne(t, ':', " ", t');
    FeedWs(t', " ", "");
    assert Colon(f) == [':'] + " " || Colon(f) == [':'];
  }

  // ---- layout ---------------------------------------------------------------

  lemma {:induction false} LayoutIsWs(level: nat, hadChildren: bool, f: Flags)
    ensures AllWs(Lead(level, f)) && AllWs(Trail(level, hadChildren, f))
  {
  }

  lemma {:induction false} PrintOpens(v: Json, level: nat, f: Flags)
    ensures Print(v, level, f) != "" && Opens(Print(v, level, f)[0])
  {
  }

  // ---- opening and closing containers ----------------------------------------

  lemma {:induction false} OpenArray(t: Tok) returns (t': Tok)
    requires Clean(t) && t.top == FRESH
    ensures Clean(t') && Char(t, '[') == Next(t') && BeforeItem(t')
    ensures t'.base == t.base && t'.env == t.env && t'.top == Level(Eatws, Array, Arr([]), "")
  {
    RoundTripScalars.EnterStart(t, '[');
    t' := Open(To(t, Start), Arr([]), Array);
    NextStep(To(t, Start), '[', t');
  }

  lemma {:induction false} OpenObject(t: Tok) returns (t': Tok)
    requires Clean(t) && t.top == FRESH
    ensures Clean(t') && Char(t, '{') == Next(t') && BeforeField(t')
    ensures t'.base == t.base && t'.env == t.env && t'.top == Level(Eatws, FieldStart, Obj([]), "")
  {
    RoundTripScalars.EnterStart(t, '{');
    t' := Open(To(t, Start), Obj([]), FieldStart);
    NextStep(To(t, Start), '{', t');
  }

  /** The closing bracket of a container that is empty or has just added a child. */
  predicate Closable(t: Tok, c: char) {
    t.top.state == Eatws
    && ((c == ']' && (t.top.saved == Array || t.top.saved == ArraySep))
        || (c == '}' && (t.top.saved == FieldStart || t.top.saved == ObjSep)))
  }

  lemma {:induction false} Close(t: Tok, c: char) returns (t': Tok)
    requires Clean(t) && Closable(t, c)
    ensures Clean(t') && Char(t, c) == Next(t') && Feed(t, [c]) == Alive(t')
    ensures t'.base == t.base && t'.env == t.env && t'.top == t.top.(saved := Finish)
  {
    Resume(t, c);
    var u := To(t, t.top.saved);
    t' := Then(u, Finish);
    NextStep(u, c, t');
    FeedOne(t, c, "", t');
  }

  /** The comma after a child. */
  lemma {:induction false} Comma(t: Tok) returns (t': Tok)
    requires Clean(t) && t.top.state == Eatws
    requires t.top.saved == ArraySep || t.top.saved == ObjSep
    ensures Clean(t') && Char(t, ',') == Next(t')
    ensures t'.base == t.base && t'.env == t.env
    ensures t'.top == t.top.(saved := if t.top.saved == ArraySep then ArrayAfterSep
                                      else FieldStartAfterSep)
  {
    Resume(t, ',');
    var u := To(t, t.top.saved);
    t' := Then(u, if t.top.saved == ArraySep then ArrayAfterSep else FieldStartAfterSep);
    NextStep(u, ',', t');
  }

  /** A settled child, layout, and the closing bracket of its parent. */
  lemma {:induction false} CloseAfterChild(t: Tok, v: Json, w: string, c: char) returns (t': Tok)
    requires Clean(t) && Settled(t, v) && AllWs(w) && t.base != []
    requires c == if t.base[|t.base| - 1].state == ArrayAdd then ']' else '}'
    ensures Waiting(t.base[|t.base| - 1])
    ensures Feed(t, w + [c]) == Alive(t') && Clean(t') && t'.env == t.env
    ensures t'.base == t.base[..|t.base| - 1]
    ensures t'.top == AddChild(t.base[|t.base| - 1], v).(saved := Finish)
  {
    var p := FeedAfterChild(t, v, w, c, "");
    t' := Close(p, c);
    assert w + [c] + "" == w + [c] && [c] + "" == [c];
  }

  /** A settled child and the comma after it. */
  lemma {:induction false} CommaAfterChild(t: Tok, v: Json) returns (t': Tok)
    requires Clean(t) && Settled(t, v) && t.base != []
    ensures Waiting(t.base[|t.base| - 1])
    ensures Feed(t, ",") == Alive(t') && Clean(t') && t'.env == t.env
    ensures t'.base == t.base[..|t.base| - 1]
    ensures var up := AddChild(t.base[|t.base| - 1], v);
            t'.top == up.(saved := if up.saved == ArraySep then ArrayAfterSep
                                   else FieldStartAfterSep)
  {
    var p := FeedAfterChild(t, v, "", ',', "");
    t' := Comma(p);
    FeedOne(p, ',', "", t');
    assert "" + [','] + "" == "," && [','] + "" == ",";
  }

  // ---- arrays ---------------------------------------------------------------

  /** Child i - 1 of an array has just been read. */
  ghost predicate AfterItem(t: Tok, items: seq<Json>, i: nat) {
    && 1 <= i <= |items| && Clean(t) && t.base != []
    && Settled(t, Reparsed(items[i - 1]))
    && t.base[|t.base| - 1].state == ArrayAdd
    && t.base[|t.base| - 1].current == Arr(ReparsedItems(items[..i - 1]))
    && t.base[|t.base| - 1].field == ""
  }

  lemma {:induction false} ItemAdded(t: Tok, items: seq<Json>, i: nat)
    requires AfterItem(t, items, i)
    ensures Waiting(t.base[|t.base| - 1])
    ensures AddChild(t.base[|t.base| - 1], Reparsed(items[i - 1]))
         == Level(Eatws, ArraySep, Arr(ReparsedItems(items[..i])), "")
  {
    assert items[..i] == items[..i - 1] + [items[i - 1]];
    assert ReparsedItems(items[..i])
        == ReparsedItems(items[..i - 1]) + [Reparsed(items[i - 1])];
  }

  /** The result of reading a whole value from a fresh level. */
  ghost predicate Read(t: Tok, v: Json, s: string, t': Tok) {
    Clean(t) && Feed(t, s) == Alive(t') && Clean(t') && Settled(t', Reparsed(v))
    && t'.base == t.base && t'.env == t.env
  }

  /** Layout and one child, read in the level of its parent. */
  lemma {:induction false} ReadItem(t: Tok, items: seq<Json>, i: nat, w: string, s: string, t': Tok)
    requires i < |items| && Clean(t) && BeforeItem(t) && AllWs(w) && s != "" && Opens(s[0])
    requires |t.base| + 1 < t.env.maxDepth
    requires t.top.current == Arr(ReparsedItems(items[..i])) && t.top.field == ""
    requires Read(ChildOf(t), items[i], s, t')
    ensures AfterItem(t', items, i + 1) && Feed(t, w + s) == Alive(t')
    ensures t'.base[..|t'.base| - 1] == t.base && t'.env == t.env
  {
    FeedChild(t, w, s);
    assert t'.base == t.base + [t.top.(state := ArrayAdd)];
    assert items[..i + 1 - 1] == items[..i];
  }

  /** Everything after child i - 1 up to the closing bracket. */
  function ItemsTail(items: seq<Json>, i: nat, level: nat, f: Flags): string
    requires 1 <= i <= |items|
  {
    PrintItems(items[i..], false, level, f) + Trail(level, true, f) + "]"
  }

  lemma {:induction false} ItemsTailEnd(items: seq<Json>, level: nat, f: Flags)
    requires items != []
    ensures ItemsTail(items, |items|, level, f) == Trail(level, true, f) + "]"
  {
  }

  lemma {:induction false} Regroup(comma: string, lead: string, body: string, rest: string, trail: string, close: string)
    ensures (comma + lead + body + rest) + trail + close
         == comma + ((lead + body) + (rest + trail + close))
  {
  }

  lemma {:induction false} RegroupOpen(open: string, inner: string, trail: string, close: string, all: string)
    requires inner + trail + close == "" + all
    ensures open + inner + trail + close == open + all
  {
    assert open + inner + trail + close == open + (inner + trail + close);
    assert "" + all == all;
  }

  lemma {:induction false} PrintItemsAt(items: seq<Json>, i: nat, first: bool, level: nat, f: Flags)
    requires i < |items|
    ensures PrintItems(items[i..], first, level, f)
         == (if first then "" else ",") + Lead(level, f) + Print(items[i], level + 1, f)
            + PrintItems(items[i + 1..], false, level, f)
  {
  }

  lemma {:induction false} ItemsTailMore(items: seq<Json>, i: nat, level: nat, f: Flags)
    requires 1 <= i < |items|
    ensures ItemsTail(items, i, level, f)
         == "," + ((Lead(level, f) + Print(items[i], level + 1, f)) + ItemsTail(items, i + 1, level, f))
  {
    PrintItemsAt(items, i, false, level, f);
    Regroup(",", Lead(level, f), Print(items[i], level + 1, f),
            PrintItems(items[i + 1..], false, level, f), Trail(level, true, f), "]");
  }

  lemma {:induction false} EmptyArrayText(level: nat, f: Flags)
    ensures Print(Arr([]), level, f) == "[" + (Trail(level, false, f) + "]")
  {
  }

  lemma {:induction false} ArrayText(items: seq<Json>, level: nat, f: Flags)
    requires items != []
    ensures Print(Arr(items), level, f)
         == "[" + ((Lead(level, f) + Print(items[0], level + 1, f)) + ItemsTail(items, 1, level, f))
  {
    var body, rest := Print(items[0], level + 1, f), PrintItems(items[1..], false, level, f);
    assert items[0..] == items;
    PrintItemsAt(items, 0, true, level, f);
    Regroup("", Lead(level, f), body, rest, Trail(level, true, f), "]");
    RegroupOpen("[", "" + Lead(level, f) + body + rest, Trail(level, true, f), "]",
                (Lead(level, f) + body) + ItemsTail(items, 1, level, f));
  }

  // ---- objects --------------------------------------------------------------

  /** The value of field i - 1 of an object has just been read. */
  ghost predicate AfterField(t: Tok, fields: seq<Field>, i: nat) {
    && 1 <= i <= |fields| && Clean(t) && t.base != []
    && Settled(t, Reparsed(fields[i - 1].value))
    && t.base[|t.base| - 1].state == ObjValueAdd
    && t.base[|t.base| - 1].current == Obj(ReparsedFields(fields[..i - 1]))
    && t.base[|t.base| - 1].field == fields[i - 1].key
  }

  lemma {:induction false} FieldAdded(t: Tok, fields: seq<Field>, i: nat)
    requires AfterField(t, fields, i) && DistinctKeys(fields)
    ensures Waiting(t.base[|t.base| - 1])
    ensures AddChild(t.base[|t.base| - 1], Reparsed(fields[i - 1].value))
         == Level(Eatws, ObjSep, Obj(ReparsedFields(fields[..i])), "")
  {
    var before := ReparsedFields(fields[..i - 1]);
    var k := fields[i - 1].key;
    assert IndexOf(before, k) == -1;
    assert fields[..i] == fields[..i - 1] + [fields[i - 1]];
    assert ReparsedFields(fields[..i]) == before + [Field(k, Reparsed(fields[i - 1].value))];
  }

  /** Layout, field name and colon, up to the value. */
  lemma {:induction false} ReadName(t: Tok, w: string, k: string, f: Flags) returns (t': Tok)
    requires Clean(t) && BeforeField(t) && AllWs(w) && NUL !in k
    ensures Feed(t, w + Quoted(k, f) + Colon(f)) == Alive(t') && Clean(t')
    ensures t'.base == t.base && t'.env == t.env
    ensures t'.top == Level(Eatws, ObjValue, t.top.current, k)
  {
    var a := FeedKey(t, k, f);
    t' := FeedColon(a, f);
    FeedParts(t, Quoted(k, f), a, Colon(f), t');
    FeedWs(t, w, Quoted(k, f) + Colon(f));
    assert w + Quoted(k, f) + Colon(f) == w + (Quoted(k, f) + Colon(f));
  }

  lemma {:induction false} ReadFieldValue(t: Tok, fields: seq<Field>, i: nat, s: string, t': Tok)
    requires i < |fields| && Clean(t) && s != "" && Opens(s[0])
    requires |t.base| + 1 < t.env.maxDepth
    requires t.top == Level(Eatws, ObjValue, Obj(ReparsedFields(fields[..i])), fields[i].key)
    requires Read(ChildOf(t), fields[i].value, s, t')
    ensures AfterField(t', fields, i + 1) && Feed(t, s) == Alive(t')
    ensures t'.base[..|t'.base| - 1] == t.base && t'.env == t.env
  {
    FeedChild(t, "", s);
    assert "" + s == s;
    assert t'.base == t.base + [t.top.(state := ObjValueAdd)];
    assert fields[..i + 1 - 1] == fields[..i];
  }

  function FieldsTail(fields: seq<Field>, i: nat, level: nat, f: Flags): string
    requires 1 <= i <= |fields|
  {
    PrintFields(fields[i..], false, level, f) + Trail(level, true, f) + "}"
  }

  /** Name and value of one field, with the layout before it. */
  function FieldText(fields: seq<Field>, i: nat, level: nat, f: Flags): string
    requires i < |fields|
  {
    (Lead(level, f) + Quoted(fields[i].key, f) + Colon(f)) + Print(fields[i].value, level + 1, f)
  }

  lemma {:induction false} FieldsTailEnd(fields: seq<Field>, level: nat, f: Flags)
    requires fields != []
    ensures FieldsTail(fields, |fields|, level, f) == Trail(level, true, f) + "}"
  {
  }

  lemma {:induction false} RegroupField(comma: string, lead: string, key: string, colon: string, body: string, rest: string)
    ensures comma + lead + key + colon + body + rest == comma + ((lead + key + colon) + body) + rest
  {
  }

  lemma {:induction false} PrintFieldsAt(fields: seq<Field>, i: nat, first: bool, level: nat, f: Flags)
    requires i < |fields|
    ensures PrintFields(fields[i..], first, level, f)
         == (if first then "" else ",") + FieldText(fields, i, level, f)
            + PrintFields(fields[i + 1..], false, level, f)
  {
    assert fields[i..][0] == fields[i] && fields[i..][1..] == fields[i + 1..];
    RegroupField(if first then "" else ",", Lead(level, f), Quoted(fields[i].key, f), Colon(f),
                 Print(fields[i].value, level + 1, f), PrintFields(fields[i + 1..], false, level, f));
  }

  lemma {:induction false} RegroupTail(comma: string, item: string, rest: string, trail: string, close: string)
    ensures (comma + item + rest) + trail + close == comma + (item + (rest + trail + close))
  {
  }

  lemma {:induction false} FieldsTailMore(fields: seq<Field>, i: nat, level: nat, f: Flags)
    requires 1 <= i < |fields|
    ensures FieldsTail(fields, i, level, f)
         == "," + (FieldText(fields, i, level, f) + FieldsTail(fields, i + 1, level, f))
  {
    PrintFieldsAt(fields, i, false, level, f);
    RegroupTail(",", FieldText(fields, i, level, f),
                PrintFields(fields[i + 1..], false, level, f), Trail(level, true, f), "}");
  }

  lemma {:induction false} EmptyObjectText(level: nat, f: Flags)
    ensures Print(Obj([]), level, f) == "{" + (Trail(level, false, f) + "}")
  {
  }

  lemma {:induction false} ObjectText(fields: seq<Field>, level: nat, f: Flags)
    requires fields != []
    ensures Print(Obj(fields), level, f)
         == "{" + (FieldText(fields, 0, level, f) + FieldsTail(fields, 1, level, f))
  {
    var item, rest := FieldText(fields, 0, level, f), PrintFields(fields[1..], false, level, f);
    assert fields[0..] == fields;
    PrintFieldsAt(fields, 0, true, level, f);
    RegroupTail("", item, rest, Trail(level, true, f), "}");
    RegroupOpen("{", "" + item + rest, Trail(level, true, f), "}",
                item + FieldsTail(fields, 1, level, f));
  }

  // ---- the induction ----------------------------------------------------------

  /** Strings, arrays and objects end with their own last character. */
  predicate SelfEnding(v: Json) { v.Str? || v.Arr? || v.Obj? }

  ghost predicate CanRead(t: Tok, v: Json) {
    Clean(t) && t.top == FRESH && WellFormed(v) && |t.base| + Height(v) <= t.env.maxDepth
  }

  lemma {:induction false} ReadScalar(t: Tok, v: Json, level: nat, f: Flags) returns (t': Tok)
    requires CanRead(t, v) && !v.Arr? && !v.Obj?
    ensures Read(t, v, Print(v, level, f), t')
    ensures SelfEnding(v) <==> t'.top.state == Eatws
  {
    match v
    case Null => t' := RoundTripScalars.FeedWord(t, "null", v);
    case Bool(b) => t' := RoundTripScalars.FeedWord(t, if b then "true" else "false", v);
    case Int64(i) => t' := RoundTripScalars.FeedPrintedInt(t, i, v);
    case UInt64(u) => t' := RoundTripScalars.FeedPrintedInt(t, u, Reparsed(v));
    case Str(s) => t' := FeedString(t, s, f);
  }

  lemma {:induction false} ReadEmpty(t: Tok, v: Json, level: nat, f: Flags) returns (t': Tok)
    requires CanRead(t, v) && (v == Arr([]) || v == Obj([]))
    ensures Read(t, v, Print(v, level, f), t') && t'.top.state == Eatws
  {
    LayoutIsWs(level, false, f);
    var w := Trail(level, false, f);
    var open, close, a;
    if v == Arr([]) {
      EmptyArrayText(level, f);
      open, close := '[', ']';
      a := OpenArray(t);
    } else {
      EmptyObjectText(level, f);
      open, close := '{', '}';
      a := OpenObject(t);
    }
    t' := Close(a, close);
    FeedWs(a, w, [close]);
    FeedOne(t, open, w + [close], a);
    assert Print(v, level, f) == [open] + (w + [close]);
  }

  /** Positions in the text as three pieces, read one after the other. */
  lemma {:induction false} ReadThree(t: Tok, a: Tok, b: Tok, t': Tok, open: char, item: string, tail: string)
    requires Clean(t) && Clean(a) && Clean(b) && Calm(t, open) && open != NUL
    requires Char(t, open) == Next(a) && Feed(a, item) == Alive(b) && Feed(b, tail) == Alive(t')
    ensures Feed(t, [open] + (item + tail)) == Alive(t')
  {
    FeedParts(a, item, b, tail, t');
    FeedOne(t, open, item + tail, a);
  }

  lemma {:induction false} ReadAfterComma(t: Tok, a: Tok, b: Tok, t': Tok, item: string, tail: string)
    requires Clean(t) && Clean(a) && Clean(b)
    requires Feed(t, ",") == Alive(a) && Feed(a, item) == Alive(b) && Feed(b, tail) == Alive(t')
    ensures Feed(t, "," + (item + tail)) == Alive(t')
  {
    FeedParts(a, item, b, tail, t');
    FeedParts(t, ",", a, item + tail, t');
  }

  lemma {:induction false} ReadValue(t: Tok, v: Json, level: nat, f: Flags) returns (t': Tok)
    requires CanRead(t, v)
    ensures Read(t, v, Print(v, level, f), t')
    ensures SelfEnding(v) <==> t'.top.state == Eatws
    decreases v, 1, 0
  {
    if v == Arr([]) || v == Obj([]) {
      t' := ReadEmpty(t, v, level, f);
    } else if v.Arr? {
      t' := ReadArray(t, v, level, f);
    } else if v.Obj? {
      t' := ReadObject(t, v, level, f);
    } else {
      t' := ReadScalar(t, v, level, f);
    }
  }

  lemma {:induction false} ReadArray(t: Tok, v: Json, level: nat, f: Flags) returns (t': Tok)
    requires CanRead(t, v) && v.Arr? && v.items != []
    ensures Read(t, v, Print(v, level, f), t') && t'.top.state == Eatws
    decreases v, 0, |v.items| + 1
  {
    var a := OpenArray(t);
    assert v.items[..0] == [];
    var b := ReadNextItem(a, v, 0, level, f);
    t' := ReadItems(b, v, 1, level, f);
    ArrayText(v.items, level, f);
    ReadThree(t, a, b, t', '[', Lead(level, f) + Print(v.items[0], level + 1, f),
              ItemsTail(v.items, 1, level, f));
  }

  /** Child i, with the layout before it. */
  lemma {:induction false} ReadNextItem(t: Tok, v: Json, i: nat, level: nat, f: Flags)
    returns (t': Tok)
    requires v.Arr? && i < |v.items| && WellFormed(v)
    requires |t.base| + 1 + Height(v.items[i]) <= t.env.maxDepth
    requires Clean(t) && BeforeItem(t) && t.top.field == ""
    requires t.top.current == Arr(ReparsedItems(v.items[..i]))
    ensures AfterItem(t', v.items, i + 1)
    ensures Feed(t, Lead(level, f) + Print(v.items[i], level + 1, f)) == Alive(t')
    ensures t'.base[..|t'.base| - 1] == t.base && t'.env == t.env
    decreases v, 0, 0
  {
    var item := v.items[i];
    LayoutIsWs(level, true, f);
    PrintOpens(item, level + 1, f);
    var s := Print(item, level + 1, f);
    PushChild(t, s[0]);
    t' := ReadValue(ChildOf(t), item, level + 1, f);
    ReadItem(t, v.items, i, Lead(level, f), s, t');
  }

  /** The children from i on, and the closing bracket. */
  lemma {:induction false} ReadItems(t: Tok, v: Json, i: nat, level: nat, f: Flags)
    returns (t': Tok)
    requires v.Arr? && WellFormed(v) && AfterItem(t, v.items, i)
    requires |t.base| - 1 + Height(v) <= t.env.maxDepth
    ensures Feed(t, ItemsTail(v.items, i, level, f)) == Alive(t') && Clean(t')
    ensures t'.base == t.base[..|t.base| - 1] && t'.env == t.env
    ensures t'.top == Level(Eatws, Finish, Reparsed(v), "")
    decreases v, 0, |v.items| - i + 1
  {
    var item := Reparsed(v.items[i - 1]);
    ItemAdded(t, v.items, i);
    if i == |v.items| {
      LayoutIsWs(level, true, f);
      ItemsTailEnd(v.items, level, f);
      t' := CloseAfterChild(t, item, Trail(level, true, f), ']');
      assert v.items[..i] == v.items;
    } else {
      var a := CommaAfterChild(t, item);
      var b := ReadNextItem(a, v, i, level, f);
      t' := ReadItems(b, v, i + 1, level, f);
      ItemsTailMore(v.items, i, level, f);
      ReadAfterComma(t, a, b, t', Lead(level, f) + Print(v.items[i], level + 1, f),
                     ItemsTail(v.items, i + 1, level, f));
    }
  }

  lemma {:induction false} ReadObject(t: Tok, v: Json, level: nat, f: Flags) returns (t': Tok)
    requires CanRead(t, v) && v.Obj? && v.fields != []
    ensures Read(t, v, Print(v, level, f), t') && t'.top.state == Eatws
    decreases v, 0, |v.fields| + 1
  {
    var a := OpenObject(t);
    assert v.fields[..0] == [];
    var b := ReadNextField(a, v, 0, level, f);
    t' := ReadFields(b, v, 1, level, f);
    ObjectText(v.fields, level, f);
    ReadThree(t, a, b, t', '{', FieldText(v.fields, 0, level, f), FieldsTail(v.fields, 1, level, f));
  }

  lemma {:induction false} ReadNextField(t: Tok, v: Json, i: nat, level: nat, f: Flags)
    returns (t': Tok)
    requires v.Obj? && i < |v.fields| && WellFormed(v)
    requires |t.base| + 1 + Height(v.fields[i].value) <= t.env.maxDepth
    requires Clean(t) && BeforeField(t)
    requires t.top.current == Obj(ReparsedFields(v.fields[..i]))
    ensures AfterField(t', v.fields, i + 1)
    ensures Feed(t, FieldText(v.fields, i, level, f)) == Alive(t')
    ensures t'.base[..|t'.base| - 1] == t.base && t'.env == t.env
    decreases v, 0, 0
  {
    var fld := v.fields[i];
    LayoutIsWs(level, true, f);
    PrintOpens(fld.value, level + 1, f);
    var s := Print(fld.value, level + 1, f);
    var a := ReadName(t, Lead(level, f), fld.key, f);
    PushChild(a, s[0]);
    t' := ReadValue(ChildOf(a), fld.value, level + 1, f);
    ReadFieldValue(a, v.fields, i, s, t');
    FeedParts(t, Lead(level, f) + Quoted(fld.key, f) + Colon(f), a, s, t');
  }

  lemma {:induction false} ReadFields(t: Tok, v: Json, i: nat, level: nat, f: Flags)
    returns (t': Tok)
    requires v.Obj? && WellFormed(v) && AfterField(t, v.fields, i)
    requires |t.base| - 1 + Height(v) <= t.env.maxDepth
    ensures Feed(t, FieldsTail(v.fields, i, level, f)) == Alive(t') && Clean(t')
    ensures t'.base == t.base[..|t.base| - 1] && t'.env == t.env
    ensures t'.top == Level(Eatws, Finish, Reparsed(v), "")
    decreases v, 0, |v.fields| - i + 1
  {
    var child := Reparsed(v.fields[i - 1].value);
    FieldAdded(t, v.fields, i);
    if i == |v.fields| {
      LayoutIsWs(level, true, f);
      FieldsTailEnd(v.fields, level, f);
      t' := CloseAfterChild(t, child, Trail(level, true, f), '}');
      assert v.fields[..i] == v.fields;
    } else {
      var a := CommaAfterChild(t, child);
      var b := ReadNextField(a, v, i, level, f);
      t' := ReadFields(b, v, i + 1, level, f);
      FieldsTailMore(v.fields, i, level, f);
      ReadAfterComma(t, a, b, t', FieldText(v.fields, i, level, f),
                     FieldsTail(v.fields, i + 1, level, f));
    }
  }
}
