/** Runs of \uXXXX escapes in a string or field name: the bytes the tokener appends
    are the UTF-8 form of the code points the escapes denote, with surrogate pairs
    joined and every unpaired surrogate replaced by U+FFFD. */
module UnicodeEscapes {
  import opened Tokener
  import opened TokenerFeed

  // ---- reference: UTF-16 and UTF-8 -------------------------------------------------

  const REPLACEMENT_CHARACTER: nat := 0xFFFD

  predicate IsUnit(u: nat) { u < 0x10000 }

  /** A Unicode scalar value (section 3 of RFC 3629). */
  predicate IsScalar(u: nat) { u < 0x110000 && !IsHigh(u) && !IsLow(u) }

  /** The code points of a sequence of UTF-16 code units. */
  function Utf16(us: seq<nat>): (r: seq<nat>)
    requires forall i :: 0 <= i < |us| ==> IsUnit(us[i])
    ensures forall i :: 0 <= i < |r| ==> IsScalar(r[i])
  {
    if us == [] then []
    else if IsHigh(us[0]) && |us| > 1 && IsLow(us[1]) then
      [0x10000 + (us[0] - 0xD800) * 0x400 + (us[1] - 0xDC00)] + Utf16(us[2..])
    else if IsHigh(us[0]) || IsLow(us[0]) then [REPLACEMENT_CHARACTER] + Utf16(us[1..])
    else
      assert IsUnit(us[0]);
      [us[0]] + Utf16(us[1..])
  }

  datatype Decoded = Malformed | CodePoints(cs: seq<nat>)

  function Cons(c: nat, d: Decoded): Decoded {
    if d.Malformed? then d else CodePoints([c] + d.cs)
  }

  predicate Tail(b: int) { 0x80 <= b < 0xC0 }

  /** The byte sequences of the UTF8-char rule of section 4 of RFC 3629: no overlong
      forms, no surrogates, nothing above U+10FFFF. */
  function Utf8Length(s: seq<int>): (n: nat)
    ensures n <= |s|
  {
    if |s| >= 1 && 0 <= s[0] < 0x80 then 1
    else if |s| >= 2 && 0xC2 <= s[0] < 0xE0 && Tail(s[1]) then 2
    else if |s| >= 3 && Tail(s[1]) && Tail(s[2])
         && ((s[0] == 0xE0 && s[1] >= 0xA0) || (0xE1 <= s[0] < 0xED) || (s[0] == 0xED && s[1] < 0xA0)
             || (0xEE <= s[0] < 0xF0)) then 3
    else if |s| >= 4 && Tail(s[1]) && Tail(s[2]) && Tail(s[3])
         && ((s[0] == 0xF0 && s[1] >= 0x90) || (0xF1 <= s[0] < 0xF4) || (s[0] == 0xF4 && s[1] < 0x90))
    then 4
    else 0
  }

  /** The code point of one well-formed byte sequence. */
  function Utf8Value(s: seq<int>): int
    requires 1 <= |s| <= 4
  {
    if |s| == 1 then s[0]
    else if |s| == 2 then (s[0] - 0xC0) * 0x40 + (s[1] - 0x80)
    else if |s| == 3 then (s[0] - 0xE0) * 0x1000 + (s[1] - 0x80) * 0x40 + (s[2] - 0x80)
    else (s[0] - 0xF0) * 0x40000 + (s[1] - 0x80) * 0x1000 + (s[2] - 0x80) * 0x40 + (s[3] - 0x80)
  }

  function Octets(s: string): (r: seq<int>)
    ensures |r| == |s| && forall i :: 0 <= i < |r| ==> r[i] == s[i] as int
  {
    seq(|s|, i requires 0 <= i < |s| => s[i] as int)
  }

  /** The UTF-8 decoder of RFC 3629. */
  function Utf8Decode(s: string): Decoded
    decreases |s|
  {
    if s == "" then CodePoints([])
    else
      var n := Utf8Length(Octets(s));
      if n == 0 then Malformed
      else
        var v := Utf8Value(Octets(s)[..n]);
        if v < 0 then Malformed else Cons(v, Utf8Decode(s[n..]))
  }

  // ---- what the tokener appends is UTF-8 --------------------------------------------

  function Bytes(cs: seq<nat>): string {
    if cs == [] then "" else AppendedBytes(cs[0]) + Bytes(cs[1..])
  }

  lemma {:induction false} AppendedLength(u: nat, o: seq<int>)
    requires IsScalar(u) && Octets(AppendedBytes(u)) <= o
    ensures Utf8Length(o) == |AppendedBytes(u)|
  {
    var b := Octets(AppendedBytes(u));
    assert b == o[..|b|];
    assert forall i :: 0 <= i < |b| ==> o[i] == b[i];
    if u < 0x80 {
    } else if u < 0x800 {
      assert o[0] == 0xC0 + u / 0x40 && o[1] == 0x80 + u % 0x40;
    } else if u < 0x10000 {
      assert o[0] == 0xE0 + u / 0x1000 && o[1] == 0x80 + u / 0x40 % 0x40 && o[2] == 0x80 + u % 0x40;
    } else {
      assert o[0] == 0xF0 + u / 0x40000 && o[1] == 0x80 + u / 0x1000 % 0x40;
      assert o[2] == 0x80 + u / 0x40 % 0x40 && o[3] == 0x80 + u % 0x40;
    }
  }

  /** Six-bit groups of a code point. */
  lemma {:induction false} Groups(u: nat)
    ensures u == u / 0x40 * 0x40 + u % 0x40
    ensures u / 0x40 == u / 0x1000 * 0x40 + u / 0x40 % 0x40
    ensures u / 0x1000 == u / 0x40000 * 0x40 + u / 0x1000 % 0x40
  {
  }

  lemma {:induction false} AppendedValue(u: nat)
    requires IsScalar(u)
    ensures 1 <= |AppendedBytes(u)| <= 4
    ensures Utf8Value(Octets(AppendedBytes(u))) == u
  {
    Groups(u);
    var b := Octets(AppendedBytes(u));
    if u < 0x80 {
    } else if u < 0x800 {
      assert b[0] == 0xC0 + u / 0x40 && b[1] == 0x80 + u % 0x40;
    } else if u < 0x10000 {
      assert b[0] == 0xE0 + u / 0x1000 && b[1] == 0x80 + u / 0x40 % 0x40 && b[2] == 0x80 + u % 0x40;
    } else {
      assert u / 0x40000 % 8 == u / 0x40000;
      assert b[0] == 0xF0 + u / 0x40000 && b[1] == 0x80 + u / 0x1000 % 0x40;
      assert b[2] == 0x80 + u / 0x40 % 0x40 && b[3] == 0x80 + u % 0x40;
    }
  }

  lemma {:induction false} BytesDecode(cs: seq<nat>)
    requires forall i :: 0 <= i < |cs| ==> IsScalar(cs[i])
    ensures Utf8Decode(Bytes(cs)) == CodePoints(cs)
  {
    if cs != [] {
      var a, rest := AppendedBytes(cs[0]), Bytes(cs[1..]);
      BytesDecode(cs[1..]);
      AppendedValue(cs[0]);
      assert Octets(a + rest)[..|a|] == Octets(a);
      AppendedLength(cs[0], Octets(a + rest));
      assert (a + rest)[|a|..] == rest;
      assert cs == [cs[0]] + cs[1..];
    }
  }

  // ---- one escape -------------------------------------------------------------------

  /** Everything that text inside quotes leaves alone. */
  predicate SameFrame(t: Tok, t': Tok) {
    t'.base == t.base && t'.env == t.env && t'.w.quote == t.w.quote
    && t'.top.current == t.top.current && t'.top.field == t.top.field
  }

  predicate IsText(q: State) { q == InString || q == InField }

  /** Inside a string or field name, pb read so far. */
  predicate InQuotes(t: Tok, q: State, pb: string) {
    IsText(q) && t.top.state == q && t.w.pb == pb && t.w.quote != '\\'
  }

  lemma {:induction false} BackslashNext(t: Tok, q: State) returns (t': Tok)
    requires Clean(t) && InQuotes(t, q, t.w.pb)
    ensures Clean(t') && Char(t, '\\') == Next(t') && SameFrame(t, t')
    ensures t'.top.state == StringEscape && t'.top.saved == q && t'.w == t.w
  {
    t' := t.(top := t.top.(saved := t.top.state, state := StringEscape));
    NextStep(t, '\\', t');
  }

  predicate InHex(t: Tok, q: State, stPos: nat, ucs: nat) {
    IsText(q) && t.top.state == EscapeUnicode && t.top.saved == q
    && t.w.stPos == stPos && t.w.ucs == ucs
  }

  lemma {:induction false} HexNext(t: Tok, q: State, c: char, stPos: nat, ucs: nat) returns (t': Tok)
    requires Clean(t) && stPos < 3 && IsHex(c) && InHex(t, q, stPos, ucs)
    ensures Clean(t') && Char(t, c) == Next(t') && SameFrame(t, t')
    ensures t'.w.pb == t.w.pb && t'.w.high == t.w.high
    ensures InHex(t', q, stPos + 1, ucs + HexValue(c) * Pow16(3 - stPos))
  {
    t' := t.(w := PutHex(t.w, c));
    NextStep(t, c, t');
  }

  /** The state after a complete \uNNNN. */
  function AfterUnit(t: Tok, u: nat): Tok {
    var w := EndUnicode(t.w.(ucs := u, stPos := 4));
    To(t.(w := w), if w.high != 0 then NeedEscape else t.top.saved)
  }

  lemma {:induction false} LastHexNext(t: Tok, q: State, c: char, ucs: nat)
    requires Clean(t) && IsHex(c) && InHex(t, q, 3, ucs)
    ensures Clean(AfterUnit(t, ucs + HexValue(c)))
    ensures Char(t, c) == Next(AfterUnit(t, ucs + HexValue(c)))
  {
    assert PutHex(t.w, c) == t.w.(ucs := ucs + HexValue(c), stPos := 4);
    NextStep(t, c, AfterUnit(t, ucs + HexValue(c)));
  }

  predicate IsHex4(s: string) {
    |s| == 4 && IsHex(s[0]) && IsHex(s[1]) && IsHex(s[2]) && IsHex(s[3])
  }

  function Hex4(s: string): (u: nat)
    requires IsHex4(s)
    ensures IsUnit(u)
  {
    ((HexValue(s[0]) * 16 + HexValue(s[1])) * 16 + HexValue(s[2])) * 16 + HexValue(s[3])
  }

  lemma {:induction false} FeedHex4(t: Tok, q: State, s: string)
    requires Clean(t) && InHex(t, q, 0, 0) && IsHex4(s)
    ensures Clean(AfterUnit(t, Hex4(s))) && Feed(t, s) == Alive(AfterUnit(t, Hex4(s)))
  {
    var a := HexNext(t, q, s[0], 0, 0);
    var n1 := HexValue(s[0]) * Pow16(3);
    var b := HexNext(a, q, s[1], 1, n1);
    var n2 := n1 + HexValue(s[1]) * Pow16(2);
    var c := HexNext(b, q, s[2], 2, n2);
    var n3 := n2 + HexValue(s[2]) * Pow16(1);
    LastHexNext(c, q, s[3], n3);
    Hex4Sum(s);
    SameUnit(t, c, q, Hex4(s));
    FeedFour(t, a, b, c, AfterUnit(t, Hex4(s)), s);
  }

  lemma {:induction false} Hex4Sum(s: string)
    requires IsHex4(s)
    ensures Hex4(s) == HexValue(s[0]) * Pow16(3) + HexValue(s[1]) * Pow16(2)
                       + HexValue(s[2]) * Pow16(1) + HexValue(s[3])
  {
  }

  lemma {:induction false} SameUnit(t: Tok, c: Tok, q: State, u: nat)
    requires InHex(t, q, t.w.stPos, t.w.ucs) && InHex(c, q, c.w.stPos, c.w.ucs) && SameFrame(t, c)
    requires c.w.pb == t.w.pb && c.w.high == t.w.high
    requires Clean(t) && Clean(c) && c.w.isDouble == t.w.isDouble
    ensures AfterUnit(t, u) == AfterUnit(c, u)
  {
  }

  lemma {:induction false} FeedFour(t0: Tok, t1: Tok, t2: Tok, t3: Tok, t4: Tok, s: string)
    requires IsHex4(s) && Clean(t0) && Clean(t1) && Clean(t2) && Clean(t3) && Clean(t4)
    requires t0.top.state == t1.top.state == t2.top.state == t3.top.state == EscapeUnicode
    requires Char(t0, s[0]) == Next(t1) && Char(t1, s[1]) == Next(t2)
    requires Char(t2, s[2]) == Next(t3) && Char(t3, s[3]) == Next(t4)
    ensures Feed(t0, s) == Alive(t4)
  {
    FeedTwo(t0, t1, t2, s[0], s[1]);
    FeedTwo(t2, t3, t4, s[2], s[3]);
    FeedParts(t0, [s[0], s[1]], t2, [s[2], s[3]], t4);
    assert s == [s[0], s[1]] + [s[2], s[3]];
  }

  /** Between escapes: `h` is the high surrogate that waits for its partner, or 0. */
  predicate Scanning(t: Tok, q: State, pb: string, h: nat) {
    if h == 0 then InQuotes(t, q, pb)
    else IsText(q) && t.top.state == NeedEscape && t.top.saved == q && t.w.high == h
         && t.w.pb == pb && t.w.quote != '\\'
  }

  lemma {:induction false} UNext(t: Tok, q: State, h: nat) returns (t': Tok)
    requires Clean(t) && Scanning(t, q, t.w.pb, h)
    ensures Feed(t, "\\u") == Alive(t') && Clean(t') && SameFrame(t, t') && InHex(t', q, 0, 0)
    ensures t'.w.pb == t.w.pb && t'.w.high == h
  {
    if h == 0 {
      var u := BackslashNext(t, q);
      t' := To(u.(w := u.w.(ucs := 0, stPos := 0)), EscapeUnicode);
      NextStep(u, 'u', t');
      FeedTwo(t, u, t', '\\', 'u');
    } else {
      var u := To(t, NeedU);
      NextStep(t, '\\', u);
      t' := To(u, EscapeUnicode);
      NextStep(u, 'u', t');
      FeedTwo(t, u, t', '\\', 'u');
    }
    assert "\\u" == ['\\', 'u'];
  }

  /** One escape from any point between escapes. */
  lemma {:induction false} FeedUnit(t: Tok, q: State, h: nat, s: string) returns (t': Tok)
    requires Clean(t) && Scanning(t, q, t.w.pb, h) && IsHex4(s)
    ensures Feed(t, "\\u" + s) == Alive(t') && Clean(t') && SameFrame(t, t')
    ensures var w := EndUnicode(t.w.(ucs := Hex4(s), stPos := 4, high := h));
            Scanning(t', q, w.pb, w.high)
  {
    var u := UNext(t, q, h);
    t' := AfterUnit(u, Hex4(s));
    FeedHex4(u, q, s);
    FeedParts(t, "\\u", u, s, t');
    assert EndUnicode(u.w.(ucs := Hex4(s), stPos := 4)).pb
        == EndUnicode(t.w.(ucs := Hex4(s), stPos := 4, high := h)).pb;
  }

  // ---- runs of escapes ----------------------------------------------------------------

  function Pre(h: nat): seq<nat> { if h == 0 then [] else [h] }

  predicate Units(us: seq<nat>) { forall i :: 0 <= i < |us| ==> IsUnit(us[i]) }

  /** A pending high surrogate, as a code unit. */
  predicate Pendable(h: nat) { h == 0 || IsHigh(h) }

  function Meaning(us: seq<nat>): string
    requires Units(us)
  {
    Bytes(Utf16(us))
  }

  lemma {:induction false} ReplacementBytes()
    ensures AppendedBytes(REPLACEMENT_CHARACTER) == REPLACEMENT
  {
  }

  lemma {:induction false} BytesCons(c: nat, cs: seq<nat>)
    ensures Bytes([c] + cs) == AppendedBytes(c) + Bytes(cs)
  {
  }

  /** A unit that is not the first half of a pair. */
  lemma {:induction false} MeaningSingle(u: nat, rest: seq<nat>)
    requires IsUnit(u) && Units(rest)
    requires IsHigh(u) ==> rest != [] && !IsLow(rest[0])
    ensures Units([u] + rest)
    ensures Meaning([u] + rest) == (if IsHigh(u) then REPLACEMENT else AppendedBytes(u)) + Meaning(rest)
  {
  }

  lemma {:induction false} MeaningPair(h: nat, u: nat, rest: seq<nat>)
    requires IsHigh(h) && IsLow(u) && Units(rest)
    ensures Units([h, u] + rest)
    ensures Meaning([h, u] + rest) == AppendedBytes(Pair(h, u)) + Meaning(rest)
  {
    var us := [h, u] + rest;
    assert us[2..] == rest && us[0] == h && us[1] == u;
    assert Pair(h, u) == 0x10000 + (h - 0xD800) * 0x400 + (u - 0xDC00);
    BytesCons(Pair(h, u), Utf16(rest));
  }

  /** What the escapes seen so far, `h` pending, and those to come mean together. */
  ghost predicate Moves(pb: string, h: nat, u: nat, rest: seq<nat>, pb': string, h': nat)
    requires Units(rest) && IsUnit(u) && Pendable(h)
  {
    && Pendable(h') && Units(Pre(h') + rest) && Units(Pre(h) + [u] + rest)
    && pb' + Meaning(Pre(h') + rest) == pb + Meaning(Pre(h) + [u] + rest)
  }

  lemma {:induction false} MovePair(pb: string, h: nat, u: nat, rest: seq<nat>)
    requires IsHigh(h) && IsLow(u) && Units(rest)
    ensures Moves(pb, h, u, rest, pb + AppendedBytes(Pair(h, u)), 0)
  {
    MeaningPair(h, u, rest);
    assert Pre(h) + [u] + rest == [h, u] + rest && Pre(0) + rest == rest;
  }

  lemma {:induction false} MoveFirst(pb: string, u: nat, rest: seq<nat>)
    requires IsUnit(u) && Units(rest)
    ensures IsHigh(u) ==> Moves(pb, 0, u, rest, pb, u)
    ensures !IsHigh(u) ==> Moves(pb, 0, u, rest, pb + AppendedBytes(u), 0)
  {
    assert Pre(0) + [u] + rest == [u] + rest && Pre(0) + rest == rest;
    if !IsHigh(u) {
      MeaningSingle(u, rest);
    } else {
      assert Pre(u) + rest == [u] + rest;
    }
  }

  /** A high surrogate not followed by a low one stands for U+FFFD. */
  lemma {:induction false} MoveUnpaired(pb: string, h: nat, u: nat, rest: seq<nat>, pb': string, h': nat)
    requires IsHigh(h) && IsUnit(u) && !IsLow(u) && Units(rest)
    requires Moves(pb + REPLACEMENT, 0, u, rest, pb', h')
    ensures Moves(pb, h, u, rest, pb', h')
  {
    var tail := [u] + rest;
    MeaningSingle(h, tail);
    assert Pre(h) + [u] + rest == [h] + tail && Pre(0) + [u] + rest == tail;
    assert pb + REPLACEMENT + Meaning(tail) == pb + (REPLACEMENT + Meaning(tail));
  }

  /** One escape moves its meaning from the input to the printbuf. */
  lemma {:induction false} UnitMeaning(w: Scratch, rest: seq<nat>)
    requires Pendable(w.high) && IsUnit(w.ucs) && Units(rest)
    ensures var w' := EndUnicode(w); Moves(w.pb, w.high, w.ucs, rest, w'.pb, w'.high)
  {
    var h, u, w' := w.high, w.ucs, EndUnicode(w);
    if h != 0 && IsLow(u) {
      MovePair(w.pb, h, u, rest);
    } else if h == 0 {
      MoveFirst(w.pb, u, rest);
    } else {
      MoveFirst(w.pb + REPLACEMENT, u, rest);
      MoveUnpaired(w.pb, h, u, rest, w'.pb, w'.high);
    }
  }

  /** The text of a run of escapes; each element is four hex digits. */
  function EscapeText(hexes: seq<string>): string {
    if hexes == [] then "" else ("\\u" + hexes[0]) + EscapeText(hexes[1..])
  }

  predicate AllHex4(hexes: seq<string>) { forall i :: 0 <= i < |hexes| ==> IsHex4(hexes[i]) }

  function UnitsOf(hexes: seq<string>): (us: seq<nat>)
    requires AllHex4(hexes)
    ensures |us| == |hexes| && Units(us)
  {
    if hexes == [] then [] else [Hex4(hexes[0])] + UnitsOf(hexes[1..])
  }

  /** A run of escapes has been fed: nothing but the text and the pending surrogate moved. */
  ghost predicate FedUnits(t: Tok, q: State, s: string, t': Tok, h': nat)
    requires Clean(t)
  {
    && Feed(t, s) == Alive(t') && Clean(t') && SameFrame(t, t')
    && Pendable(h') && Scanning(t', q, t'.w.pb, h')
  }

  /** One escape of a run, `rest` still to come. */
  lemma {:induction false} FeedNextUnit(t: Tok, q: State, h: nat, hex: string, rest: seq<nat>)
    returns (t': Tok, h': nat)
    requires Clean(t) && Scanning(t, q, t.w.pb, h) && Pendable(h) && IsHex4(hex) && Units(rest)
    ensures FedUnits(t, q, "\\u" + hex, t', h') == true
    ensures Moves(t.w.pb, h, Hex4(hex), rest, t'.w.pb, h') == true
  {
    var w := t.w.(ucs := Hex4(hex), stPos := 4, high := h);
    t' := FeedUnit(t, q, h, hex);
    h' := EndUnicode(w).high;
    UnitMeaning(w, rest);
  }

  lemma {:induction false} FedMore(t: Tok, q: State, a: string, u: Tok, k: nat, b: string, t': Tok, h': nat)
    requires Clean(t) && Clean(u) && FedUnits(t, q, a, u, k) && FedUnits(u, q, b, t', h')
    ensures FedUnits(t, q, a + b, t', h') == true
  {
    FeedParts(t, a, u, b, t');
  }

  /** The text and the pending surrogate after the units `us` mean what they should. */
  ghost predicate Means(pb: string, h: nat, us: seq<nat>, pb': string, h': nat) {
    && Units(Pre(h')) && Units(Pre(h) + us)
    && pb' + Meaning(Pre(h')) == pb + Meaning(Pre(h) + us)
  }

  lemma {:induction false} MeansMore(pb: string, h: nat, u: nat, rest: seq<nat>, pb1: string, k: nat,
                                     pb': string, h': nat)
    requires Units(rest) && IsUnit(u) && Pendable(h) && Moves(pb, h, u, rest, pb1, k)
    requires Means(pb1, k, rest, pb', h')
    ensures Means(pb, h, [u] + rest, pb', h') == true
  {
    assert Pre(h) + ([u] + rest) == Pre(h) + [u] + rest;
  }

  lemma {:induction false} FeedUnits(t: Tok, q: State, h: nat, hexes: seq<string>)
    returns (t': Tok, h': nat)
    requires Clean(t) && Scanning(t, q, t.w.pb, h) && Pendable(h) && AllHex4(hexes)
    ensures FedUnits(t, q, EscapeText(hexes), t', h') == true
    ensures Means(t.w.pb, h, UnitsOf(hexes), t'.w.pb, h') == true
    decreases |hexes|
  {
    if hexes == [] {
      t', h' := t, h;
      assert Pre(h) + [] == Pre(h);
    } else {
      var rest := UnitsOf(hexes[1..]);
      var u, k := FeedNextUnit(t, q, h, hexes[0], rest);
      t', h' := FeedUnits(u, q, k, hexes[1..]);
      FedMore(t, q, "\\u" + hexes[0], u, k, EscapeText(hexes[1..]), t', h');
      MeansMore(t.w.pb, h, Hex4(hexes[0]), rest, u.w.pb, k, t'.w.pb, h');
    }
  }

  /** A waiting high surrogate is replaced as soon as it cannot be paired. */
  function Flushed(t: Tok): Tok {
    if t.top.state == NeedEscape then To(t.(w := Unpaired(t.w)), t.top.saved) else t
  }

  /** Any other character than a backslash, and a backslash with any other escape. */
  lemma {:induction false} FlushNext(t: Tok, q: State, h: nat, c: char)
    requires Clean(t) && Scanning(t, q, t.w.pb, h) && c != '\\'
    ensures Clean(Flushed(t)) && Char(t, c) == Char(Flushed(t), c)
  {
  }

  lemma {:induction false} FlushEscape(t: Tok, q: State, h: nat, c: char)
    requires Clean(t) && Scanning(t, q, t.w.pb, h) && Pendable(h) && c != 'u' && Unescaped(c) != ""
    ensures Clean(Flushed(t)) && Feed(t, ['\\', c]) == Feed(Flushed(t), ['\\', c])
  {
    if h != 0 {
      FlushNext(t, q, h, 'n');
      var a := To(t, NeedU);
      NextStep(t, '\\', a);
      var b := To(t.(w := Unpaired(t.w)), StringEscape);
      RedoStep(a, c, b);
      var f := BackslashNext(Flushed(t), q);
      assert f == b;
      FeedOne(t, '\\', [c], a);
      FeedOne(Flushed(t), '\\', [c], b);
      FeedSame(a, b, c, "");
      assert [c] + "" == [c] && ['\\', c] == ['\\'] + [c];
    }
  }

  /** For every run of \uXXXX escapes, in any mix of upper and lower case digits: the
      bytes appended, together with the replacement a waiting surrogate gets from
      whatever follows, decode as UTF-8 to the code points of the run. */
  lemma {:induction false} EscapesAreUtf8(t: Tok, q: State, hexes: seq<string>) returns (t': Tok, added: string)
    requires Clean(t) && InQuotes(t, q, t.w.pb) && AllHex4(hexes)
    ensures Feed(t, EscapeText(hexes)) == Alive(t') && Clean(t') && SameFrame(t, t')
    ensures Clean(Flushed(t')) && InQuotes(Flushed(t'), q, t.w.pb + added)
    ensures Utf8Decode(added) == CodePoints(Utf16(UnitsOf(hexes)))
    ensures forall c :: c != '\\' ==> Char(t', c) == Char(Flushed(t'), c)
    ensures forall c :: c != 'u' && Unescaped(c) != ""
              ==> Feed(t', ['\\', c]) == Feed(Flushed(t'), ['\\', c])
  {
    var h;
    t', h := FeedUnits(t, q, 0, hexes);
    assert Pre(0) + UnitsOf(hexes) == UnitsOf(hexes);
    added := Meaning(UnitsOf(hexes));
    BytesDecode(Utf16(UnitsOf(hexes)));
    PreMeaning(h);
    FlushNext(t', q, h, 'n');
    forall c | c != '\\' ensures Char(t', c) == Char(Flushed(t'), c) {
      FlushNext(t', q, h, c);
    }
    forall c | c != 'u' && Unescaped(c) != ""
      ensures Feed(t', ['\\', c]) == Feed(Flushed(t'), ['\\', c])
    {
      FlushEscape(t', q, h, c);
    }
  }

  lemma {:induction false} PreMeaning(h: nat)
    requires Pendable(h)
    ensures Units(Pre(h)) && Meaning(Pre(h)) == if h == 0 then "" else REPLACEMENT
  {
    if h != 0 {
      ReplacementBytes();
      assert Utf16([h]) == [REPLACEMENT_CHARACTER] + [];
      BytesCons(REPLACEMENT_CHARACTER, []);
    }
  }
}
