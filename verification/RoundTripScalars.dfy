/** Words, numbers and strings: the tokener reads back what the printer wrote. */
module RoundTripScalars {
  import opened Json
  import opened JsonPrint
  import opened Tokener
  import opened TokenerFeed
  import opened UnicodeEscapes

  lemma {:induction false} EnterStart(t: Tok, c: char)
    requires Clean(t) && t.top == FRESH && !IsWs(c) && c != '/'
    ensures Clean(To(t, Start)) && Char(t, c) == Char(To(t, Start), c)
  {
  }

  lemma {:induction false} EnterToken(t: Tok, c: char, t': Tok)
    requires Clean(t) && t.top == FRESH && !IsWs(c) && c != '/'
    requires StepStart(To(t, Start), c) == Redo(t')
    ensures Clean(t') && Char(t, c) == Char(t', c)
  {
    EnterStart(t, c);
    RedoStep(To(t, Start), c, t');
  }

  // ---- null, true, false ----------------------------------------------------

  predicate IsWord(word: string, s: State) {
    (word == "null" && s == NullWord) || (word == "true" && s == Boolean)
    || (word == "false" && s == Boolean)
  }

  /** i characters of the word have been read. */
  predicate Reading(t: Tok, word: string, i: nat) {
    i <= |word| && IsWord(word, t.top.state) && t.w.stPos == i && t.w.pb == word[..i]
  }

  lemma {:induction false} NullNext(t: Tok, i: nat)
    requires i < 4 && Reading(t, "null", i)
    ensures StepNull(t, "null"[i]) == Next(Longer(Put(t, ["null"[i]])))
    ensures Put(t, ["null"[i]]).w.pb == "null"[..i + 1]
  {
  }

  lemma {:induction false} TrueNext(t: Tok, i: nat)
    requires i < 4 && Reading(t, "true", i)
    ensures StepBoolean(t, "true"[i]) == Next(Longer(Put(t, ["true"[i]])))
    ensures Put(t, ["true"[i]]).w.pb == "true"[..i + 1]
  {
  }

  lemma {:induction false} FalseNext(t: Tok, i: nat)
    requires i < 5 && Reading(t, "false", i)
    ensures StepBoolean(t, "false"[i]) == Next(Longer(Put(t, ["false"[i]])))
    ensures Put(t, ["false"[i]]).w.pb == "false"[..i + 1]
  {
    assert "false"[..i] + ["false"[i]] == "false"[..i + 1];
    assert Matches("false"[..i + 1], "false"[..i + 1], t.env.strict);
    var n := Min(i + 1, 4);
    assert !Matches("true"[..n], "false"[..i + 1], t.env.strict) by {
      assert "true"[..n][0] == 't' && "false"[..i + 1][0] == 'f';
      assert Lower('t') != Lower('f');
    }
  }

  lemma {:induction false} WordNext(t: Tok, word: string, i: nat) returns (t': Tok)
    requires Clean(t) && i < |word| && Reading(t, word, i)
    ensures Clean(t') && Reading(t', word, i + 1) && t' == Longer(Put(t, [word[i]]))
    ensures Char(t, word[i]) == Next(t')
  {
    t' := Longer(Put(t, [word[i]]));
    if word == "null" { NullNext(t, i); }
    else if word == "true" { TrueNext(t, i); }
    else { FalseNext(t, i); }
    NextStep(t, word[i], t');
  }

  lemma {:induction false} FeedWordFrom(t: Tok, word: string, i: nat) returns (t': Tok)
    requires Clean(t) && i <= |word| && Reading(t, word, i)
    ensures Feed(t, word[i..]) == Alive(t') && Reading(t', word, |word|)
    ensures t'.base == t.base && t'.top == t.top && t'.env == t.env
    decreases |word| - i
  {
    if i == |word| {
      t' := t;
    } else {
      var u := WordNext(t, word, i);
      t' := FeedWordFrom(u, word, i + 1);
      FeedOne(t, word[i], word[i + 1..], u);
      assert word[i..] == [word[i]] + word[i + 1..];
    }
  }

  lemma {:induction false} EnterWord(t: Tok, word: string) returns (t': Tok)
    requires Clean(t) && t.top == FRESH && (word == "null" || word == "true" || word == "false")
    ensures Clean(t') && Reading(t', word, 0) && Char(t, word[0]) == Char(t', word[0])
    ensures t'.base == t.base && t'.env == t.env
  {
    t' := StartWord(To(t, Start), if word == "null" then NullWord else Boolean);
    EnterToken(t, word[0], t');
  }

  lemma {:induction false} FeedWord(t: Tok, word: string, v: Json) returns (t': Tok)
    requires Clean(t) && t.top == FRESH
    requires (word == "null" && v == Null) || (word == "true" && v == Bool(true))
             || (word == "false" && v == Bool(false))
    ensures Feed(t, word) == Alive(t') && Clean(t') && Settled(t', v)
    ensures t'.base == t.base && t'.env == t.env && t'.top.state != Eatws
  {
    var u := EnterWord(t, word);
    t' := FeedWordFrom(u, word, 0);
    FeedSame(t, u, word[0], word[1..]);
    assert word == [word[0]] + word[1..] && word[0..] == word;
  }

  // ---- integers -------------------------------------------------------------

  lemma {:induction false} DigitPrefixAll(s: string)
    requires AllDigits(s)
    ensures DigitPrefix(s) == s
  {
    if s != "" {
      DigitPrefixAll(s[1..]);
      assert s == [s[0]] + s[1..];
    }
  }

  /** strtoll and strtoull invert the decimal printer. */
  lemma {:induction false} FinishPrinted(n: int, strict: bool)
    requires INT64_MIN <= n <= UINT64_MAX
    ensures FinishNumber(PrintInt(n), strict)
         == (true, if n <= INT64_MAX then Int64(n) else UInt64(n))
  {
    if n < 0 {
      assert PrintInt(n)[1..] == Decimal(-n);
      DigitPrefixAll(Decimal(-n));
    } else {
      DigitPrefixAll(Decimal(n));
    }
  }

  predicate InNumber(t: Tok, pb: string) {
    t.top.state == Number && !t.w.isDouble && t.w.pb == pb
  }

  lemma {:induction false} NumberNext(t: Tok, c: char) returns (t': Tok)
    requires Clean(t) && InNumber(t, t.w.pb) && (IsDigit(c) || (c == '-' && LocalsOf(t.w).negOk))
    ensures Clean(t') && Char(t, c) == Next(t') && InNumber(t', t.w.pb + [c])
    ensures t'.base == t.base && t'.top == t.top && t'.env == t.env
  {
    t' := t.(w := PutNumberChar(t.w, c, LocalsOf(t.w)));
    NextStep(t, c, t');
  }

  lemma {:induction false} FeedDigits(t: Tok, s: string) returns (t': Tok)
    requires Clean(t) && InNumber(t, t.w.pb) && AllDigits(s)
    ensures Feed(t, s) == Alive(t') && InNumber(t', t.w.pb + s)
    ensures t'.base == t.base && t'.top == t.top && t'.env == t.env
    decreases |s|
  {
    if s == "" {
      t' := t;
      assert t.w.pb + s == t.w.pb;
    } else {
      var u := NumberNext(t, s[0]);
      t' := FeedDigits(u, s[1..]);
      FeedOne(t, s[0], s[1..], u);
      assert s == [s[0]] + s[1..];
      assert t.w.pb + [s[0]] + s[1..] == t.w.pb + s;
    }
  }

  /** A number text: digits after an optional minus sign. */
  lemma {:induction false} FeedInt(t: Tok, s: string, v: Json) returns (t': Tok)
    requires Clean(t) && t.top == FRESH && s != "" && AllDigits(s[1..])
    requires s[0] == '-' || IsDigit(s[0])
    requires FinishNumber(s, t.env.strict) == (true, v)
    ensures Feed(t, s) == Alive(t') && Clean(t') && Settled(t', v)
    ensures t'.base == t.base && t'.env == t.env && t'.top.state != Eatws
  {
    var u := StartNumber(To(t, Start));
    EnterToken(t, s[0], u);
    var n := NumberNext(u, s[0]);
    t' := FeedDigits(n, s[1..]);
    FeedOne(t, s[0], s[1..], n);
    assert s == [s[0]] + s[1..] && "" + [s[0]] + s[1..] == s;
  }

  lemma {:induction false} PrintIntShape(n: int)
    ensures var s := PrintInt(n);
            s != "" && AllDigits(s[1..]) && (s[0] == '-' || IsDigit(s[0]))
  {
  }

  lemma {:induction false} FeedPrintedInt(t: Tok, n: int, v: Json) returns (t': Tok)
    requires Clean(t) && t.top == FRESH && INT64_MIN <= n <= UINT64_MAX
    requires v == if n <= INT64_MAX then Int64(n) else UInt64(n)
    ensures Feed(t, PrintInt(n)) == Alive(t') && Clean(t') && Settled(t', v)
    ensures t'.base == t.base && t'.env == t.env && t'.top.state != Eatws
  {
    var s := PrintInt(n);
    PrintIntShape(n);
    FinishPrinted(n, t.env.strict);
    t' := FeedInt(t, s, v);
  }

  // ---- strings --------------------------------------------------------------

  /** Inside a double-quoted string or field name, pb read so far. */
  predicate Quoted(t: Tok, q: State, pb: string) {
    InQuotes(t, q, pb) && t.w.quote == '"'
  }

  lemma {:induction false} PlainNext(t: Tok, q: State, c: char) returns (t': Tok)
    requires Clean(t) && Quoted(t, q, t.w.pb) && c != '"' && c != '\\' && c as int > 0x1f
    ensures Clean(t') && Char(t, c) == Next(t') && Quoted(t', q, t.w.pb + [c]) && SameFrame(t, t')
  {
    t' := Put(t, [c]);
    NextStep(t, c, t');
  }

  lemma {:induction false} ShortNext(t: Tok, q: State, c: char) returns (t': Tok)
    requires Clean(t) && Quoted(t, q, t.w.pb) && c != 'u' && Unescaped(c) != ""
    ensures Feed(t, "\\" + [c]) == Alive(t') && Clean(t')
    ensures Quoted(t', q, t.w.pb + Unescaped(c)) && SameFrame(t, t')
  {
    var u := BackslashNext(t, q);
    t' := To(Put(u, Unescaped(c)), q);
    NextStep(u, c, t');
    FeedOne(t, '\\', [c], u);
    FeedOne(u, c, "", t');
  }

  /** A control byte as the printer writes it, read back. */
  lemma {:induction false} ControlNext(t: Tok, q: State, c: char) returns (t': Tok)
    requires Clean(t) && Quoted(t, q, t.w.pb) && c < ' '
    ensures Feed(t, "\\u00" + [HexDigit(c as int / 16), HexDigit(c as int % 16)]) == Alive(t')
    ensures Clean(t') && Quoted(t', q, t.w.pb + [c]) && SameFrame(t, t')
  {
    var x := c as int;
    var hex := "00" + [HexDigit(x / 16), HexDigit(x % 16)];
    ControlHex(x);
    t' := FeedUnit(t, q, 0, hex);
    assert "\\u" + hex == "\\u00" + [HexDigit(x / 16), HexDigit(x % 16)];
  }

  lemma {:induction false} ControlHex(x: int)
    requires 0 <= x < 0x20
    ensures var hex := "00" + [HexDigit(x / 16), HexDigit(x % 16)]; IsHex4(hex) && Hex4(hex) == x
  {
  }

  /** The one-letter escapes of the printer and of the tokener agree. */
  lemma {:induction false} ShortEscapeInverse(c: char)
    requires HasShortEscape(c)
    ensures |ShortEscape(c)| == 2 && ShortEscape(c)[0] == '\\' && ShortEscape(c)[1] != 'u'
    ensures Unescaped(ShortEscape(c)[1]) == [c]
  {
  }

  lemma {:induction false} FeedEscapedChar(t: Tok, q: State, c: char, f: Flags) returns (t': Tok)
    requires Clean(t) && Quoted(t, q, t.w.pb)
    ensures Feed(t, EscapeChar(c, f)) == Alive(t') && Clean(t')
    ensures Quoted(t', q, t.w.pb + [c]) && SameFrame(t, t')
  {
    if HasShortEscape(c) && !(c == '/' && f.noSlashEscape) {
      ShortEscapeInverse(c);
      t' := ShortNext(t, q, ShortEscape(c)[1]);
      assert ShortEscape(c) == "\\" + [ShortEscape(c)[1]];
    } else if c < ' ' {
      t' := ControlNext(t, q, c);
    } else {
      t' := PlainNext(t, q, c);
      FeedOne(t, c, "", t');
    }
  }

  lemma {:induction false} FeedFirstEscaped(t: Tok, q: State, s: string, f: Flags) returns (t': Tok, e: string)
    requires Clean(t) && Quoted(t, q, t.w.pb) && s != ""
    ensures Adds(t, q, e, [s[0]], t')
    ensures Escape(s, f) == e + Escape(s[1..], f)
  {
    e := EscapeChar(s[0], f);
    t' := FeedEscapedChar(t, q, s[0], f);
  }

  lemma {:induction false} ConsString(p: string, s: string)
    requires s != ""
    ensures p + [s[0]] + s[1..] == p + s
  {
  }

  /** A text inside quotes takes the machine from t to t' and adds `added` to the printbuf. */
  ghost predicate Adds(t: Tok, q: State, text: string, added: string, t': Tok) {
    Clean(t) && Feed(t, text) == Alive(t') && Clean(t')
    && Quoted(t', q, t.w.pb + added) && SameFrame(t, t')
  }

  lemma {:induction false} AddsBoth(t: Tok, q: State, e: string, u: Tok, rest: string, s: string, t': Tok)
    requires s != "" && Adds(t, q, e, [s[0]], u) && Adds(u, q, rest, s[1..], t')
    ensures Adds(t, q, e + rest, s, t')
  {
    FeedParts(t, e, u, rest, t');
    ConsString(t.w.pb, s);
  }

  lemma {:induction false} FeedEscaped(t: Tok, q: State, s: string, f: Flags) returns (t': Tok)
    requires Clean(t) && Quoted(t, q, t.w.pb)
    ensures Adds(t, q, Escape(s, f), s, t')
    decreases |s|
  {
    if s == "" {
      t' := t;
      assert t.w.pb + s == t.w.pb;
    } else {
      var u, e := FeedFirstEscaped(t, q, s, f);
      t' := FeedEscaped(u, q, s[1..], f);
      AddsBoth(t, q, e, u, Escape(s[1..], f), s, t');
    }
  }
}
