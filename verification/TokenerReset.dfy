/** json_tokener_reset: what a tokener remembers of the text before it.  Of all the scratch
    fields that reset leaves alone, only a pending high surrogate can be told from the
    outside. */
module TokenerReset {
  import opened Json
  import opened Tokener
  import opened UnicodeEscapes
  import opened Parsing
  import TokenerClass

  // ---- the fields a state reads ----------------------------------------------------------

  /** The scratch fields without those that a state writes before it reads them. */
  function Read(s: State, w: Scratch): Scratch {
    Scratch(if Wording(s) || Quoting(s) then w.pb else "",
            if s == NullWord || s == Boolean || Unicoding(s) then w.stPos else 0,
            if Unicoding(s) then w.ucs else 0,
            w.high,
            if Quoting(s) then w.quote else NUL,
            if s == Number then w.isDouble else false,
            w.num)
  }

  /** Two tokeners that cannot be told apart. */
  predicate Twins(t: Tok, u: Tok) {
    t.base == u.base && t.top == u.top && t.env == u.env && Read(t.top.state, t.w) == Read(u.top.state, u.w)
  }

  predicate TwinOutcomes(a: Outcome, b: Outcome) {
    && (a.Redo? <==> b.Redo?) && (a.Next? <==> b.Next?)
    && (if a.Out? then b.Out? && a.err == b.err && a.t.base == b.t.base && a.t.top == b.t.top && a.t.env == b.t.env
        else Twins(a.t, b.t))
  }

  // ---- one character -----------------------------------------------------------------------

  lemma {:induction false} TwinEndNumber(t: Tok, u: Tok, c: char, l: NumLocals, r: (bool, Json))
    requires Twins(t, u) && t.top.state == Number
    ensures TwinOutcomes(EndNumber(t, c, l, r), EndNumber(u, c, l, r)) == true
  {
    assert t.w.pb == u.w.pb && t.w.isDouble == u.w.isDouble;
  }

  lemma {:induction false} TwinNumber(t: Tok, u: Tok, c: char)
    requires Twins(t, u) && t.top.state == Number
    ensures TwinOutcomes(StepNumber(t, c), StepNumber(u, c)) == true
  {
    assert t.w.pb == u.w.pb && t.w.isDouble == u.w.isDouble && t.w.num == u.w.num;
    TwinEndNumber(t, u, c, LocalsOf(t.w), FinishNumber(t.w.pb, t.env.strict));
  }

  lemma {:induction false} TwinWord(t: Tok, u: Tok, c: char)
    requires Twins(t, u)
    ensures t.top.state == NullWord ==> TwinOutcomes(StepNull(t, c), StepNull(u, c)) == true
    ensures t.top.state == Boolean ==> TwinOutcomes(StepBoolean(t, c), StepBoolean(u, c)) == true
  {
    assert t.top.state == NullWord || t.top.state == Boolean ==> t.w.pb == u.w.pb && t.w.stPos == u.w.stPos;
  }

  /** What a value begins with is the same for twins. */
  lemma {:induction false} TwinBegin(t: Tok, u: Tok, c: char)
    requires Twins(t, u) && t.top.state == Start
    ensures Twins(StartNumber(t), StartNumber(u)) && Twins(StartText(t, c, InString), StartText(u, c, InString))
    ensures Twins(StartWord(t, Inf), StartWord(u, Inf)) && Twins(StartWord(t, NullWord), StartWord(u, NullWord))
    ensures Twins(StartWord(t, Boolean), StartWord(u, Boolean))
  {
  }

  lemma {:induction false} TwinStart(t: Tok, u: Tok, c: char)
    requires Twins(t, u) && t.top.state == Start
    ensures TwinOutcomes(StepStart(t, c), StepStart(u, c)) == true
  {
    TwinBegin(t, u, c);
    assert Twins(Open(t, Obj([]), FieldStart), Open(u, Obj([]), FieldStart));
    assert Twins(Open(t, Arr([]), Array), Open(u, Arr([]), Array));
  }

  lemma {:induction false} TwinFinish(t: Tok, u: Tok)
    requires Twins(t, u) && t.top.state == Finish
    ensures TwinOutcomes(StepFinish(t), StepFinish(u)) == true
  {
  }

  lemma {:induction false} TwinToken(t: Tok, u: Tok, c: char)
    requires Twins(t, u) && (t.top.state == Start || t.top.state == Finish || Wording(t.top.state))
    ensures TwinOutcomes(StepToken(t, c), StepToken(u, c)) == true
  {
    var s := t.top.state;
    if s == Start { TwinStart(t, u, c); }
    else if s == Finish { TwinFinish(t, u); }
    else if s == Number { TwinNumber(t, u, c); }
    else { TwinWord(t, u, c); }
  }

  lemma {:induction false} TwinText(t: Tok, u: Tok, c: char)
    requires Twins(t, u) && (t.top.state == InString || t.top.state == InField)
    ensures TwinOutcomes(StepText(t, c), StepText(u, c)) == true
  {
    assert t.w.pb == u.w.pb && t.w.quote == u.w.quote && t.w.high == u.w.high;
  }

  lemma {:induction false} TwinEscape(t: Tok, u: Tok, c: char)
    requires Twins(t, u) && t.top.state == StringEscape && IsText(t.top.saved)
    ensures TwinOutcomes(StepEscape(t, c), StepEscape(u, c)) == true
  {
    assert t.w.pb == u.w.pb && t.w.quote == u.w.quote && t.w.high == u.w.high;
  }

  lemma {:induction false} TwinHex(t: Tok, u: Tok, c: char)
    requires Twins(t, u) && t.top.state == EscapeUnicode && IsText(t.top.saved)
    ensures TwinOutcomes(StepUnicode(t, c), StepUnicode(u, c)) == true
  {
    assert t.w == u.w.(isDouble := t.w.isDouble);
  }

  lemma {:induction false} TwinNeed(t: Tok, u: Tok, c: char)
    requires Twins(t, u) && Unicoding(t.top.state) && IsText(t.top.saved)
    ensures t.top.state == NeedEscape ==> TwinOutcomes(StepNeedEscape(t, c), StepNeedEscape(u, c)) == true
    ensures t.top.state == NeedU ==> TwinOutcomes(StepNeedU(t, c), StepNeedU(u, c)) == true
  {
    assert t.w.pb == u.w.pb && t.w.quote == u.w.quote && t.w.high == u.w.high
        && t.w.stPos == u.w.stPos && t.w.ucs == u.w.ucs && t.w.num == u.w.num;
  }

  lemma {:induction false} TwinCharacters(t: Tok, u: Tok, c: char)
    requires Twins(t, u) && Valid(t) && Quoting(t.top.state)
    ensures TwinOutcomes(StepCharacters(t, c), StepCharacters(u, c)) == true
  {
    var s := t.top.state;
    if s == EscapeUnicode { TwinHex(t, u, c); }
    else if Unicoding(s) { TwinNeed(t, u, c); }
    else if s == StringEscape { TwinEscape(t, u, c); }
    else { TwinText(t, u, c); }
  }

  lemma {:induction false} TwinEatws(t: Tok, u: Tok, c: char)
    requires Twins(t, u) && t.top.state == Eatws && Resumable(t.top.saved, t.top.current)
    ensures TwinOutcomes(StepEatws(t, c), StepEatws(u, c)) == true
  {
  }

  lemma {:induction false} TwinComment(t: Tok, u: Tok, c: char)
    requires Twins(t, u) && (t.top.state == CommentStart || Commenting(t.top.state))
    ensures t.top.state == CommentStart ==> TwinOutcomes(StepCommentStart(t, c), StepCommentStart(u, c)) == true
    ensures Commenting(t.top.state) ==> TwinOutcomes(StepComment(t, c), StepComment(u, c)) == true
  {
  }

  lemma {:induction false} TwinContainer(t: Tok, u: Tok, c: char)
    requires Twins(t, u) && Valid(t) && Valid(u)
    requires !Spacing(t.top.state) && !Wording(t.top.state) && !Quoting(t.top.state)
    ensures TwinOutcomes(StepContainer(t, c), StepContainer(u, c)) == true
  {
  }

  lemma {:induction false} TwinStep(t: Tok, u: Tok, c: char)
    requires Twins(t, u) && Valid(t) && Valid(u)
    ensures TwinOutcomes(Step(t, c), Step(u, c)) == true
  {
    var s := t.top.state;
    if s == Eatws { TwinEatws(t, u, c); }
    else if Spacing(s) { TwinComment(t, u, c); }
    else if Quoting(s) { TwinCharacters(t, u, c); }
    else if s == Start || s == Finish || Wording(s) { TwinToken(t, u, c); }
    else { TwinContainer(t, u, c); }
  }

  lemma {:induction false} TwinChar(t: Tok, u: Tok, c: char)
    requires Twins(t, u) && Valid(t) && Valid(u)
    ensures TwinOutcomes(Char(t, c), Char(u, c)) == true
    decreases Rank(t.top)
  {
    TwinStep(t, u, c);
    StepKeeps(t, c);
    StepKeeps(u, c);
    if Step(t, c).Redo? {
      TwinChar(Step(t, c).t, Step(u, c).t, c);
    }
  }

  // ---- calls ---------------------------------------------------------------------------------

  predicate TwinEnds(e: CallEnd, d: CallEnd) {
    && e.err == d.err && e.c == d.c && e.t.base == d.t.base && e.t.top == d.t.top && e.t.env == d.t.env
    && (e.err == Continue ==> Twins(e.t, d.t))
  }

  lemma {:induction false} TwinRun(t: Tok, u: Tok, s: string, c: char)
    requires Twins(t, u) && Valid(t) && Valid(u)
    ensures TwinEnds(Run(t, s, c), Run(u, s, c)) == true
    decreases |s|
  {
    if s != "" {
      TwinChar(t, u, s[0]);
      var o, p := Char(t, s[0]), Char(u, s[0]);
      if o.Next? && s[0] != NUL {
        TwinRun(o.t, p.t, s[1..], s[0]);
      }
    }
  }

  predicate TwinResults(r: ParseResult, q: ParseResult) {
    r.err == q.err && r.value == q.value && (r.err == Continue ==> Twins(r.t, q.t))
  }

  lemma {:induction false} TwinCall(t: Tok, u: Tok, chunk: string)
    requires Twins(t, u) && Valid(t) && Valid(u)
    ensures TwinResults(ParseEx(t, chunk), ParseEx(u, chunk)) == true
  {
    TwinRun(BeginCall(t), BeginCall(u), chunk, '\U{01}');
  }

  /** Tokeners that are twins answer alike, however a text is cut. */
  lemma {:induction false} TwinChunks(t: Tok, u: Tok, chunks: seq<string>)
    requires Twins(t, u) && Valid(t) && Valid(u) && chunks != []
    ensures var q, p := ParseChunks(t, chunks), ParseChunks(u, chunks);
            q.last == p.last && q.r.err == p.r.err && q.r.value == p.r.value
    decreases |chunks|
  {
    TwinCall(t, u, chunks[0]);
    var r, s := ParseEx(t, chunks[0]), ParseEx(u, chunks[0]);
    if r.err == Continue && |chunks| > 1 {
      TwinChunks(r.t, s.t, chunks[1..]);
    }
  }

  // ---- reset -----------------------------------------------------------------------------------

  /** A text being read with one \u escape begun; `high` is what was left over. */
  ghost predicate AtEscape(v: Tok, t: Tok) {
    && Clean(v) && InHex(v, InString, 0, 0) && v.w.pb == "" && v.w.high == t.w.high && v.w.quote == '"'
    && v.base == t.base && v.env == t.env
  }

  lemma {:induction false} OpenEscape(t: Tok, rest: string, x: char) returns (v: Tok)
    requires Valid(t) && t.top == FRESH
    ensures AtEscape(v, t) && Run(t, "\"\\u" + rest, x) == Run(v, rest, 'u')
  {
    var a := StartText(To(t, Start), '"', InString);
    StepKeeps(t, '"');
    StepKeeps(To(t, Start), '"');
    var b := a.(top := a.top.(saved := InString, state := StringEscape));
    StepKeeps(a, '\\');
    v := To(b.(w := b.w.(ucs := 0, stPos := 0)), EscapeUnicode);
    StepKeeps(b, 'u');
    assert "\"\\u" + rest == ['"'] + (['\\'] + (['u'] + rest));
    RunOne(t, '"', ['\\'] + (['u'] + rest), x, a);
    RunOne(a, '\\', ['u'] + rest, '"', b);
    RunOne(b, 'u', rest, '\\', v);
  }

  lemma {:induction false} ClosesDocument(t: Tok)
    requires Valid(t) && t.base == [] && t.top.state == InString && t.w.quote == '"'
    ensures Run(t, "\"", '1') == CallEnd(Success, Done(t, Str(t.w.pb)), '"')
  {
    StepKeeps(t, '"');
    assert Char(t, '"') == Next(Done(t, Str(t.w.pb))) && "\""[1..] == "";
  }

  /** A document that begins with an escape. */
  lemma {:induction false} ReadEscape(t: Tok, hex: string, rest: string) returns (v: Tok)
    requires Valid(t) && t.top == FRESH && IsHex4(hex)
    ensures AtEscape(v, t)
    ensures Run(t, "\"\\u" + (hex + rest), '\U{01}') == Run(AfterUnit(v, Hex4(hex)), rest, hex[3])
  {
    v := OpenEscape(t, hex + rest, '\U{01}');
    FeedHex4(v, InString, hex);
    RunFeed(v, hex, rest, 'u');
  }

  /** The document "A" written as an escape, after a reset: a left-over surrogate comes first. */
  lemma {:induction false} LeftOver(t: Tok)
    requires Valid(t) && t.base == [] && t.top == FRESH && BeginCall(t) == t
    ensures var r := ParseEx(t, "\"\\u0041\"");
            r.err == Success && r.value == Str((if t.w.high == 0 then "" else REPLACEMENT) + "A")
  {
    assert "\"\\u" + ("0041" + "\"") == "\"\\u0041\"";
    assert Hex4("0041") == 0x41;
    var v := ReadEscape(t, "0041", "\"");
    var u := AfterUnit(v, 0x41);
    assert u.top.state == InString && u.w.pb == (if t.w.high == 0 then "" else REPLACEMENT) + "A";
    ClosesDocument(u);
  }

  /** json_tokener_reset makes a tokener as good as new if and only if no high surrogate was
      pending: otherwise some text is read differently. */
  lemma {:induction false} ResetIff(t: Tok)
    requires HighOk(t.w) && t.env.maxDepth >= 1
    ensures Valid(AfterReset(t)) && Valid(Init(t.env))
    ensures t.w.high == 0 <==>
            forall chunk: string ::
              var r, q := ParseEx(AfterReset(t), chunk), ParseEx(Init(t.env), chunk);
              r.err == q.err && r.value == q.value
  {
    if t.w.high == 0 {
      forall chunk: string
        ensures var r, q := ParseEx(AfterReset(t), chunk), ParseEx(Init(t.env), chunk);
                r.err == q.err && r.value == q.value
      {
        TwinCall(AfterReset(t), Init(t.env), chunk);
      }
    } else {
      LeftOver(AfterReset(t));
      LeftOver(Init(t.env));
      assert Str(REPLACEMENT + "A") != Str("" + "A");
    }
  }

  /** The same in chunks, when nothing was pending. */
  lemma {:induction false} ResetChunks(t: Tok, chunks: seq<string>)
    requires t.w.high == 0 && t.env.maxDepth >= 1 && chunks != []
    ensures Valid(AfterReset(t)) && Valid(Init(t.env))
    ensures var q, p := ParseChunks(AfterReset(t), chunks), ParseChunks(Init(t.env), chunks);
            q.last == p.last && q.r.err == p.r.err && q.r.value == p.r.value
  {
    TwinChunks(AfterReset(t), Init(t.env), chunks);
  }

  lemma {:induction false} Interrupted(env: Env)
    requires env.maxDepth >= 1
    ensures Valid(Init(env))
    ensures var r := ParseEx(Init(env), "\"\\ud800"); r.err == Continue && r.t.w.high == 0xD800
  {
    var t := Init(env);
    assert "\"\\u" + ("d800" + "") == "\"\\ud800";
    assert Hex4("d800") == 0xD800;
    var v := ReadEscape(t, "d800", "");
  }

  /** The run: a string that stops after a high surrogate, a reset, and the document "A"
      written as an escape, which comes back as U+FFFD and A. */
  method LeakyReset(env: Env) returns (value: Json)
    requires env.maxDepth >= 1
    ensures value == Str(REPLACEMENT + "A")
  {
    var tok := new TokenerClass.JsonTokener(env);
    Interrupted(env);
    var _ := tok.ParseEx("\"\\ud800");
    tok.Reset();
    LeftOver(tok.State());
    value := tok.ParseEx("\"\\u0041\"");
  }
}
