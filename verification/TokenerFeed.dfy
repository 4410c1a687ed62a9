/** Feeding characters to the tokener: how a text splits, what white space does,
    and how a finished value meets the character after it. */
module TokenerFeed {
  import opened Json
  import opened JsonPrint
  import opened Tokener

  /** What may follow a value in JSON text; NUL ends the text. */
  predicate Delim(c: char) {
    c == ',' || c == ']' || c == '}' || c == NUL || IsWs(c)
  }

  /** Inside a number only digits and delimiters follow: the characters on which the
      locals rebuilt from the printbuf agree with the uninterrupted ones.  No comment
      starts either. */
  predicate Calm(t: Tok, c: char) {
    && (t.top.state == Number ==> IsDigit(c) || Delim(c))
    && (t.top.state == Eatws ==> c != '/')
  }

  datatype Fed = Alive(t: Tok) | Dead

  /** The machine after a text, if every character of it is consumed calmly. */
  function Feed(t: Tok, s: string): (r: Fed)
    requires Clean(t)
    ensures r.Alive? ==> Clean(r.t) && r.t.env == t.env
    decreases |s|
  {
    if s == "" then Alive(t)
    else
      var o := Char(t, s[0]);
      if o.Next? && s[0] != NUL && Calm(t, s[0]) then Feed(o.t, s[1..]) else Dead
  }

  lemma {:induction false} FeedConcat(t: Tok, a: string, b: string)
    requires Clean(t) && Feed(t, a).Alive?
    ensures Feed(t, a + b) == Feed(Feed(t, a).t, b)
    decreases |a|
  {
    if a == "" {
      assert a + b == b;
    } else {
      assert (a + b)[1..] == a[1..] + b;
      FeedConcat(Char(t, a[0]).t, a[1..], b);
    }
  }

  lemma {:induction false} FeedParts(t: Tok, a: string, u: Tok, b: string, t': Tok)
    requires Clean(t) && Feed(t, a) == Alive(u) && Clean(u) && Feed(u, b) == Alive(t')
    ensures Feed(t, a + b) == Alive(t')
  {
    FeedConcat(t, a, b);
  }

  lemma {:induction false} FeedOne(t: Tok, c: char, rest: string, t': Tok)
    requires Clean(t) && c != NUL && Calm(t, c) && Char(t, c) == Next(t')
    ensures Feed(t, [c] + rest) == Feed(t', rest)
    ensures Feed(t, [c]) == Alive(t')
  {
  }

  lemma {:induction false} FeedTwo(t0: Tok, t1: Tok, t2: Tok, c: char, d: char)
    requires Clean(t0) && Clean(t1) && Char(t0, c) == Next(t1) && Char(t1, d) == Next(t2)
    requires Calm(t0, c) && Calm(t1, d) && c != NUL && d != NUL
    ensures Feed(t0, [c, d]) == Alive(t2)
  {
    FeedOne(t1, d, "", t2);
    FeedOne(t0, c, [d], t1);
    assert [c, d] == [c] + [d];
  }

  /** A character on which two states agree: the texts after it agree as well. */
  lemma {:induction false} FeedSame(t: Tok, t': Tok, c: char, rest: string)
    requires Clean(t) && Clean(t') && Char(t, c) == Char(t', c) && Calm(t, c) && Calm(t', c)
    ensures Feed(t, [c] + rest) == Feed(t', [c] + rest)
  {
  }

  lemma {:induction false} RedoStep(t: Tok, c: char, t': Tok)
    requires Clean(t) && Step(t, c) == Redo(t')
    ensures Clean(t') && Char(t, c) == Char(t', c)
  {
    StepKeeps(t, c);
  }

  lemma {:induction false} NextStep(t: Tok, c: char, t': Tok)
    requires Clean(t) && Step(t, c) == Next(t')
    ensures Clean(t') && Char(t, c) == Next(t')
  {
    StepKeeps(t, c);
  }

  predicate AllWs(w: string) { forall i :: 0 <= i < |w| ==> IsWs(w[i]) }

  lemma {:induction false} FeedWs(t: Tok, w: string, rest: string)
    requires Clean(t) && t.top.state == Eatws && AllWs(w)
    ensures Feed(t, w + rest) == Feed(t, rest)
    ensures Feed(t, w) == Alive(t)
    decreases |w|
  {
    if w == "" {
      assert w + rest == rest;
    } else {
      NextStep(t, w[0], t);
      FeedWs(t, w[1..], rest);
      FeedOne(t, w[0], w[1..] + rest, t);
      FeedOne(t, w[0], w[1..], t);
      assert w + rest == [w[0]] + (w[1..] + rest);
      assert w == [w[0]] + w[1..];
    }
  }

  /** A character that ends white space goes to the saved state. */
  lemma {:induction false} Resume(t: Tok, c: char)
    requires Clean(t) && t.top.state == Eatws && !IsWs(c) && c != '/'
    ensures Clean(To(t, t.top.saved))
    ensures Char(t, c) == Char(To(t, t.top.saved), c)
  {
  }

  // ---- finished values ------------------------------------------------------

  /** A word or number that only waits for the character after it, or a value that is
      already complete. */
  predicate Settled(t: Tok, v: Json) {
    var s := t.top.state;
    if s == NullWord then t.w.stPos == 4 && t.w.pb == "null" && v == Null
    else if s == Boolean then
      (t.w.stPos == 4 && t.w.pb == "true" && v == Bool(true))
      || (t.w.stPos == 5 && t.w.pb == "false" && v == Bool(false))
    else if s == Number then
      !t.w.isDouble && t.w.pb != "" && FinishNumber(t.w.pb, t.env.strict) == (true, v)
    else s == Eatws && t.top.saved == Finish && t.top.current == v
  }

  function SettledBy(t: Tok, c: char, v: Json): Tok {
    var s := t.top.state;
    if s == NullWord || s == Boolean then Done(Put(t, [c]), v) else Done(t, v)
  }

  lemma {:induction false} SettleNull(t: Tok, c: char)
    requires t.w.stPos == 4 && t.w.pb == "null"
    ensures StepNull(t, c) == Redo(Done(Put(t, [c]), Null))
  {
  }

  lemma {:induction false} SettleBoolean(t: Tok, c: char, v: Json)
    requires t.top.state == Boolean && Settled(t, v)
    ensures StepBoolean(t, c) == Redo(Done(Put(t, [c]), v))
  {
    if t.w.stPos == 4 {
      assert Matches("true", "true" + [c], t.env.strict);
    } else {
      assert ("false" + [c])[0] == 'f';
      assert !Matches("true", "false" + [c], t.env.strict) by {
        assert Lower("true"[0]) != Lower(("false" + [c])[0]);
      }
      assert Matches("false", "false" + [c], t.env.strict);
    }
  }

  lemma {:induction false} SettleNumber(t: Tok, c: char, v: Json)
    requires t.top.state == Number && Settled(t, v) && Delim(c) && (c == NUL ==> t.base == [])
    ensures StepNumber(t, c) == Redo(Done(t, v))
  {
  }

  lemma {:induction false} WordDelim(t: Tok, c: char, v: Json)
    requires Clean(t) && Settled(t, v) && (t.top.state == NullWord || t.top.state == Boolean)
    ensures Step(t, c) == Redo(SettledBy(t, c, v))
  {
    if t.top.state == NullWord { SettleNull(t, c); } else { SettleBoolean(t, c, v); }
  }

  lemma {:induction false} NumberDelim(t: Tok, c: char, v: Json)
    requires Clean(t) && Settled(t, v) && t.top.state == Number
    requires Delim(c) && (c == NUL ==> t.base == [])
    ensures Step(t, c) == Redo(SettledBy(t, c, v))
  {
    SettleNumber(t, c, v);
  }

  /** Whatever kind of value it is, the delimiter sees it done. */
  lemma {:induction false} SettledDelim(t: Tok, c: char, v: Json)
    requires Clean(t) && Settled(t, v) && Delim(c) && (c == NUL ==> t.base == [])
    ensures Clean(SettledBy(t, c, v))
    ensures Char(t, c) == Char(SettledBy(t, c, v), c)
  {
    if t.top.state == Eatws {
      assert SettledBy(t, c, v) == t;
    } else {
      if t.top.state == Number { NumberDelim(t, c, v); } else { WordDelim(t, c, v); }
      RedoStep(t, c, SettledBy(t, c, v));
    }
  }

  /** A value at rest: Eatws, then Finish. */
  predicate AtRest(d: Tok, t: Tok, v: Json) {
    d.base == t.base && d.env == t.env && d.top.state == Eatws && d.top.saved == Finish
    && d.top.current == v
  }

  lemma {:induction false} SettleWs(t: Tok, v: Json, c: char) returns (d: Tok)
    requires Clean(t) && Settled(t, v) && IsWs(c)
    ensures Clean(d) && AtRest(d, t, v) && Char(t, c) == Next(d) && Calm(t, c)
  {
    SettledDelim(t, c, v);
    d := SettledBy(t, c, v);
    NextStep(d, c, d);
  }

  lemma {:induction false} FeedIntoWs(t: Tok, d: Tok, w: string, rest: string)
    requires Clean(t) && Clean(d) && AllWs(w) && w != "" && d.top.state == Eatws
    requires Char(t, w[0]) == Next(d) && Calm(t, w[0])
    ensures Feed(t, w + rest) == Feed(d, rest)
  {
    var s := w + rest;
    assert s[1..] == w[1..] + rest;
    assert Feed(t, s) == Feed(d, s[1..]);
    FeedWs(d, w[1..], rest);
  }

  /** White space after a value changes nothing. */
  lemma {:induction false} FeedSettled(t: Tok, v: Json, w: string, c: char, rest: string) returns (d: Tok)
    requires Clean(t) && Settled(t, v) && AllWs(w) && Delim(c) && c != NUL
    ensures Clean(d) && AtRest(d, t, v)
    ensures Feed(t, w + [c] + rest) == Feed(d, [c] + rest)
  {
    assert w + [c] + rest == w + ([c] + rest);
    if w == "" {
      SettledDelim(t, c, v);
      d := SettledBy(t, c, v);
      FeedSame(t, d, c, rest);
      assert w + ([c] + rest) == [c] + rest;
    } else {
      d := SettleWs(t, v, w[0]);
      FeedIntoWs(t, d, w, [c] + rest);
    }
  }

  lemma {:induction false} PopAtRest(d: Tok, c: char)
    requires Clean(d) && d.top.state == Eatws && d.top.saved == Finish && d.base != []
    requires !IsWs(c) && c != '/'
    ensures Waiting(d.base[|d.base| - 1]) && Clean(Pop(d))
    ensures Char(d, c) == Char(Pop(d), c)
  {
  }

  /** The closing or separating character after a child: the parent has added it. */
  lemma {:induction false} FeedAfterChild(t: Tok, v: Json, w: string, c: char, rest: string) returns (p: Tok)
    requires Clean(t) && Settled(t, v) && AllWs(w) && t.base != []
    requires c == ',' || c == ']' || c == '}'
    ensures Waiting(t.base[|t.base| - 1]) && Clean(p) && p.env == t.env
    ensures p.base == t.base[..|t.base| - 1]
    ensures p.top == AddChild(t.base[|t.base| - 1], v)
    ensures Feed(t, w + [c] + rest) == Feed(p, [c] + rest)
  {
    var d := FeedSettled(t, v, w, c, rest);
    PopAtRest(d, c);
    p := Pop(d);
    FeedSame(d, p, c, rest);
  }

  // ---- children -------------------------------------------------------------

  /** A first character of a printed value. */
  predicate Opens(c: char) {
    c == 'n' || c == 't' || c == 'f' || c == '"' || c == '[' || c == '{' || c == '-' || IsDigit(c)
  }

  predicate BeforeItem(t: Tok) {
    t.top.state == Eatws && (t.top.saved == Array || t.top.saved == ArrayAfterSep)
  }

  predicate BeforeFieldValue(t: Tok) { t.top.state == Eatws && t.top.saved == ObjValue }

  function ChildOf(t: Tok): Tok {
    Push(t, if t.top.saved == ObjValue then ObjValueAdd else ArrayAdd)
  }

  lemma {:induction false} PushChild(t: Tok, c: char)
    requires Clean(t) && (BeforeItem(t) || BeforeFieldValue(t)) && Opens(c)
    requires |t.base| + 1 < t.env.maxDepth
    ensures Clean(ChildOf(t)) && Char(t, c) == Char(ChildOf(t), c)
  {
    Resume(t, c);
    var u := To(t, t.top.saved);
    assert Step(u, c) == Redo(ChildOf(t)) by {
      assert u.top.(state := ArrayAdd) == t.top.(state := ArrayAdd);
      assert u.top.(state := ObjValueAdd) == t.top.(state := ObjValueAdd);
    }
    RedoStep(u, c, ChildOf(t));
  }

  /** White space and the first character of a child: the child has its own level. */
  lemma {:induction false} FeedChild(t: Tok, w: string, s: string)
    requires Clean(t) && (BeforeItem(t) || BeforeFieldValue(t)) && AllWs(w)
    requires s != "" && Opens(s[0]) && |t.base| + 1 < t.env.maxDepth
    ensures Clean(ChildOf(t)) && Feed(t, w + s) == Feed(ChildOf(t), s)
  {
    FeedWs(t, w, s);
    PushChild(t, s[0]);
    FeedSame(t, ChildOf(t), s[0], s[1..]);
    assert s == [s[0]] + s[1..];
  }
}
