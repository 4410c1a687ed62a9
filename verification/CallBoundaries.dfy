/** Where one call of json_tokener_parse_ex ends and the next begins, for every text: only a
    number can notice, because its flags are rebuilt from the saved characters and the
    length of its run starts again at 0.  The exact condition is `Shows`. */
module CallBoundaries {
  import opened Json
  import opened JsonPrint
  import opened Tokener
  import opened Parsing

  // ---- runs in two pieces --------------------------------------------------------------

  lemma {:induction false} RunSplit(t: Tok, a: string, b: string, c: char)
    requires Valid(t) && Run(t, a, c).err == Continue && c != NUL
    ensures var e := Run(t, a, c);
            e.c != NUL && Run(t, a + b, c) == Run(e.t, b, e.c)
    decreases |a|
  {
    if a == "" {
      assert a + b == b;
    } else {
      assert (a + b)[1..] == a[1..] + b;
      RunSplit(Char(t, a[0]).t, a[1..], b, a[0]);
    }
  }

  // ---- the text of a number --------------------------------------------------------------

  /** A sign may follow the last character, as the uninterrupted call has it. */
  predicate Signable(pb: string) {
    pb != "" && (pb[|pb| - 1] == '.' || pb[|pb| - 1] == 'e' || pb[|pb| - 1] == 'E')
  }

  /** The locals of a number under way are a function of its text, but for the length; and
      the flags rebuilt from a text with an exponent are right. */
  predicate NumberSane(w: Scratch) {
    && (w.num.Locals? ==>
          && w.pb != "" && w.num.l.caseLen >= 1 && w.num.l.isExponent == HasExponent(w.pb)
          && w.num.l.negOk == w.num.l.posOk == Signable(w.pb))
    && (HasExponent(w.pb) ==> w.isDouble && Regenerate(w.pb).negOk == Signable(w.pb))
  }

  predicate Sane(t: Tok) { t.top.state == Number ==> NumberSane(t.w) }

  lemma {:induction false} PutSane(w: Scratch, c: char)
    requires NumberSane(w) && IsNumberChar(c, LocalsOf(w), w.isDouble)
    ensures NumberSane(PutNumberChar(w, c, LocalsOf(w)))
  {
    var pb := w.pb + [c];
    assert pb[..|pb| - 1] == w.pb && pb[|pb| - 1] == c;
    assert HasExponent(pb) <==> HasExponent(w.pb) || c == 'e' || c == 'E';
  }

  lemma {:induction false} NumberStepSane(t: Tok, c: char)
    requires Valid(t) && Sane(t) && t.top.state == Number && !Step(t, c).Out?
    ensures Sane(Step(t, c).t)
  {
    if c != NUL && IsNumberChar(c, LocalsOf(t.w), t.w.isDouble) {
      PutSane(t.w, c);
    }
  }

  /** A number begins with an empty text. */
  lemma {:induction false} OtherStepSane(t: Tok, c: char)
    requires Valid(t) && t.top.state != Number && !Step(t, c).Out?
    ensures Sane(Step(t, c).t)
  {
  }

  lemma {:induction false} CharSane(t: Tok, c: char)
    requires Valid(t) && Sane(t) && Char(t, c).Next?
    ensures Sane(Char(t, c).t)
    decreases Rank(t.top)
  {
    StepKeeps(t, c);
    if t.top.state == Number { NumberStepSane(t, c); } else { OtherStepSane(t, c); }
    if Step(t, c).Redo? {
      CharSane(Step(t, c).t, c);
    }
  }

  lemma {:induction false} RunSane(t: Tok, s: string, c: char)
    requires Valid(t) && Sane(t) && Run(t, s, c).err == Continue
    ensures Sane(Run(t, s, c).t)
    decreases |s|
  {
    if s != "" {
      CharSane(t, s[0]);
      RunSane(Char(t, s[0]).t, s[1..], s[0]);
    }
  }

  // ---- one character -----------------------------------------------------------------------

  /** Equal but for the locals of a number. */
  predicate SameOutcome(a: Outcome, b: Outcome) {
    && (a.Redo? <==> b.Redo?) && (a.Next? <==> b.Next?)
    && (a.Out? ==> b.Out? && a.err == b.err)
    && BeginCall(a.t) == BeginCall(b.t)
  }

  predicate IsI(c: char) { c == 'i' || c == 'I' }

  predicate Negative(pb: string) { pb != "" && pb[0] == '-' }

  /** The character on which a call that starts here differs from one that goes on: a minus
      sign that only the rebuilt flags allow, a plus sign that only the lost ones do, and the
      first letter of -Infinity after more than the minus sign. */
  predicate ShowsAt(w: Scratch, c: char)
    requires w.num.Locals?
  {
    || (!HasExponent(w.pb) && c == '-' && !Signable(w.pb))
    || (!HasExponent(w.pb) && c == '+' && Signable(w.pb))
    || (Negative(w.pb) && IsI(c) && w.num.l.caseLen > 1)
  }

  /** Two sets of locals for the same text that a character treats alike. */
  predicate Alike(w: Scratch, l: NumLocals, m: NumLocals, c: char) {
    && (c != NUL ==> IsNumberChar(c, l, w.isDouble) == IsNumberChar(c, m, w.isDouble))
    && (Negative(w.pb) && IsI(c) ==> (l.caseLen <= 1 <==> m.caseLen <= 1))
  }

  lemma {:induction false} AlikeIff(w: Scratch, c: char)
    requires NumberSane(w) && w.num.Locals?
    ensures Alike(w, w.num.l, Regenerate(w.pb), c) <==> !ShowsAt(w, c)
  {
  }

  /** Steps of a number agree exactly when its locals are alike on the character. */
  lemma {:induction false} NumberStepAlike(t: Tok, u: Tok, c: char)
    requires t.top.state == Number && BeginCall(t) == BeginCall(u)
    ensures SameOutcome(StepNumber(t, c), StepNumber(u, c)) <==> Alike(t.w, LocalsOf(t.w), LocalsOf(u.w), c)
  {
    var l, m := LocalsOf(t.w), LocalsOf(u.w);
    var r := FinishNumber(t.w.pb, t.env.strict);
    assert t.w.pb == u.w.pb && t.w.isDouble == u.w.isDouble && t.base == u.base && t.env == u.env;
    if !(c != NUL && IsNumberChar(c, l, t.w.isDouble)) && !(c != NUL && IsNumberChar(c, m, t.w.isDouble)) {
      EndNumberAlike(t, u, c, l, m, r);
    }
  }

  lemma {:induction false} EndNumberAlike(t: Tok, u: Tok, c: char, l: NumLocals, m: NumLocals, r: (bool, Json))
    requires t.top.state == Number && BeginCall(t) == BeginCall(u)
    ensures SameOutcome(EndNumber(t, c, l, r), EndNumber(u, c, m, r)) <==>
            (Negative(t.w.pb) && IsI(c) ==> (l.caseLen <= 1 <==> m.caseLen <= 1))
  {
  }

  /** The number state at a call boundary, exactly: for every character the step of the call
      that goes on and of the call that starts here agree if and only if it is none of the
      three in `ShowsAt`. */
  lemma {:induction false} BoundaryStep(t: Tok, c: char)
    requires Valid(t) && Sane(t) && t.top.state == Number && t.w.num.Locals?
    ensures SameOutcome(Step(t, c), Step(BeginCall(t), c)) <==> !ShowsAt(t.w, c)
  {
    NumberStepAlike(t, BeginCall(t), c);
    AlikeIff(t.w, c);
  }

  // ---- the rest of a text ------------------------------------------------------------------

  predicate ShowsAfter(t: Tok, c: char, d: char) { Takes(t, c) && Negative(t.w.pb) && IsI(d) }

  /** The texts before which a cut shows: it falls directly before a character of `ShowsAt`, or
      one number character before the first letter of -Infinity, whose test counts the
      characters of the present call. */
  predicate Shows(t: Tok, s: string) {
    && t.top.state == Number && t.w.num.Locals? && s != ""
    && (ShowsAt(t.w, s[0]) || (|s| > 1 && ShowsAfter(t, s[0], s[1])))
  }

  /** Two ends of a call that differ in the locals of a number at most. */
  predicate SameEnd(e: CallEnd, d: CallEnd) {
    e.err == d.err && (e.c == NUL <==> d.c == NUL) && BeginCall(e.t) == BeginCall(d.t)
  }

  lemma {:induction false} CharAlike(t: Tok, u: Tok, c: char)
    requires Valid(t) && Valid(u) && BeginCall(t) == BeginCall(u)
    requires t.top.state == Number ==> Alike(t.w, LocalsOf(t.w), LocalsOf(u.w), c)
    ensures SameOutcome(Char(t, c), Char(u, c))
  {
    if t.top.state == Number {
      NumberStepAlike(t, u, c);
      StepKeeps(t, c);
      StepKeeps(u, c);
      NumberRedo(t, c);
      NumberRedo(u, c);
    } else {
      assert t == u;
    }
  }

  /** A number that is over has no locals. */
  lemma {:induction false} NumberRedo(t: Tok, c: char)
    requires Valid(t) && t.top.state == Number
    ensures Step(t, c).Redo? ==> Step(t, c).t == BeginCall(Step(t, c).t)
  {
  }

  /** Same text, same flags, and runs so long that -Infinity is out of question. */
  predicate Close(t: Tok, u: Tok) {
    && BeginCall(t) == BeginCall(u)
    && (t.top.state == Number ==>
          var l, m := LocalsOf(t.w), LocalsOf(u.w);
          && l.isExponent == m.isExponent && l.negOk == m.negOk && l.posOk == m.posOk
          && l.caseLen > 1 && m.caseLen > 1)
  }

  predicate Takes(t: Tok, c: char) {
    t.top.state == Number && c != NUL && IsNumberChar(c, LocalsOf(t.w), t.w.isDouble)
  }

  lemma {:induction false} TakesNext(t: Tok, c: char)
    requires Valid(t) && Takes(t, c)
    ensures Char(t, c) == Next(t.(w := PutNumberChar(t.w, c, LocalsOf(t.w))))
  {
    StepKeeps(t, c);
  }

  /** A character that ends the number leaves the two states equal. */
  lemma {:induction false} EndsSame(t: Tok, u: Tok, c: char)
    requires Valid(t) && Valid(u) && BeginCall(t) == BeginCall(u) && !Takes(t, c) && !Takes(u, c)
    requires SameOutcome(Char(t, c), Char(u, c)) && Char(t, c).Next?
    ensures Char(t, c) == Char(u, c)
  {
    if t.top.state == Number {
      StepKeeps(t, c);
      StepKeeps(u, c);
      NumberRedo(t, c);
      NumberRedo(u, c);
    } else {
      assert t == u;
    }
  }

  lemma {:induction false} RunClose(t: Tok, u: Tok, s: string, c: char)
    requires Valid(t) && Valid(u) && Close(t, u)
    ensures SameEnd(Run(t, s, c), Run(u, s, c)) == true
    decreases |s|
  {
    if t.top.state != Number {
      assert t == u;
    } else if s != "" {
      CharAlike(t, u, s[0]);
      if Takes(t, s[0]) {
        TakesNext(t, s[0]);
        TakesNext(u, s[0]);
        RunClose(Char(t, s[0]).t, Char(u, s[0]).t, s[1..], s[0]);
      } else if Char(t, s[0]).Next? {
        EndsSame(t, u, s[0]);
      }
    }
  }

  /** One character after the cut: the flags agree again, the lengths do not. */
  predicate Nearly(t: Tok, u: Tok) {
    && BeginCall(t) == BeginCall(u) && t.top.state == Number
    && var l, m := LocalsOf(t.w), LocalsOf(u.w);
       && l.isExponent == m.isExponent && l.negOk == m.negOk && l.posOk == m.posOk
       && l.caseLen > 1 && m.caseLen == 1
  }

  lemma {:induction false} RunNearly(t: Tok, u: Tok, s: string, c: char)
    requires Valid(t) && Valid(u) && Nearly(t, u)
    requires s != "" && Negative(t.w.pb) ==> !IsI(s[0])
    ensures SameEnd(Run(t, s, c), Run(u, s, c)) == true
  {
    if s != "" {
      CharAlike(t, u, s[0]);
      if Takes(t, s[0]) {
        TakesNext(t, s[0]);
        TakesNext(u, s[0]);
        RunClose(Char(t, s[0]).t, Char(u, s[0]).t, s[1..], s[0]);
      } else if Char(t, s[0]).Next? {
        EndsSame(t, u, s[0]);
      }
    }
  }

  /** What the first character makes of a number and of its rebuilt twin. */
  lemma {:induction false} CutTakes(t: Tok, c: char)
    requires Valid(t) && Sane(t) && t.top.state == Number && t.w.num.Locals? && !ShowsAt(t.w, c)
    ensures Takes(t, c) == Takes(BeginCall(t), c)
    ensures Takes(t, c) ==>
              && Char(t, c).Next? && Char(BeginCall(t), c).Next?
              && Nearly(Char(t, c).t, Char(BeginCall(t), c).t)
              && Negative(Char(t, c).t.w.pb) == Negative(t.w.pb)
  {
    var u := BeginCall(t);
    AlikeIff(t.w, c);
    if Takes(t, c) {
      TakesNext(t, c);
      TakesNext(u, c);
    }
  }

  lemma {:induction false} RunCut(t: Tok, s: string, c: char)
    requires Valid(t) && Sane(t) && !Shows(t, s)
    ensures SameEnd(Run(t, s, c), Run(BeginCall(t), s, c)) == true
  {
    var u := BeginCall(t);
    if t.top.state != Number || t.w.num.NoLocals? {
      assert t == u;
    } else if s != "" {
      AlikeIff(t.w, s[0]);
      CharAlike(t, u, s[0]);
      CutTakes(t, s[0]);
      if Takes(t, s[0]) {
        RunNearly(Char(t, s[0]).t, Char(u, s[0]).t, s[1..], s[0]);
      } else if Char(t, s[0]).Next? {
        EndsSame(t, u, s[0]);
      }
    }
  }

  // ---- calls ---------------------------------------------------------------------------------

  /** Two results that differ in the locals of a number at most. */
  predicate SameResult(r: ParseResult, q: ParseResult) {
    r.err == q.err && r.value == q.value && BeginCall(r.t) == BeginCall(q.t)
  }

  function Ended(e: CallEnd): ParseResult {
    if AtOut(e) == Success then ParseResult(Success, e.t.top.current, ResetLevels(e.t))
    else ParseResult(AtOut(e), Null, e.t)
  }

  lemma {:induction false} EndedSame(e: CallEnd, d: CallEnd)
    requires SameEnd(e, d)
    ensures SameResult(Ended(e), Ended(d))
  {
  }

  /** Without the initial character mattering. */
  lemma {:induction false} RunStart(t: Tok, s: string, c: char, d: char)
    requires Valid(t) && c != NUL && d != NUL
    ensures SameEnd(Run(t, s, c), Run(t, s, d))
  {
  }

  /** A call that asked for more, and the call on the whole: one run. */
  lemma {:induction false} CallSplit(t: Tok, a: string, b: string)
    requires Valid(t) && ParseEx(t, a).err == Continue
    ensures var x := ParseEx(t, a).t;
            Valid(x) && SameResult(ParseEx(t, a + b), Ended(Run(x, b, '\U{01}')))
  {
    var s := BeginCall(t);
    var e := Run(s, a, '\U{01}');
    RunSplit(s, a, b, '\U{01}');
    RunStart(e.t, b, e.c, '\U{01}');
    EndedSame(Run(e.t, b, e.c), Run(e.t, b, '\U{01}'));
  }

  /** A cut that does not show changes nothing. */
  lemma {:induction false} QuietCut(t: Tok, a: string, b: string)
    requires Valid(t) && Sane(t) && ParseEx(t, a).err == Continue && !Shows(ParseEx(t, a).t, b)
    ensures Sane(ParseEx(t, a).t)
    ensures SameResult(ParseEx(t, a + b), ParseEx(ParseEx(t, a).t, b))
  {
    var x := ParseEx(t, a).t;
    CallSplit(t, a, b);
    RunSane(BeginCall(t), a, '\U{01}');
    RunCut(x, b, '\U{01}');
    EndedSame(Run(x, b, '\U{01}'), Run(BeginCall(x), b, '\U{01}'));
  }

  // ---- the converse --------------------------------------------------------------------------

  /** A sign that a number does not take ends the call. */
  lemma {:induction false} SignEnds(t: Tok, c: char)
    requires Valid(t) && t.top.state == Number && !Takes(t, c) && (c == '-' || c == '+')
    ensures Char(t, c).Out?
  {
    StepKeeps(t, c);
    NumberRedo(t, c);
    if Step(t, c).Redo? {
      RestEnds(Step(t, c).t, c);
    }
  }

  /** So does every character after a finished document, but white space and comments. */
  lemma {:induction false} RestEnds(t: Tok, c: char)
    requires Valid(t) && Complete(t) && !IsWs(c) && c != '/'
    ensures Char(t, c) == Out(Success, To(t, Finish))
  {
    StepKeeps(t, c);
    assert Step(t, c) == Redo(To(t, Finish));
    StepKeeps(To(t, Finish), c);
  }

  lemma {:induction false} SignShows(t: Tok, c: char)
    requires Valid(t) && t.top.state == Number && (c == '-' || c == '+') && Takes(t, c) != Takes(BeginCall(t), c)
    ensures !SameResult(Ended(Run(t, [c], '\U{01}')), Ended(Run(BeginCall(t), [c], '\U{01}')))
  {
    var y, n := if Takes(t, c) then t else BeginCall(t), if Takes(t, c) then BeginCall(t) else t;
    TakesNext(y, c);
    SignEnds(n, c);
    assert [c][1..] == "";
    assert Ended(Run(y, [c], '\U{01}')).err == Continue;
  }

  /** The first letter of -Infinity goes to the Infinity state in a short run only. */
  lemma {:induction false} ShortRun(t: Tok, c: char)
    requires Valid(t) && t.top.state == Number && Negative(t.w.pb) && IsI(c)
    ensures Char(t, c).Out?
    ensures LocalsOf(t.w).caseLen <= 1 ==> Char(t, c).err == ForeignDouble && Char(t, c).t.top.state == Inf
    ensures LocalsOf(t.w).caseLen > 1 ==> Char(t, c).err != ForeignDouble || Char(t, c).t.top.state != Inf
  {
    StepKeeps(t, c);
    NumberRedo(t, c);
    var o := Step(t, c);
    if o.Redo? {
      if LocalsOf(t.w).caseLen <= 1 {
        StepKeeps(o.t, c);
      } else {
        AfterNumber(o.t, c);
      }
    }
  }

  lemma {:induction false} RedoChar(t: Tok, c: char, u: Tok)
    requires Valid(t) && Step(t, c) == Redo(u)
    ensures Valid(u) && Char(t, c) == Char(u, c)
  {
    StepKeeps(t, c);
  }

  lemma {:induction false} SepEnds(t: Tok, c: char)
    requires Valid(t) && (t.top.state == ArraySep || t.top.state == ObjSep) && IsI(c)
    ensures Char(t, c).Out? && Char(t, c).err != ForeignDouble
  {
  }

  lemma {:induction false} AfterNumber(t: Tok, c: char)
    requires Valid(t) && t.top.state == Eatws && t.top.saved == Finish && IsI(c)
    ensures Char(t, c).Out? && Char(t, c).err != ForeignDouble
  {
    if t.base == [] {
      RestEnds(t, c);
    } else {
      var p := Pop(To(t, Finish));
      RedoChar(t, c, To(t, Finish));
      RedoChar(To(t, Finish), c, p);
      RedoChar(p, c, To(p, p.top.saved));
      SepEnds(To(p, p.top.saved), c);
    }
  }

  lemma {:induction false} LetterShows(t: Tok, u: Tok, c: char)
    requires Valid(t) && Valid(u) && t.top.state == Number && Negative(t.w.pb) && IsI(c)
    requires BeginCall(t) == BeginCall(u) && LocalsOf(t.w).caseLen > 1 && LocalsOf(u.w).caseLen <= 1
    ensures !SameResult(Ended(Run(t, [c], '\U{01}')), Ended(Run(u, [c], '\U{01}')))
  {
    ShortRun(t, c);
    ShortRun(u, c);
  }

  /** A cut that shows does so after one character or two. */
  lemma {:induction false} ShowsSoon(t: Tok, s: string) returns (n: nat)
    requires Valid(t) && Sane(t) && Shows(t, s)
    ensures n <= |s|
    ensures !SameResult(Ended(Run(t, s[..n], '\U{01}')), Ended(Run(BeginCall(t), s[..n], '\U{01}')))
  {
    var u := BeginCall(t);
    AlikeIff(t.w, s[0]);
    if ShowsAt(t.w, s[0]) {
      n := 1;
      assert s[..1] == [s[0]];
      if IsI(s[0]) { LetterShows(t, u, s[0]); } else { SignShows(t, s[0]); }
    } else {
      n := 2;
      CutTakes(t, s[0]);
      var p, t1, u1 := s[..2], Char(t, s[0]).t, Char(u, s[0]).t;
      assert p[0] == s[0] && p[1..] == [s[1]];
      LetterShows(t1, u1, s[1]);
      LateRun(t, s[0], s[1]);
      LateRun(u, s[0], s[1]);
    }
  }

  lemma {:induction false} LateRun(t: Tok, c: char, d: char)
    requires Valid(t) && Char(t, c).Next? && c != NUL
    ensures SameResult(Ended(Run(t, [c, d], '\U{01}')), Ended(Run(Char(t, c).t, [d], '\U{01}')))
  {
    assert [c, d][1..] == [d];
    RunStart(Char(t, c).t, [d], c, '\U{01}');
    EndedSame(Run(Char(t, c).t, [d], c), Run(Char(t, c).t, [d], '\U{01}'));
  }

  /** The exact condition, for every tokener, text and cut: the call on the rest returns what
      one call on the whole would, on the whole rest and on every beginning of it, if and only
      if the cut does not fall before one of the texts of `Shows`. */
  lemma {:induction false} CutShowsIff(t: Tok, a: string, b: string)
    requires Valid(t) && Sane(t) && ParseEx(t, a).err == Continue
    ensures !Shows(ParseEx(t, a).t, b) <==>
            forall n :: 0 <= n <= |b| ==>
              SameResult(ParseEx(t, a + b[..n]), ParseEx(ParseEx(t, a).t, b[..n]))
  {
    var x := ParseEx(t, a).t;
    RunSane(BeginCall(t), a, '\U{01}');
    if Shows(x, b) {
      var n := ShowsSoon(x, b);
      CallSplit(t, a, b[..n]);
      assert !SameResult(ParseEx(t, a + b[..n]), ParseEx(x, b[..n]));
    } else {
      forall n | 0 <= n <= |b| ensures SameResult(ParseEx(t, a + b[..n]), ParseEx(x, b[..n])) {
        QuietCut(t, a, b[..n]);
      }
    }
  }

  // ---- any number of chunks ----------------------------------------------------------------------

  /** No cut of the chunks shows. */
  predicate Quiet(t: Tok, chunks: seq<string>)
    requires Valid(t)
    decreases |chunks|
  {
    |chunks| <= 1 ||
    var r := ParseEx(t, chunks[0]);
    r.err == Continue ==> !Shows(r.t, Concat(chunks[1..])) && Quiet(r.t, chunks[1..])
  }

  lemma {:induction false} ConcatTake(chunks: seq<string>, n: nat)
    requires n <= |chunks|
    ensures Concat(chunks[..n]) <= Concat(chunks)
    decreases n
  {
    if n > 0 {
      ConcatTake(chunks[1..], n - 1);
      assert chunks[..n][1..] == chunks[1..][..n - 1];
    }
  }

  lemma {:induction false} ShowsPrefix(t: Tok, a: string, b: string)
    requires a <= b && !Shows(t, b)
    ensures !Shows(t, a)
  {
  }

  /** However a text is cut, as long as no cut shows, the call that ends the parse returns
      what one call on all the text given so far would. */
  lemma {:induction false} QuietChunks(t: Tok, chunks: seq<string>)
    requires Valid(t) && Sane(t) && chunks != [] && Quiet(t, chunks)
    ensures var q := ParseChunks(t, chunks);
            q.last < |chunks| && SameResult(q.r, ParseEx(t, Concat(chunks[..q.last + 1]))) == true
    decreases |chunks|
  {
    var r := ParseEx(t, chunks[0]);
    if r.err == Continue && |chunks| > 1 {
      RunSane(BeginCall(t), chunks[0], '\U{01}');
      QuietChunks(r.t, chunks[1..]);
      var q := ParseChunks(r.t, chunks[1..]);
      QuietFirst(t, chunks, q.last + 1);
      SameTrans(q.r, ParseEx(r.t, Concat(chunks[1..][..q.last + 1])), ParseEx(t, Concat(chunks[..q.last + 2])));
      assert ParseChunks(t, chunks) == q.(last := q.last + 1);
    } else {
      assert Concat(chunks[..1]) == chunks[0] by {
        assert chunks[..1] == [chunks[0]] && [chunks[0]][1..] == [];
      }
      assert ParseChunks(t, chunks) == Chunked(0, r);
    }
  }

  lemma {:induction false} SameTrans(a: ParseResult, b: ParseResult, c: ParseResult)
    requires SameResult(a, b) && SameResult(c, b)
    ensures SameResult(a, c) == true
  {
  }

  /** Joining the first chunk to the n after it. */
  lemma {:induction false} QuietFirst(t: Tok, chunks: seq<string>, n: nat)
    requires Valid(t) && Sane(t) && |chunks| > n && ParseEx(t, chunks[0]).err == Continue
    requires !Shows(ParseEx(t, chunks[0]).t, Concat(chunks[1..]))
    ensures SameResult(ParseEx(t, Concat(chunks[..n + 1])),
                       ParseEx(ParseEx(t, chunks[0]).t, Concat(chunks[1..][..n]))) == true
  {
    var rest := chunks[1..];
    assert chunks[..n + 1][1..] == rest[..n];
    ConcatTake(rest, n);
    ShowsPrefix(ParseEx(t, chunks[0]).t, Concat(rest[..n]), Concat(rest));
    QuietCut(t, chunks[0], Concat(rest[..n]));
  }

  // ---- inputs on which cuts show -----------------------------------------------------------------

  /** A number after its first character. */
  function Begun(t: Tok, c: char): Tok {
    var n := StartNumber(t);
    n.(w := PutNumberChar(n.w, c, NumLocals(false, true, false, 0)))
  }

  lemma {:induction false} Begins(t: Tok, c: char)
    requires Valid(t) && t.top == FRESH && (IsDigit(c) || c == '-')
    ensures Valid(Begun(t, c)) && Char(t, c) == Next(Begun(t, c))
  {
    RedoChar(t, c, To(t, Start));
    RedoChar(To(t, Start), c, StartNumber(t));
    TakesNext(StartNumber(t), c);
  }

  /** The call that got the first character of a number. */
  lemma {:induction false} BeginsCall(t: Tok, c: char, rest: string)
    requires Valid(t) && t.top == FRESH && BeginCall(t) == t && (IsDigit(c) || c == '-')
    ensures Valid(Begun(t, c)) && ParseEx(t, [c]) == ParseResult(Continue, Null, Begun(t, c))
    ensures SameResult(ParseEx(t, [c] + rest), Ended(Run(Begun(t, c), rest, '\U{01}')))
  {
    Begins(t, c);
    assert [c][1..] == "" && [c][0] == c;
    assert Run(t, [c], '\U{01}') == Run(Begun(t, c), "", c);
    CallSplit(t, [c], rest);
  }

  lemma {:induction false} MinusWhole(t: Tok)
    requires Valid(t) && t.base == [] && t.top == FRESH && BeginCall(t) == t && !t.env.strict
    ensures ParseEx(t, "1-").err == Success
  {
    BeginsCall(t, '1', "-");
    assert "1-" == ['1'] + "-" && "-" == ['-'] + "";
    assert FinishNumber("1", false).0 by { assert DigitPrefix("1") != ""; }
    OverAt(Begun(t, '1'), "1", '-');
  }

  /** "1-" is a document with a character after it; cut before the sign the number goes on. */
  lemma {:induction false} MinusAfterCut(t: Tok)
    requires Valid(t) && t.base == [] && t.top == FRESH && BeginCall(t) == t && !t.env.strict
    ensures ParseEx(t, "1").err == Continue && ParseEx(t, "1-").err == Success
    ensures ParseEx(ParseEx(t, "1").t, "-").err == Continue
  {
    MinusWhole(t);
    BeginsCall(t, '1', "");
    GoesOn(BeginCall(Begun(t, '1')), '-');
    assert "1" == ['1'] && "-" == ['-'];
  }

  lemma {:induction false} OverAt(t: Tok, pb: string, c: char)
    requires Valid(t) && t.base == [] && t.top.state == Number && t.w.pb == pb && !t.w.isDouble && !t.env.strict
    requires !Takes(t, c) && (IsI(c) && Negative(pb) ==> LocalsOf(t.w).caseLen > 1)
    requires !IsWs(c) && c != '/' && c != NUL && FinishNumber(pb, t.env.strict).0
    ensures Ended(Run(t, [c], '\U{01}')).err == Success
  {
    OverBefore(t, pb, c);
  }

  lemma {:induction false} GoesOn(t: Tok, c: char)
    requires Valid(t) && BeginCall(t) == t && Takes(t, c)
    ensures ParseEx(t, [c]) == ParseResult(Continue, Null, Taken(t, c))
  {
    TakesRun(t, c, "", '\U{01}');
    assert [c] == [c] + "";
  }

  /** A number at depth 0 is over at a character it does not take, and so is the call. */
  lemma {:induction false} OverBefore(t: Tok, pb: string, c: char)
    requires Valid(t) && t.base == [] && t.top.state == Number && t.w.pb == pb && !t.w.isDouble
    requires !Takes(t, c) && (IsI(c) && Negative(pb) ==> LocalsOf(t.w).caseLen > 1) && !IsWs(c) && c != '/'
    requires FinishNumber(pb, t.env.strict).0
    ensures Char(t, c).Out? && Char(t, c).err == Success && Char(t, c).t.top.state == Finish
  {
    var d := Done(t, FinishNumber(pb, t.env.strict).1);
    RedoChar(t, c, d);
    RestEnds(d, c);
  }

  function Taken(t: Tok, c: char): Tok { t.(w := PutNumberChar(t.w, c, LocalsOf(t.w))) }

  lemma {:induction false} TakesRun(t: Tok, c: char, rest: string, x: char)
    requires Valid(t) && Takes(t, c)
    ensures Valid(Taken(t, c)) && Run(t, [c] + rest, x) == Run(Taken(t, c), rest, c)
  {
    TakesNext(t, c);
    assert ([c] + rest)[1..] == rest;
  }

  /** Any call that starts inside a negative number, or one character before, and gets the
      letter expects the rest of -Infinity. */
  lemma {:induction false} LetterCut(t: Tok)
    requires Valid(t) && BeginCall(t) == t && t.top.state == Number && Negative(t.w.pb)
    ensures ParseEx(t, "i").err == ForeignDouble && ParseEx(t, "1i").err == ForeignDouble
  {
    assert "1i" == ['1'] + "i" && "i" == ['i'];
    TakesRun(t, '1', "i", '\U{01}');
    ShortRun(t, 'i');
    ShortRun(Taken(t, '1'), 'i');
  }

  lemma {:induction false} LetterWhole(t: Tok)
    requires Valid(t) && t.base == [] && t.top == FRESH && BeginCall(t) == t && !t.env.strict
    ensures ParseEx(t, "-1i").err == Success
  {
    var n := Begun(t, '-');
    BeginsCall(t, '-', "1i");
    assert "-1i" == ['-'] + "1i" && "1i" == ['1'] + "i" && "i" == ['i'];
    TakesRun(n, '1', "i", '\U{01}');
    assert FinishNumber("-1", false).0 by { assert "-1"[1..] == "1" && DigitPrefix("1") != ""; }
    assert Taken(n, '1').w.pb == "-1";
    OverAt(Taken(n, '1'), "-1", 'i');
  }

  /** "-1i" is the document -1 with a character after it; cut before the letter, or before the
      digit, the tokener expects the rest of -Infinity. */
  lemma {:induction false} LetterAfterCut(t: Tok)
    requires Valid(t) && t.base == [] && t.top == FRESH && BeginCall(t) == t && !t.env.strict
    ensures ParseEx(t, "-1i").err == Success
    ensures ParseEx(t, "-").err == Continue && ParseEx(ParseEx(t, "-").t, "1i").err == ForeignDouble
    ensures ParseEx(t, "-1").err == Continue && ParseEx(ParseEx(t, "-1").t, "i").err == ForeignDouble
  {
    var n := Begun(t, '-');
    LetterWhole(t);
    BeginsCall(t, '-', "1");
    LetterCut(BeginCall(n));
    assert "-" == ['-'] && "-1" == ['-'] + "1" && "1" == ['1'] + "";
    TakesRun(n, '1', "", '\U{01}');
    LetterCut(BeginCall(ParseEx(t, "-1").t));
  }

  lemma {:induction false} GoesOnTwice(t: Tok, c: char, d: char)
    requires Valid(t) && BeginCall(t) == t && Takes(t, c) && Takes(Taken(t, c), d)
    ensures ParseEx(t, [c, d]).err == Continue
  {
    TakesRun(t, c, [d], '\U{01}');
    TakesRun(Taken(t, c), d, "", c);
    assert [c, d] == [c] + [d] && [d] == [d] + "";
  }

  lemma {:induction false} PlusEnds(t: Tok)
    requires Valid(t) && t.base == [] && t.top.state == Number && BeginCall(t) == t
    requires t.w.isDouble && !HasExponent(t.w.pb)
    ensures ParseEx(t, "+").err == ForeignDouble
  {
    StepKeeps(t, '+');
    assert Step(t, '+') == Out(ForeignDouble, t);
  }

  lemma {:induction false} PlusAfterPoint(t: Tok)
    requires Valid(t) && t.base == [] && t.top.state == Number && t.w.pb == "1" && !t.w.isDouble
    requires BeginCall(t) == t
    ensures ParseEx(t, ".") == ParseResult(Continue, Null, Taken(t, '.')) && ParseEx(t, ".+").err == Continue
  {
    assert "." == ['.'] && ".+" == ['.', '+'];
    GoesOn(t, '.');
    GoesOnTwice(t, '.', '+');
  }

  /** After the call on "1" the text ".+" goes on with the number; cut before the sign the
      number is over. */
  lemma {:induction false} PlusAfterCut(t: Tok)
    requires Valid(t) && t.base == [] && t.top == FRESH && BeginCall(t) == t
    ensures ParseEx(t, "1").err == Continue
    ensures ParseEx(ParseEx(t, "1").t, ".").err == Continue && ParseEx(ParseEx(t, "1").t, ".+").err == Continue
    ensures ParseEx(ParseEx(ParseEx(t, "1").t, ".").t, "+").err == ForeignDouble
  {
    BeginsCall(t, '1', "");
    var n := BeginCall(Begun(t, '1'));
    PlusAfterPoint(n);
    PlusEnds(BeginCall(Taken(n, '.')));
  }
}
