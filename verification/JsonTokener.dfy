/** The loop of json_tokener_parse_ex as it is written: fields changed in place, tight
    inner loops that take a whole run of characters, and bulk appends to the printbuf.
    Every call is proved to do what `Tokener.ParseEx` does one character at a time. */
module TokenerClass {
  import opened Json
  import opened JsonPrint
  import opened Tokener

  // ---- positions in the input of one call --------------------------------------------

  /** The last character looked at before position i. */
  function Prev(str: string, i: nat): char
    requires i <= |str|
  {
    if i == 0 then '\U{01}' else str[i - 1]
  }

  /** How the call ends from position i on. */
  ghost function Rest(t: Tok, str: string, i: nat): CallEnd
    requires Valid(t) && i <= |str|
  {
    Run(t, str[i..], Prev(str, i))
  }

  datatype Flow = Go | Stop(c: char)

  /** What one pass of the switch achieved: it moved on to t1 at position j, or it left
      the loop with `err` in t1 after looking at f.c.  (Contracts compare it with `true` so
      that the verifier takes it as one fact.) */
  ghost predicate Went(t0: Tok, str: string, i: nat, j: nat, f: Flow, err: Error, t1: Tok)
    requires Valid(t0) && i <= |str|
  {
    && i <= j <= |str|
    && t1.env == t0.env
    && (if f.Go? then
          Valid(t1) && Rest(t0, str, i) == Rest(t1, str, j) && err == Success
          && (j > i || Rank(t1.top) < Rank(t0.top))
        else Rest(t0, str, i) == CallEnd(err, t1, f.c))
  }

  lemma {:induction false} PassRedo(t: Tok, str: string, i: nat, t': Tok)
    requires Valid(t) && i < |str| && Step(t, str[i]) == Redo(t')
    ensures Went(t, str, i, i, Go, Success, t') == true
  {
    StepKeeps(t, str[i]);
    assert str[i..][0] == str[i];
  }

  lemma {:induction false} PassNext(t: Tok, str: string, i: nat, t': Tok)
    requires Valid(t) && i < |str| && Step(t, str[i]) == Next(t')
    ensures str[i] != NUL ==> Went(t, str, i, i + 1, Go, Success, t') == true
    ensures str[i] == NUL ==> Went(t, str, i, i + 1, Stop(NUL), Success, t') == true
  {
    StepKeeps(t, str[i]);
    assert str[i..][0] == str[i] && str[i..][1..] == str[i + 1..];
  }

  lemma {:induction false} PassOut(t: Tok, str: string, i: nat, err: Error, t': Tok)
    requires Valid(t) && i < |str| && Step(t, str[i]) == Out(err, t')
    ensures Went(t, str, i, i, Stop(str[i]), err, t') == true
  {
    StepKeeps(t, str[i]);
    assert str[i..][0] == str[i];
  }

  /** After a run of characters that only move on. */
  lemma {:induction false} PassThen(t: Tok, u: Tok, str: string, i: nat, k: nat, j: nat, f: Flow, err: Error, t': Tok)
    requires Valid(t) && Valid(u) && i <= k <= |str| && u.env == t.env
    requires Rest(t, str, i) == Rest(u, str, k) && (k > i || u.top == t.top)
    requires Went(u, str, k, j, f, err, t')
    ensures Went(t, str, i, j, f, err, t') == true
  {
  }

  class JsonTokener {
    const env: Env
    var stack: seq<Level>
    var depth: nat
    var pb: string
    var stPos: nat
    var ucs: nat
    var high: nat
    var quote: char
    var isDouble: bool
    var err: Error
    ghost var num: MaybeLocals

    ghost predicate Shape()
      reads this
    {
      depth < |stack| == env.maxDepth
    }

    ghost function W(): Scratch
      reads this
    {
      Scratch(pb, stPos, ucs, high, quote, isDouble, num)
    }

    ghost function State(): Tok
      reads this
      requires Shape()
    {
      Tok(stack[..depth], stack[depth], W(), env)
    }

    ghost predicate Valid()
      reads this
    {
      Shape() && Tokener.Valid(State())
    }

    /** json_tokener_new_ex */
    constructor (env: Env)
      requires env.maxDepth >= 1
      ensures Shape() && State() == Init(env) && Valid() && this.env == env
    {
      this.env := env;
      stack := seq(env.maxDepth, _ => FRESH);
      depth := 0;
      pb, stPos, ucs, high, quote, isDouble := "", 0, 0, 0, NUL, false;
      err := Success;
      num := NoLocals;
    }

    method SetTop(l: Level)
      requires Shape()
      modifies this`stack
      ensures Shape() && State() == old(State()).(top := l)
    {
      stack := stack[depth := l];
      assert stack[..depth] == old(stack)[..depth];
    }

    method SetState(s: State)
      requires Shape()
      modifies this`stack
      ensures Shape() && State() == To(old(State()), s)
    {
      SetTop(stack[depth].(state := s));
    }

    /** tok->depth++ and json_tokener_reset_level, after setting the parent's state */
    method PushLevel(s: State)
      requires Shape() && depth + 1 < env.maxDepth
      modifies this`stack, this`depth
      ensures Shape() && State() == Push(old(State()), s)
    {
      SetState(s);
      depth := depth + 1;
      SetTop(FRESH);
      assert stack[..depth] == old(stack[..depth]) + [old(stack[depth]).(state := s)];
    }

    /** The value of a finished level handed to its parent: finish, then array_add or
        object_value_add. */
    method PopLevel()
      requires Shape() && depth > 0 && Waiting(stack[depth - 1])
      modifies this`stack, this`depth
      ensures Shape() && State() == Pop(old(State()))
    {
      var obj := stack[depth].current;
      SetTop(FRESH);
      depth := depth - 1;
      SetTop(AddChild(stack[depth], obj));
      assert old(stack[..depth])[..depth] == stack[..depth];
    }

    // ---- the cases of the switch -----------------------------------------------------

    method DoEatws(str: string, i: nat) returns (j: nat, f: Flow)
      requires Valid() && err == Success && i < |str| && stack[depth].state == Eatws
      modifies this
      ensures Shape() && num == old(num)
      ensures Went(old(State()), str, i, j, f, err, State()) == true
    {
      ghost var t := State();
      j := i;
      while j < |str| && IsWs(str[j])
        modifies {}
        invariant i <= j <= |str| && Rest(t, str, i) == Rest(t, str, j)
      {
        PassNext(t, str, j, t);
        j := j + 1;
      }
      f := Go;
      if j < |str| {
        var c := str[j];
        ghost var k := j;
        if c == '/' && !env.strict {
          pb := [c];
          SetState(CommentStart);
          PassNext(t, str, k, State());
          j := j + 1;
        } else {
          SetState(stack[depth].saved);
          PassRedo(t, str, k, State());
        }
        PassThen(t, t, str, i, k, j, f, err, State());
      }
    }

    method DoStart(str: string, i: nat) returns (j: nat, f: Flow)
      requires Valid() && err == Success && i < |str| && stack[depth].state == Start
      modifies this
      ensures Shape() && num == old(num)
      ensures Went(old(State()), str, i, j, f, err, State()) == true
    {
      var c := str[i];
      if c == '{' || c == '[' {
        j, f := DoOpen(str, i);
      } else if c == '"' || (c == '\'' && !env.strict) {
        ghost var t := State();
        SetState(InString);
        pb, quote := "", c;
        PassNext(t, str, i, State());
        j, f := i + 1, Go;
      } else {
        j, f := DoStartWord(str, i);
      }
    }

    method DoOpen(str: string, i: nat) returns (j: nat, f: Flow)
      requires Valid() && err == Success && i < |str| && stack[depth].state == Start
      requires str[i] == '{' || str[i] == '['
      modifies this
      ensures Shape() && num == old(num)
      ensures Went(old(State()), str, i, j, f, err, State()) == true
    {
      ghost var t := State();
      var top := stack[depth];
      if str[i] == '{' {
        SetTop(top.(state := Eatws, saved := FieldStart, current := Obj([])));
      } else {
        SetTop(top.(state := Eatws, saved := Array, current := Arr([])));
      }
      PassNext(t, str, i, State());
      return i + 1, Go;
    }

    /** The cases of the start state that look at the same character again. */
    method DoStartWord(str: string, i: nat) returns (j: nat, f: Flow)
      requires Valid() && err == Success && i < |str| && stack[depth].state == Start
      requires str[i] != '{' && str[i] != '[' && str[i] != '"' && (str[i] == '\'' ==> env.strict)
      modifies this
      ensures Shape() && num == old(num)
      ensures Went(old(State()), str, i, j, f, err, State()) == true
    {
      ghost var t := State();
      var c := str[i];
      j, f := i, Go;
      if c == 'I' || c == 'i' {
        SetState(Inf);
        pb, stPos := "", 0;
      } else if c == 'N' || c == 'n' {
        SetState(NullWord);
        pb, stPos := "", 0;
      } else if c == 'T' || c == 't' || c == 'F' || c == 'f' {
        SetState(Boolean);
        pb, stPos := "", 0;
      } else if IsDigit(c) || c == '-' {
        SetState(Number);
        pb, isDouble := "", false;
      } else {
        err := Unexpected;
        PassOut(t, str, i, err, t);
        return i, Stop(c);
      }
      PassRedo(t, str, i, State());
    }

    method DoFinish(str: string, i: nat) returns (j: nat, f: Flow)
      requires Valid() && err == Success && i < |str| && stack[depth].state == Finish
      modifies this
      ensures Shape() && num == old(num)
      ensures Went(old(State()), str, i, j, f, err, State()) == true
    {
      ghost var t := State();
      if depth == 0 {
        PassOut(t, str, i, Success, t);
        return i, Stop(str[i]);
      }
      assert Waiting(t.base[|t.base| - 1]);
      PopLevel();
      PassRedo(t, str, i, State());
      return i, Go;
    }

    /** The level is done: current, saved_state and state for a finished value. */
    method FinishValue(v: Json)
      requires Shape() && num == NoLocals
      modifies this`stack
      ensures Shape() && State() == Done(old(State()), v)
    {
      SetTop(stack[depth].(state := Eatws, saved := Finish, current := v));
    }

    method DoNull(str: string, i: nat) returns (j: nat, f: Flow)
      requires Valid() && err == Success && i < |str| && stack[depth].state == NullWord
      modifies this
      ensures Shape() && num == old(num)
      ensures Went(old(State()), str, i, j, f, err, State()) == true
    {
      ghost var t := State();
      var c := str[i];
      pb := pb + [c];
      if Matches("null"[..Min(stPos + 1, 4)], pb, env.strict) {
        if stPos == 4 {
          FinishValue(Null);
          PassRedo(t, str, i, State());
          return i, Go;
        }
      } else if Matches("NaN"[..Min(stPos + 1, 3)], pb, env.strict) {
        if stPos == 3 {
          err := ForeignDouble;
          PassOut(t, str, i, err, State());
          return i, Stop(c);
        }
      } else {
        err := ParseNull;
        PassOut(t, str, i, err, State());
        return i, Stop(c);
      }
      stPos := stPos + 1;
      PassNext(t, str, i, State());
      return i + 1, if c == NUL then Stop(NUL) else Go;
    }

    method DoBoolean(str: string, i: nat) returns (j: nat, f: Flow)
      requires Valid() && err == Success && i < |str| && stack[depth].state == Boolean
      modifies this
      ensures Shape() && num == old(num)
      ensures Went(old(State()), str, i, j, f, err, State()) == true
    {
      ghost var t := State();
      var c := str[i];
      pb := pb + [c];
      if Matches("true"[..Min(stPos + 1, 4)], pb, env.strict) {
        if stPos == 4 {
          FinishValue(Bool(true));
          PassRedo(t, str, i, State());
          return i, Go;
        }
      } else if Matches("false"[..Min(stPos + 1, 5)], pb, env.strict) {
        if stPos == 5 {
          FinishValue(Bool(false));
          PassRedo(t, str, i, State());
          return i, Go;
        }
      } else {
        err := ParseBoolean;
        PassOut(t, str, i, err, State());
        return i, Stop(c);
      }
      stPos := stPos + 1;
      PassNext(t, str, i, State());
      return i + 1, if c == NUL then Stop(NUL) else Go;
    }

    // ---- comments ----------------------------------------------------------------------

    method DoCommentStart(str: string, i: nat) returns (j: nat, f: Flow)
      requires Valid() && err == Success && i < |str| && stack[depth].state == CommentStart
      modifies this
      ensures Shape() && num == old(num)
      ensures Went(old(State()), str, i, j, f, err, State()) == true
    {
      ghost var t := State();
      var c := str[i];
      if c == '*' {
        SetState(Comment);
      } else if c == '/' {
        SetState(CommentEol);
      } else {
        err := ParseComment;
        PassOut(t, str, i, err, t);
        return i, Stop(c);
      }
      pb := pb + [c];
      PassNext(t, str, i, State());
      return i + 1, Go;
    }

    /** The run of comment characters up to the closing one. */
    method CommentRun(str: string, i: nat, close: char) returns (j: nat)
      requires Valid() && i < |str|
      requires (stack[depth].state == Comment && close == '*')
               || (stack[depth].state == CommentEol && close == '\n')
      ensures i <= j <= |str| && (j < |str| ==> str[j] == close || str[j] == NUL)
      ensures PutRun(State(), str, i, j)
    {
      ghost var t := State();
      j := i;
      assert Put(t, str[i..i]) == t;
      while j < |str| && str[j] != close && str[j] != NUL
        invariant i <= j <= |str| && PutRun(t, str, i, j)
      {
        PutNext(t, str, i, j);
        j := j + 1;
      }
    }

    /** Both kinds of comment body: take everything up to the closing character. */
    method DoComment(str: string, i: nat, close: char) returns (j: nat, f: Flow)
      requires Valid() && err == Success && i < |str|
      requires (stack[depth].state == Comment && close == '*')
               || (stack[depth].state == CommentEol && close == '\n')
      modifies this
      ensures Shape() && num == old(num)
      ensures Went(old(State()), str, i, j, f, err, State()) == true
    {
      ghost var t := State();
      j := CommentRun(str, i, close);
      ghost var u, k := Put(t, str[i..j]), j;
      pb := pb + str[i..j];
      f := Go;
      if j < |str| {
        j, f := EndComment(str, j, close);
        PassThen(t, u, str, i, k, j, f, err, State());
      }
    }

    method EndComment(str: string, i: nat, close: char) returns (j: nat, f: Flow)
      requires Valid() && err == Success && i < |str| && (str[i] == close || str[i] == NUL)
      requires (stack[depth].state == Comment && close == '*')
               || (stack[depth].state == CommentEol && close == '\n')
      modifies this
      ensures Shape() && num == old(num)
      ensures Went(old(State()), str, i, j, f, err, State()) == true
    {
      ghost var t := State();
      if str[i] == NUL {
        pb := pb + [NUL];
      } else if close == '*' {
        pb := pb + [str[i]];
        SetState(CommentEnd);
      } else {
        SetState(Eatws);
      }
      PassNext(t, str, i, State());
      return i + 1, if str[i] == NUL then Stop(NUL) else Go;
    }

    method DoCommentEnd(str: string, i: nat) returns (j: nat, f: Flow)
      requires Valid() && err == Success && i < |str| && stack[depth].state == CommentEnd
      modifies this
      ensures Shape() && num == old(num)
      ensures Went(old(State()), str, i, j, f, err, State()) == true
    {
      ghost var t := State();
      var c := str[i];
      pb := pb + [c];
      SetState(if c == '/' then Eatws else Comment);
      PassNext(t, str, i, State());
      return i + 1, if c == NUL then Stop(NUL) else Go;
    }

    // ---- strings and field names ---------------------------------------------------------

    /** A character that a string or field name just copies. */
    predicate Copies(c: char)
      reads this
    {
      c != quote && c != '\\' && c != NUL && !(env.strict && c as int <= 0x1f)
    }

    /** The run of characters that are copied as they are. */
    method TextRun(str: string, i: nat) returns (j: nat)
      requires Valid() && i < |str|
      requires stack[depth].state == InString || stack[depth].state == InField
      ensures i <= j <= |str| && (j < |str| ==> !Copies(str[j]))
      ensures PutRun(State(), str, i, j)
    {
      ghost var t := State();
      j := i;
      assert Put(t, str[i..i]) == t;
      while j < |str| && Copies(str[j])
        invariant i <= j <= |str| && PutRun(t, str, i, j)
      {
        PutNext(t, str, i, j);
        j := j + 1;
      }
    }

    method DoText(str: string, i: nat) returns (j: nat, f: Flow)
      requires Valid() && err == Success && i < |str|
      requires stack[depth].state == InString || stack[depth].state == InField
      modifies this
      ensures Shape() && num == old(num)
      ensures Went(old(State()), str, i, j, f, err, State()) == true
    {
      ghost var t := State();
      j := TextRun(str, i);
      ghost var u, k := Put(t, str[i..j]), j;
      pb := pb + str[i..j];
      f := Go;
      if j < |str| {
        j, f := EndText(str, j);
        PassThen(t, u, str, i, k, j, f, err, State());
      }
    }

    /** The character that ends a copied run: quote, backslash, NUL or, in strict mode, a
        control character. */
    method EndText(str: string, i: nat) returns (j: nat, f: Flow)
      requires Valid() && err == Success && i < |str| && !Copies(str[i])
      requires stack[depth].state == InString || stack[depth].state == InField
      modifies this
      ensures Shape() && num == old(num)
      ensures Went(old(State()), str, i, j, f, err, State()) == true
    {
      ghost var t := State();
      var c := str[i];
      var top := stack[depth];
      if c == quote {
        if top.state == InString {
          FinishValue(Str(pb));
        } else {
          SetTop(top.(state := Eatws, saved := FieldEnd, field := CString(pb)));
        }
      } else if c == '\\' {
        SetTop(top.(saved := top.state, state := StringEscape));
      } else if env.strict && c as int <= 0x1f {
        err := ParseString;
        PassOut(t, str, i, err, t);
        return i, Stop(c);
      } else {
        pb := pb + [c];
      }
      PassNext(t, str, i, State());
      return i + 1, if c == NUL then Stop(NUL) else Go;
    }

    method DoEscape(str: string, i: nat) returns (j: nat, f: Flow)
      requires Valid() && err == Success && i < |str| && stack[depth].state == StringEscape
      modifies this
      ensures Shape() && num == old(num)
      ensures Went(old(State()), str, i, j, f, err, State()) == true
    {
      ghost var t := State();
      var c := str[i];
      if c == 'u' {
        ucs, stPos := 0, 0;
        SetState(EscapeUnicode);
      } else if Unescaped(c) != "" {
        pb := pb + Unescaped(c);
        SetState(stack[depth].saved);
      } else {
        err := ParseString;
        PassOut(t, str, i, err, t);
        return i, Stop(c);
      }
      PassNext(t, str, i, State());
      return i + 1, Go;
    }

    /** The hex digits of \uNNNN that this call has; the last one ends the escape. */
    method DoUnicode(str: string, i: nat) returns (j: nat, f: Flow)
      requires Valid() && err == Success && i < |str| && stack[depth].state == EscapeUnicode
      modifies this
      ensures Shape() && num == old(num)
      ensures Went(old(State()), str, i, j, f, err, State()) == true
    {
      ghost var t := State();
      j, ucs, stPos := HexRun(t, str, i, ucs, stPos);
      f := Go;
      if j < |str| {
        ghost var u, k := State(), j;
        j, f := EndUnicodeRun(str, j);
        PassThen(t, u, str, i, k, j, f, err, State());
      }
    }

    method EndUnicodeRun(str: string, i: nat) returns (j: nat, f: Flow)
      requires Valid() && err == Success && i < |str| && stack[depth].state == EscapeUnicode
      requires !IsHex(str[i]) || stPos == 3
      modifies this
      ensures Shape() && num == old(num)
      ensures Went(old(State()), str, i, j, f, err, State()) == true
    {
      ghost var t := State();
      if !IsHex(str[i]) {
        err := ParseString;
        PassOut(t, str, i, err, t);
        return i, Stop(str[i]);
      }
      EndEscape(str[i]);
      PassNext(t, str, i, State());
      return i + 1, Go;
    }

    /** The fourth digit: join or replace surrogates and append the code point. */
    method EndEscape(c: char)
      requires Shape() && IsHex(c) && stPos == 3
      modifies this`stack, this`pb, this`stPos, this`ucs, this`high
      ensures Shape() && StepUnicode(old(State()), c) == Next(State())
    {
      ucs := ucs + HexValue(c) * Pow16(0);
      stPos := 0;
      if high != 0 {
        if IsLow(ucs) {
          ucs := Pair(high, ucs);
        } else {
          pb := pb + REPLACEMENT;
        }
        high := 0;
      }
      if IsHigh(ucs) {
        high, ucs := ucs, 0;
        SetState(NeedEscape);
      } else {
        pb := pb + AppendedBytes(ucs);
        SetState(stack[depth].saved);
      }
    }

    method DoNeedEscape(str: string, i: nat) returns (j: nat, f: Flow)
      requires Valid() && err == Success && i < |str| && stack[depth].state == NeedEscape
      modifies this
      ensures Shape() && num == old(num)
      ensures Went(old(State()), str, i, j, f, err, State()) == true
    {
      ghost var t := State();
      if str[i] != '\\' {
        pb := pb + REPLACEMENT;
        high, ucs, stPos := 0, 0, 0;
        SetState(stack[depth].saved);
        PassRedo(t, str, i, State());
        return i, Go;
      }
      SetState(NeedU);
      PassNext(t, str, i, State());
      return i + 1, Go;
    }

    method DoNeedU(str: string, i: nat) returns (j: nat, f: Flow)
      requires Valid() && err == Success && i < |str| && stack[depth].state == NeedU
      modifies this
      ensures Shape() && num == old(num)
      ensures Went(old(State()), str, i, j, f, err, State()) == true
    {
      ghost var t := State();
      if str[i] != 'u' {
        pb := pb + REPLACEMENT;
        high, ucs, stPos := 0, 0, 0;
        SetState(StringEscape);
        PassRedo(t, str, i, State());
        return i, Go;
      }
      SetState(EscapeUnicode);
      PassNext(t, str, i, State());
      return i + 1, Go;
    }

    // ---- containers ------------------------------------------------------------------------

    method DoArray(str: string, i: nat) returns (j: nat, f: Flow)
      requires Valid() && err == Success && i < |str|
      requires stack[depth].state == Array || stack[depth].state == ArrayAfterSep
      modifies this
      ensures Shape() && num == old(num)
      ensures Went(old(State()), str, i, j, f, err, State()) == true
    {
      ghost var t := State();
      var c, top := str[i], stack[depth];
      if c == ']' {
        if top.state == ArrayAfterSep && env.strict {
          err := Unexpected;
          PassOut(t, str, i, err, t);
          return i, Stop(c);
        }
        SetTop(top.(state := Eatws, saved := Finish));
        PassNext(t, str, i, State());
        return i + 1, Go;
      }
      if depth + 1 >= env.maxDepth {
        err := TooDeep;
        PassOut(t, str, i, err, t);
        return i, Stop(c);
      }
      PushLevel(ArrayAdd);
      PassRedo(t, str, i, State());
      return i, Go;
    }

    method DoSep(str: string, i: nat) returns (j: nat, f: Flow)
      requires Valid() && err == Success && i < |str|
      requires stack[depth].state == ArraySep || stack[depth].state == ObjSep
      modifies this
      ensures Shape() && num == old(num)
      ensures Went(old(State()), str, i, j, f, err, State()) == true
    {
      ghost var t := State();
      var c, top := str[i], stack[depth];
      var inArray := top.state == ArraySep;
      if c == (if inArray then ']' else '}') {
        SetTop(top.(state := Eatws, saved := Finish));
      } else if c == ',' {
        SetTop(top.(state := Eatws, saved := if inArray then ArrayAfterSep else FieldStartAfterSep));
      } else {
        err := if inArray then ParseArray else ValueSep;
        PassOut(t, str, i, err, t);
        return i, Stop(c);
      }
      PassNext(t, str, i, State());
      return i + 1, Go;
    }

    method DoFieldStart(str: string, i: nat) returns (j: nat, f: Flow)
      requires Valid() && err == Success && i < |str|
      requires stack[depth].state == FieldStart || stack[depth].state == FieldStartAfterSep
      modifies this
      ensures Shape() && num == old(num)
      ensures Went(old(State()), str, i, j, f, err, State()) == true
    {
      ghost var t := State();
      var c, top := str[i], stack[depth];
      if c == '}' {
        if top.state == FieldStartAfterSep && env.strict {
          err := Unexpected;
          PassOut(t, str, i, err, t);
          return i, Stop(c);
        }
        SetTop(top.(state := Eatws, saved := Finish));
        PassNext(t, str, i, State());
        return i + 1, Go;
      }
      j, f := DoFieldQuote(str, i);
    }

    /** Anything but the closing brace where a key may begin. */
    method DoFieldQuote(str: string, i: nat) returns (j: nat, f: Flow)
      requires Valid() && err == Success && i < |str| && str[i] != '}'
      requires stack[depth].state == FieldStart || stack[depth].state == FieldStartAfterSep
      modifies this
      ensures Shape() && num == old(num)
      ensures Went(old(State()), str, i, j, f, err, State()) == true
    {
      ghost var t := State();
      var c := str[i];
      if c == '"' || c == '\'' {
        quote, pb := c, "";
        SetState(InField);
        PassNext(t, str, i, State());
        return i + 1, Go;
      }
      err := KeyName;
      PassOut(t, str, i, err, t);
      return i, Stop(c);
    }

    method DoFieldEnd(str: string, i: nat) returns (j: nat, f: Flow)
      requires Valid() && err == Success && i < |str| && stack[depth].state == FieldEnd
      modifies this
      ensures Shape() && num == old(num)
      ensures Went(old(State()), str, i, j, f, err, State()) == true
    {
      ghost var t := State();
      if str[i] != ':' {
        err := KeySep;
        PassOut(t, str, i, err, t);
        return i, Stop(str[i]);
      }
      SetTop(stack[depth].(state := Eatws, saved := ObjValue));
      PassNext(t, str, i, State());
      return i + 1, Go;
    }

    method DoObjValue(str: string, i: nat) returns (j: nat, f: Flow)
      requires Valid() && err == Success && i < |str| && stack[depth].state == ObjValue
      modifies this
      ensures Shape() && num == old(num)
      ensures Went(old(State()), str, i, j, f, err, State()) == true
    {
      ghost var t := State();
      if depth + 1 >= env.maxDepth {
        err := TooDeep;
        PassOut(t, str, i, err, t);
        return i, Stop(str[i]);
      }
      PushLevel(ObjValueAdd);
      PassRedo(t, str, i, State());
      return i, Go;
    }

    // ---- numbers -----------------------------------------------------------------------------

    /** The locals of the number case, rebuilt from the text that earlier calls saved. */
    method RebuildLocals() returns (l: NumLocals)
      ensures l == Regenerate(pb)
    {
      var isExponent, negOk, posOk := false, true, false;
      if |pb| > 0 {
        var eLoc := StrChr(pb, 'e');
        if eLoc < 0 {
          eLoc := StrChr(pb, 'E');
        }
        if eLoc >= 0 {
          isExponent, posOk, negOk := true, true, true;
          if eLoc != |pb| - 1 {
            negOk, posOk := false, false;
          }
        }
      }
      l := NumLocals(isExponent, negOk, posOk, 0);
    }

    method DoNumber(str: string, i: nat) returns (j: nat, f: Flow)
      requires Valid() && err == Success && i < |str| && stack[depth].state == Number
      requires num == NoLocals
      modifies this
      ensures Shape()
      ensures Went(old(State()), str, i, j, f, err, State()) == true
      ensures f.Go? && j < |str| ==> num == NoLocals
    {
      ghost var t := State();
      var l := RebuildLocals();
      assert InRun(t, str, i, i, isDouble, num) == t;
      j, l, isDouble, num := DigitRun(t, str, i, l, isDouble, num);
      ghost var k := j;
      if j - i > 0 {
        pb := pb + str[i..j];
      }
      ghost var u := InRun(t, str, i, j, isDouble, num);
      assert State() == u;
      f := Go;
      if j < |str| {
        j, f := EndNumberRun(str, j, l);
        PassThen(t, u, str, i, k, j, f, err, State());
      }
    }

    /** The character after a number, with the complete text in the printbuf. */
    method EndNumberRun(str: string, i: nat, l: NumLocals) returns (j: nat, f: Flow)
      requires Valid() && err == Success && i < |str| && stack[depth].state == Number
      requires LocalsOf(W()) == l && (str[i] == NUL || !IsNumberChar(str[i], l, isDouble))
      modifies this
      ensures Shape()
      ensures Went(old(State()), str, i, j, f, err, State()) == true
      ensures f.Go? ==> num == NoLocals
    {
      ghost var t := State();
      var c := str[i];
      j := i;
      if depth > 0 && !EndsNumber(c) {
        err := ParseNumber;
        PassOut(t, str, i, err, t);
        return i, Stop(c);
      }
      if pb != "" && pb[0] == '-' && l.caseLen <= 1 && (c == 'i' || c == 'I') {
        stPos := 0;
        num := NoLocals;
        SetState(Inf);
        PassRedo(t, str, i, State());
        return i, Go;
      }
      j, f := EndNumberText(str, i, l);
    }

    /** strtoll or strtoull on the printbuf. */
    method EndNumberText(str: string, i: nat, l: NumLocals) returns (j: nat, f: Flow)
      requires Valid() && err == Success && i < |str| && stack[depth].state == Number
      requires LocalsOf(W()) == l && (str[i] == NUL || !IsNumberChar(str[i], l, isDouble))
      requires depth > 0 ==> EndsNumber(str[i])
      requires !(pb != "" && pb[0] == '-' && l.caseLen <= 1 && (str[i] == 'i' || str[i] == 'I'))
      modifies this
      ensures Shape()
      ensures Went(old(State()), str, i, j, f, err, State()) == true
      ensures f.Go? ==> num == NoLocals
    {
      ghost var t := State();
      var r := FinishNumber(pb, env.strict);
      if isDouble || !r.0 {
        err := if isDouble then ForeignDouble else ParseNumber;
        PassOut(t, str, i, err, t);
        return i, Stop(str[i]);
      }
      num := NoLocals;
      FinishValue(r.1);
      PassRedo(t, str, i, State());
      return i, Go;
    }

    // ---- the loop ----------------------------------------------------------------------------

    method DoToken(str: string, i: nat) returns (j: nat, f: Flow)
      requires Valid() && err == Success && i < |str| && num == NoLocals
      requires var s := stack[depth].state; s == Start || s == Finish || Wording(s)
      modifies this
      ensures Shape()
      ensures Went(old(State()), str, i, j, f, err, State()) == true
      ensures f.Go? && j < |str| ==> num == NoLocals
    {
      var s := stack[depth].state;
      if s == Start { j, f := DoStart(str, i); }
      else if s == Finish { j, f := DoFinish(str, i); }
      else if s == NullWord { j, f := DoNull(str, i); }
      else if s == Boolean { j, f := DoBoolean(str, i); }
      else if s == Number { j, f := DoNumber(str, i); }
      else {
        err := ForeignDouble;
        PassOut(old(State()), str, i, err, State());
        return i, Stop(str[i]);
      }
    }

    method DoCharacters(str: string, i: nat) returns (j: nat, f: Flow)
      requires Valid() && err == Success && i < |str| && Quoting(stack[depth].state)
      modifies this
      ensures Shape() && num == old(num)
      ensures Went(old(State()), str, i, j, f, err, State()) == true
    {
      var s := stack[depth].state;
      if s == StringEscape { j, f := DoEscape(str, i); }
      else if s == EscapeUnicode { j, f := DoUnicode(str, i); }
      else if s == NeedEscape { j, f := DoNeedEscape(str, i); }
      else if s == NeedU { j, f := DoNeedU(str, i); }
      else { j, f := DoText(str, i); }
    }

    method DoSpace(str: string, i: nat) returns (j: nat, f: Flow)
      requires Valid() && err == Success && i < |str| && Spacing(stack[depth].state)
      modifies this
      ensures Shape() && num == old(num)
      ensures Went(old(State()), str, i, j, f, err, State()) == true
    {
      var s := stack[depth].state;
      if s == Eatws { j, f := DoEatws(str, i); }
      else if s == CommentStart { j, f := DoCommentStart(str, i); }
      else if s == Comment { j, f := DoComment(str, i, '*'); }
      else if s == CommentEol { j, f := DoComment(str, i, '\n'); }
      else { j, f := DoCommentEnd(str, i); }
    }

    method DoContainer(str: string, i: nat) returns (j: nat, f: Flow)
      requires Valid() && err == Success && i < |str|
      requires var s := stack[depth].state;
               s != Start && s != Finish && !Wording(s) && !Spacing(s) && !Quoting(s)
      modifies this
      ensures Shape() && num == old(num)
      ensures Went(old(State()), str, i, j, f, err, State()) == true
    {
      var s := stack[depth].state;
      if s == Array || s == ArrayAfterSep { j, f := DoArray(str, i); }
      else if s == ArraySep || s == ObjSep { j, f := DoSep(str, i); }
      else if s == FieldStart || s == FieldStartAfterSep { j, f := DoFieldStart(str, i); }
      else if s == FieldEnd { j, f := DoFieldEnd(str, i); }
      else { j, f := DoObjValue(str, i); }
    }

    /** One pass of the switch. */
    method Pass(str: string, i: nat) returns (j: nat, f: Flow)
      requires Valid() && err == Success && i < |str| && num == NoLocals
      modifies this
      ensures Shape()
      ensures Went(old(State()), str, i, j, f, err, State()) == true
      ensures f.Go? && j < |str| ==> num == NoLocals
    {
      var s := stack[depth].state;
      if Spacing(s) { j, f := DoSpace(str, i); }
      else if Quoting(s) { j, f := DoCharacters(str, i); }
      else if s == Start || s == Finish || Wording(s) { j, f := DoToken(str, i); }
      else { j, f := DoContainer(str, i); }
    }

    /** The while loop: everything up to label `out`. */
    method Loop(str: string) returns (c: char)
      requires Valid() && err == Success && num == NoLocals
      modifies this
      ensures Shape() && CallEnd(err, State(), c) == Run(old(State()), str, '\U{01}')
    {
      ghost var t := State();
      var i, f := 0, Go;
      assert str[0..] == str;
      while i < |str| && f.Go?
        invariant i <= |str| && Shape()
        invariant f.Go? ==> Valid() && err == Success && Rest(t, str, 0) == Rest(State(), str, i)
        invariant f.Go? && i < |str| ==> num == NoLocals
        invariant f.Stop? ==> Rest(t, str, 0) == CallEnd(err, State(), f.c)
        decreases |str| - i, if f.Go? then 1 else 0, Rank(stack[depth])
      {
        i, f := Pass(str, i);
      }
      if f.Go? {
        assert str[i..] == "";
        c := Prev(str, i);
        var top := stack[depth];
        err := if depth == 0 && top.state == Eatws && top.saved == Finish then Success else Continue;
      } else {
        c := f.c;
      }
    }

    /** json_tokener_reset_level for every level down to 0 */
    method ResetAll()
      requires Shape()
      modifies this`stack
      ensures Shape() && State() == ResetLevels(old(State()))
    {
      var ii: int := depth;
      while ii >= 0
        invariant -1 <= ii <= depth && Shape()
        invariant forall k :: ii < k <= depth ==> stack[k] == FRESH
      {
        stack := stack[ii := FRESH];
        ii := ii - 1;
      }
      assert stack[..depth] == seq(depth, _ => FRESH);
    }

    /** json_tokener_parse_ex */
    method ParseEx(str: string) returns (value: Json)
      requires Valid()
      modifies this
      ensures Shape() && HighOk(W()) && (err == Continue ==> Valid())
      ensures var r := Tokener.ParseEx(old(State()), str);
              err == r.err && value == r.value && State() == r.t
    {
      err := Success;
      num := NoLocals;
      assert State() == BeginCall(old(State()));
      var c := Loop(str);
      ghost var e := CallEnd(err, State(), c);
      var top := stack[depth];
      if c != NUL && top.state == Finish && depth == 0 && env.strict && !env.allowTrailing {
        err := Unexpected;
      }
      if c == NUL && top.state != Finish && top.saved != Finish {
        err := Eof;
      }
      assert err == AtOut(e);
      value := Null;
      if err == Success {
        value := top.current;
        ResetAll();
      }
    }

    /** json_tokener_reset, after any call: whatever happened, the tokener can be used again. */
    method Reset()
      requires Shape() && HighOk(W())
      modifies this
      ensures Valid() && err == Success && State() == AfterReset(old(State()))
    {
      ResetAll();
      depth := 0;
      err := Success;
      num := NoLocals;
      assert stack[0] == FRESH;
    }
  }

  /** The loop of the number case; the locals and is_double follow along. */
  method DigitRun(ghost t: Tok, str: string, i: nat, l0: NumLocals, d0: bool, ghost n0: MaybeLocals)
    returns (j: nat, l: NumLocals, d: bool, ghost n: MaybeLocals)
    requires i < |str| && t.top.state == Number && NumberRun(t, str, i, i, l0, d0, n0) == true
    ensures i <= j <= |str|
    ensures NumberRun(t, str, i, j, l, d, n) == true
    ensures j < |str| ==> str[j] == NUL || !IsNumberChar(str[j], l, d)
  {
    j, l, d, n := i, l0, d0, n0;
    RunningMeans(|str| + 3, t, str, i, j, l, d, n);
    while j < |str| && str[j] != NUL && IsNumberChar(str[j], l, d)
      invariant i <= j <= |str|
      invariant Running(|str| + 3, t, str, i, j, l, d, n)
    {
      var c := str[j];
      var l', d' := AfterNumberChar(c, l), d || c == '.' || c == 'e' || c == 'E';
      RunningNext(|str| + 3, t, str, i, j, l, d, n, l', d');
      j, l, d, n := j + 1, l', d', Locals(l');
    }
    RunningMeans(|str| + 3, t, str, i, j, l, d, n);
  }

  /** All but the last hex digit of an escape. */
  method HexRun(ghost t: Tok, str: string, i: nat, u0: nat, p0: nat)
    returns (j: nat, u: nat, p: nat)
    requires Valid(t) && i < |str| && t.top.state == EscapeUnicode
    requires t.w.ucs == u0 && t.w.stPos == p0
    ensures i <= j <= |str| && (j < |str| ==> !IsHex(str[j]) || p == 3)
    ensures HexDigits(t, str, i, j, u, p)
  {
    j, u, p := i, u0, p0;
    while j < |str| && IsHex(str[j]) && p < 3
      invariant i <= j <= |str| && p < 4 && HexDigits(t, str, i, j, u, p)
    {
      HexDigitNext(t, str, i, j, u, p);
      u := u + HexValue(str[j]) * Pow16(3 - p);
      p := p + 1;
      j := j + 1;
    }
  }

  function WithHex(t: Tok, u: nat, p: nat): Tok { t.(w := t.w.(ucs := u, stPos := p)) }

  ghost predicate HexDigits(t: Tok, str: string, i: nat, j: nat, u: nat, p: nat) {
    i <= j <= |str| && Valid(t) && Valid(WithHex(t, u, p))
    && Rest(t, str, i) == Rest(WithHex(t, u, p), str, j)
  }

  lemma {:induction false} HexDigitNext(t: Tok, str: string, i: nat, j: nat, u: nat, p: nat)
    requires j < |str| && IsHex(str[j]) && p < 3 && t.top.state == EscapeUnicode
    requires HexDigits(t, str, i, j, u, p)
    ensures HexDigits(t, str, i, j + 1, u + HexValue(str[j]) * Pow16(3 - p), p + 1)
  {
    var a := WithHex(t, u, p);
    var b := WithHex(t, u + HexValue(str[j]) * Pow16(3 - p), p + 1);
    assert b.w == PutHex(a.w, str[j]);
    PassNext(a, str, j, b);
  }

  method StrChr(s: string, c: char) returns (k: int)
    ensures -1 <= k < |s|
    ensures k < 0 ==> c !in s
    ensures k >= 0 ==> s[k] == c && c !in s[..k]
  {
    k := 0;
    while k < |s|
      invariant 0 <= k <= |s| && c !in s[..k]
    {
      if s[k] == c { return; }
      k := k + 1;
    }
    k := -1;
  }

  /** A number after the characters i to j of this call. */
  function InRun(t: Tok, str: string, i: nat, j: nat, isDouble: bool, num: MaybeLocals): Tok
    requires i <= j <= |str|
  {
    t.(w := t.w.(pb := t.w.pb + str[i..j], isDouble := isDouble, num := num))
  }

  ghost predicate NumberRun(t: Tok, str: string, i: nat, j: nat, l: NumLocals, isDouble: bool,
                            num: MaybeLocals)
    requires i <= j <= |str|
  {
    var u := InRun(t, str, i, j, isDouble, num);
    Valid(t) && Valid(u) && LocalsOf(u.w) == l && Rest(t, str, i) == Rest(u, str, j)
  }

  /** `NumberRun`, with a counter so that the loop carries it as one fact. */
  ghost predicate Running(k: nat, t: Tok, str: string, i: nat, j: nat, l: NumLocals, isDouble: bool,
                          num: MaybeLocals)
    requires i <= j <= |str|
    decreases k
  {
    if k > 0 then Running(k - 1, t, str, i, j, l, isDouble, num) else NumberRun(t, str, i, j, l, isDouble, num)
  }

  lemma {:induction false} RunningMeans(k: nat, t: Tok, str: string, i: nat, j: nat, l: NumLocals,
                                        isDouble: bool, num: MaybeLocals)
    requires i <= j <= |str|
    ensures Running(k, t, str, i, j, l, isDouble, num) == NumberRun(t, str, i, j, l, isDouble, num)
    decreases k
  {
    if k > 0 {
      RunningMeans(k - 1, t, str, i, j, l, isDouble, num);
    }
  }

  lemma {:induction false} InRunNext(t: Tok, str: string, i: nat, j: nat, l: NumLocals, isDouble: bool, num: MaybeLocals)
    requires i <= j < |str|
    ensures var c := str[j];
            var u := InRun(t, str, i, j, isDouble, num);
            InRun(t, str, i, j + 1, isDouble || c == '.' || c == 'e' || c == 'E',
                  Locals(AfterNumberChar(c, l)))
            == u.(w := PutNumberChar(u.w, c, l))
  {
    assert t.w.pb + str[i..j + 1] == t.w.pb + str[i..j] + [str[j]];
  }

  lemma {:induction false} RunningNext(k: nat, t: Tok, str: string, i: nat, j: nat, l: NumLocals,
                                       isDouble: bool, num: MaybeLocals, l': NumLocals, d': bool)
    requires i <= j < |str| && Running(k, t, str, i, j, l, isDouble, num)
    requires t.top.state == Number && str[j] != NUL && IsNumberChar(str[j], l, isDouble)
    requires l' == AfterNumberChar(str[j], l)
    requires d' == (isDouble || str[j] == '.' || str[j] == 'e' || str[j] == 'E')
    ensures Running(k, t, str, i, j + 1, l', d', Locals(l'))
    decreases k
  {
    if k == 0 {
      NumberRunStep(t, str, i, j, l, isDouble, num, l', d');
    } else {
      RunningNext(k - 1, t, str, i, j, l, isDouble, num, l', d');
    }
  }

  lemma {:induction false} NumberRunStep(t: Tok, str: string, i: nat, j: nat, l: NumLocals, isDouble: bool,
                      num: MaybeLocals, l': NumLocals, d': bool)
    requires i <= j < |str| && NumberRun(t, str, i, j, l, isDouble, num) == true
    requires t.top.state == Number && str[j] != NUL && IsNumberChar(str[j], l, isDouble)
    requires l' == AfterNumberChar(str[j], l)
    requires d' == (isDouble || str[j] == '.' || str[j] == 'e' || str[j] == 'E')
    ensures NumberRun(t, str, i, j + 1, l', d', Locals(l')) == true
  {
    var u := InRun(t, str, i, j, isDouble, num);
    InRunNext(t, str, i, j, l, isDouble, num);
    PassNext(u, str, j, u.(w := PutNumberChar(u.w, str[j], l)));
  }

  /** The characters i to j go to the printbuf as they are. */
  ghost predicate PutRun(t: Tok, str: string, i: nat, j: nat) {
    i <= j <= |str| && Valid(t) && Valid(Put(t, str[i..j]))
    && Rest(t, str, i) == Rest(Put(t, str[i..j]), str, j)
  }

  lemma {:induction false} PutNext(t: Tok, str: string, i: nat, j: nat)
    requires j < |str| && str[j] != NUL && PutRun(t, str, i, j)
    requires Step(Put(t, str[i..j]), str[j]) == Next(Put(Put(t, str[i..j]), [str[j]]))
    ensures PutRun(t, str, i, j + 1)
  {
    var u := Put(t, str[i..j]);
    PassNext(u, str, j, Put(u, [str[j]]));
    assert str[i..j + 1] == str[i..j] + [str[j]];
    assert t.w.pb + str[i..j + 1] == t.w.pb + str[i..j] + [str[j]];
  }
}
