/** Where the tokener's guarantees end: nesting beyond max_depth, and success inside an open
    container. */
module ParsingLimits {
  import opened Json
  import opened JsonPrint
  import opened Tokener
  import opened TokenerFeed
  import opened RoundTrip
  import opened Parsing
  import opened CallBoundaries

  // ---- nesting ------------------------------------------------------------------------

  /** Feeding s runs into the depth limit. */
  ghost predicate Dies(t: Tok, s: string)
    decreases |s|
  {
    && Clean(t) && s != "" && s[0] != NUL
    && var o := Char(t, s[0]);
       if o.Out? then o.err == TooDeep && o.t.top.state != Finish else Dies(o.t, s[1..])
  }

  lemma {:induction false} DiesAppend(t: Tok, a: string, b: string)
    requires Dies(t, a)
    ensures Dies(t, a + b)
    decreases |a|
  {
    assert (a + b)[0] == a[0] && (a + b)[1..] == a[1..] + b;
    var o := Char(t, a[0]);
    if o.Next? {
      DiesAppend(o.t, a[1..], b);
    }
  }

  lemma {:induction false} DiesAfter(t: Tok, a: string, u: Tok, b: string)
    requires Clean(t) && Feed(t, a) == Alive(u) && Dies(u, b)
    ensures Dies(t, a + b)
    decreases |a|
  {
    if a == "" {
      assert a + b == b;
    } else {
      assert (a + b)[0] == a[0] && (a + b)[1..] == a[1..] + b;
      DiesAfter(Char(t, a[0]).t, a[1..], u, b);
    }
  }

  lemma {:induction false} DiesRun(t: Tok, s: string, c: char)
    requires Dies(t, s)
    ensures AtOut(Run(t, s, c)) == TooDeep
    decreases |s|
  {
    var o := Char(t, s[0]);
    if o.Next? {
      DiesRun(o.t, s[1..], s[0]);
    }
  }

  lemma {:induction false} PushDies(t: Tok, c: char)
    requires Clean(t) && (BeforeItem(t) || BeforeFieldValue(t)) && Opens(c)
    requires |t.base| + 1 >= t.env.maxDepth
    ensures Char(t, c) == Out(TooDeep, To(t, t.top.saved))
  {
    Resume(t, c);
    StepKeeps(To(t, t.top.saved), c);
  }

  /** A child that is too deep, or has no level of its own. */
  lemma {:induction false} ChildDies(t: Tok, w: string, s: string)
    requires Clean(t) && (BeforeItem(t) || BeforeFieldValue(t)) && AllWs(w)
    requires s != "" && Opens(s[0])
    requires |t.base| + 1 >= t.env.maxDepth || Dies(ChildOf(t), s)
    ensures Dies(t, w + s)
  {
    if |t.base| + 1 >= t.env.maxDepth {
      PushDies(t, s[0]);
    } else {
      PushChild(t, s[0]);
    }
    assert Dies(t, s);
    FeedWs(t, w, "");
    DiesAfter(t, w, t, s);
  }

  lemma {:induction false} OpenDies(t: Tok, open: char, a: Tok, rest: string)
    requires Clean(t) && open != NUL && Char(t, open) == Next(a) && Dies(a, rest)
    ensures Dies(t, [open] + rest)
  {
  }

  predicate TooDeepFor(t: Tok, v: Json) { |t.base| + Height(v) > t.env.maxDepth }

  lemma {:induction false} DeepestItem(items: seq<Json>) returns (k: nat)
    requires items != []
    ensures k < |items| && Height(items[k]) == MaxHeight(items)
  {
    if |items| == 1 || Height(items[0]) > MaxHeight(items[1..]) {
      k := 0;
      assert MaxHeight(items[1..]) <= Height(items[0]);
    } else {
      k := DeepestItem(items[1..]);
      k := k + 1;
    }
  }

  lemma {:induction false} DeepestField(fields: seq<Field>) returns (k: nat)
    requires fields != []
    ensures k < |fields| && Height(fields[k].value) == MaxFieldHeight(fields)
  {
    if |fields| == 1 || Height(fields[0].value) > MaxFieldHeight(fields[1..]) {
      k := 0;
      assert MaxFieldHeight(fields[1..]) <= Height(fields[0].value);
    } else {
      k := DeepestField(fields[1..]);
      k := k + 1;
    }
  }

  lemma {:induction false} DeepValue(t: Tok, v: Json, level: nat, f: Flags)
    requires Clean(t) && t.top == FRESH && WellFormed(v) && TooDeepFor(t, v)
    ensures Dies(t, Print(v, level, f))
    decreases v, 1, 0
  {
    if v.Arr? {
      var k := DeepestItem(v.items);
      var a := OpenArray(t);
      assert v.items[..0] == [];
      ArrayText(v.items, level, f);
      DeepFrom(a, v, 0, k, level, f);
      OpenDies(t, '[', a, ItemText(v, 0, level, f) + ItemsTail(v.items, 1, level, f));
    } else {
      var k := DeepestField(v.fields);
      var a := OpenObject(t);
      assert v.fields[..0] == [];
      ObjectText(v.fields, level, f);
      DeepFromField(a, v, 0, k, level, f);
      OpenDies(t, '{', a, FieldText(v.fields, 0, level, f) + FieldsTail(v.fields, 1, level, f));
    }
  }

  function ItemText(v: Json, i: nat, level: nat, f: Flags): string
    requires v.Arr? && i < |v.items|
  {
    Lead(level, f) + Print(v.items[i], level + 1, f)
  }

  /** Before child i, with child k >= i too deep. */
  lemma {:induction false} DeepFrom(t: Tok, v: Json, i: nat, k: nat, level: nat, f: Flags)
    requires v.Arr? && i <= k < |v.items| && WellFormed(v)
    requires |t.base| + 1 + Height(v.items[k]) > t.env.maxDepth
    requires Clean(t) && BeforeItem(t) && t.top.field == ""
    requires t.top.current == Arr(ReparsedItems(v.items[..i]))
    ensures Dies(t, ItemText(v, i, level, f) + ItemsTail(v.items, i + 1, level, f))
    decreases v, 0, 2 * (|v.items| - i), 0
  {
    if |t.base| + 1 + Height(v.items[i]) > t.env.maxDepth {
      DeepItem(t, v, i, level, f);
      DiesAppend(t, ItemText(v, i, level, f), ItemsTail(v.items, i + 1, level, f));
    } else {
      var b := DeepPastItem(t, v, i, k, level, f);
      DiesAfter(t, ItemText(v, i, level, f), b, ItemsTail(v.items, i + 1, level, f));
    }
  }

  /** Child i itself is read; child k comes later. */
  lemma {:induction false} DeepPastItem(t: Tok, v: Json, i: nat, k: nat, level: nat, f: Flags)
    returns (b: Tok)
    requires v.Arr? && i < k < |v.items| && WellFormed(v)
    requires |t.base| + 1 + Height(v.items[i]) <= t.env.maxDepth
    requires |t.base| + 1 + Height(v.items[k]) > t.env.maxDepth
    requires Clean(t) && BeforeItem(t) && t.top.field == ""
    requires t.top.current == Arr(ReparsedItems(v.items[..i]))
    ensures Feed(t, ItemText(v, i, level, f)) == Alive(b)
    ensures Dies(b, ItemsTail(v.items, i + 1, level, f))
    decreases v, 0, 2 * (|v.items| - i) - 1, 1
  {
    b := ReadNextItem(t, v, i, level, f);
    assert |b.base| == |t.base| + 1;
    DeepAfterItem(b, v, i + 1, k, level, f);
  }

  lemma {:induction false} DeepItem(t: Tok, v: Json, i: nat, level: nat, f: Flags)
    requires v.Arr? && i < |v.items| && WellFormed(v)
    requires |t.base| + 1 + Height(v.items[i]) > t.env.maxDepth
    requires Clean(t) && BeforeItem(t)
    ensures Dies(t, ItemText(v, i, level, f))
    decreases v, 0, 0
  {
    var item := v.items[i];
    LayoutIsWs(level, true, f);
    PrintOpens(item, level + 1, f);
    var s := Print(item, level + 1, f);
    if |t.base| + 1 < t.env.maxDepth {
      PushChild(t, s[0]);
      DeepValue(ChildOf(t), item, level + 1, f);
    }
    ChildDies(t, Lead(level, f), s);
  }

  lemma {:induction false} DeepAfterItem(t: Tok, v: Json, i: nat, k: nat, level: nat, f: Flags)
    requires v.Arr? && i <= k < |v.items| && WellFormed(v) && AfterItem(t, v.items, i)
    requires |t.base| + Height(v.items[k]) > t.env.maxDepth
    ensures Dies(t, ItemsTail(v.items, i, level, f))
    decreases v, 0, 2 * (|v.items| - i) + 1, 0
  {
    ItemAdded(t, v.items, i);
    var a := CommaAfterChild(t, Reparsed(v.items[i - 1]));
    DeepFrom(a, v, i, k, level, f);
    ItemsTailMore(v.items, i, level, f);
    DiesAfter(t, ",", a, ItemText(v, i, level, f) + ItemsTail(v.items, i + 1, level, f));
  }

  lemma {:induction false} DeepFromField(t: Tok, v: Json, i: nat, k: nat, level: nat, f: Flags)
    requires v.Obj? && i <= k < |v.fields| && WellFormed(v)
    requires |t.base| + 1 + Height(v.fields[k].value) > t.env.maxDepth
    requires Clean(t) && BeforeField(t)
    requires t.top.current == Obj(ReparsedFields(v.fields[..i]))
    ensures Dies(t, FieldText(v.fields, i, level, f) + FieldsTail(v.fields, i + 1, level, f))
    decreases v, 0, 2 * (|v.fields| - i), 0
  {
    if |t.base| + 1 + Height(v.fields[i].value) > t.env.maxDepth {
      DeepField(t, v, i, level, f);
      DiesAppend(t, FieldText(v.fields, i, level, f), FieldsTail(v.fields, i + 1, level, f));
    } else {
      var b := DeepPastField(t, v, i, k, level, f);
      DiesAfter(t, FieldText(v.fields, i, level, f), b, FieldsTail(v.fields, i + 1, level, f));
    }
  }

  lemma {:induction false} DeepPastField(t: Tok, v: Json, i: nat, k: nat, level: nat, f: Flags)
    returns (b: Tok)
    requires v.Obj? && i < k < |v.fields| && WellFormed(v)
    requires |t.base| + 1 + Height(v.fields[i].value) <= t.env.maxDepth
    requires |t.base| + 1 + Height(v.fields[k].value) > t.env.maxDepth
    requires Clean(t) && BeforeField(t)
    requires t.top.current == Obj(ReparsedFields(v.fields[..i]))
    ensures Feed(t, FieldText(v.fields, i, level, f)) == Alive(b)
    ensures Dies(b, FieldsTail(v.fields, i + 1, level, f))
    decreases v, 0, 2 * (|v.fields| - i) - 1, 1
  {
    b := ReadNextField(t, v, i, level, f);
    assert |b.base| == |t.base| + 1;
    DeepAfterField(b, v, i + 1, k, level, f);
  }

  lemma {:induction false} DeepField(t: Tok, v: Json, i: nat, level: nat, f: Flags)
    requires v.Obj? && i < |v.fields| && WellFormed(v)
    requires |t.base| + 1 + Height(v.fields[i].value) > t.env.maxDepth
    requires Clean(t) && BeforeField(t)
    ensures Dies(t, FieldText(v.fields, i, level, f))
    decreases v, 0, 0
  {
    var fld := v.fields[i];
    LayoutIsWs(level, true, f);
    PrintOpens(fld.value, level + 1, f);
    var s := Print(fld.value, level + 1, f);
    var a := ReadName(t, Lead(level, f), fld.key, f);
    if |a.base| + 1 < a.env.maxDepth {
      PushChild(a, s[0]);
      DeepValue(ChildOf(a), fld.value, level + 1, f);
    }
    ChildDies(a, "", s);
    assert "" + s == s;
    DiesAfter(t, Lead(level, f) + Quoted(fld.key, f) + Colon(f), a, s);
  }

  lemma {:induction false} DeepAfterField(t: Tok, v: Json, i: nat, k: nat, level: nat, f: Flags)
    requires v.Obj? && i <= k < |v.fields| && WellFormed(v) && AfterField(t, v.fields, i)
    requires |t.base| + Height(v.fields[k].value) > t.env.maxDepth
    ensures Dies(t, FieldsTail(v.fields, i, level, f))
    decreases v, 0, 2 * (|v.fields| - i) + 1, 0
  {
    FieldAdded(t, v.fields, i);
    var a := CommaAfterChild(t, Reparsed(v.fields[i - 1].value));
    DeepFromField(a, v, i, k, level, f);
    FieldsTailMore(v.fields, i, level, f);
    DiesAfter(t, ",", a, FieldText(v.fields, i, level, f) + FieldsTail(v.fields, i + 1, level, f));
  }

  /** A printed value parses exactly when its nesting fits max_depth; otherwise the call
      ends with `nesting too deep`. */
  lemma {:induction false} ParsesIffShallow(t: Tok, v: Json, f: Flags)
    requires Ready(t) && WellFormed(v)
    ensures var r := ParseEx(t, Print(v, 0, f) + [NUL]);
            && (r.err == Success <==> Height(v) <= t.env.maxDepth)
            && (r.err != Success ==> r.err == TooDeep)
  {
    if Height(v) <= t.env.maxDepth {
      ParsePrinted(t, v, f);
    } else {
      var b := BeginCall(t);
      DeepValue(b, v, 0, f);
      DiesAppend(b, Print(v, 0, f), [NUL]);
      DiesRun(b, Print(v, 0, f) + [NUL], '\U{01}');
    }
  }

  // ---- success ------------------------------------------------------------------------

  /** Leaving the loop with success happens in the finish state at depth 0 only. */
  lemma {:induction false} OutSuccess(t: Tok, c: char)
    requires Valid(t) && Char(t, c).Out? && Char(t, c).err == Success
    ensures Char(t, c).t.base == [] && Char(t, c).t.top.state == Finish
    ensures Valid(Char(t, c).t) && (Clean(t) ==> Clean(Char(t, c).t))
    decreases Rank(t.top)
  {
    StepKeeps(t, c);
    var o := Step(t, c);
    if o.Redo? {
      OutSuccess(o.t, c);
    } else {
      StepOutSuccess(t, c);
    }
  }

  lemma {:induction false} StepOutSuccess(t: Tok, c: char)
    requires Valid(t) && Step(t, c).Out? && Step(t, c).err == Success
    ensures Step(t, c).t == t && t.base == [] && t.top.state == Finish
  {
  }

  /** A container is open: below the top level, or in it. */
  predicate Inside(t: Tok) { t.base != [] || Container(Place(t.top)) }

  /** Where a level is, looking through white space, comments and escapes. */
  function Place(l: Level): State {
    if Spacing(l.state) || l.state == StringEscape || Unicoding(l.state) then l.saved else l.state
  }

  /** Between the brackets of a container, or in a key. */
  predicate Container(s: State) {
    || s == Array || s == ArrayAfterSep || s == ArraySep || s == InField
    || s == FieldStart || s == FieldStartAfterSep || s == FieldEnd || s == ObjValue || s == ObjSep
  }

  /** A level that has its value, followed by no more than white space and comments. */
  predicate HasValue(l: Level) { l.state == Finish || l.saved == Finish }

  /** A comment after a finished element. */
  predicate CommentAfterElement(t: Tok) { Commenting(t.top.state) && t.top.saved == Finish }

  /** What NUL does inside a container: no success by itself, and only such a comment is
      left with `finish` as the state to come. */
  predicate NulKept(t: Tok, o: Outcome) {
    && (o.Redo? ==> Inside(o.t) && !Commenting(o.t.top.state))
    && (o.Out? ==> o.err != Success)
    && (o.Next? ==> (o.t.top.saved == Finish <==> CommentAfterElement(t))
                    && (CommentAfterElement(t) ==> CommentAfterElement(o.t) && o.t.base == t.base))
  }

  lemma {:induction false} NulToken(t: Tok)
    requires Valid(t) && Inside(t) && (t.top.state == Start || t.top.state == Finish || Wording(t.top.state))
    ensures NulKept(t, StepToken(t, NUL)) == true
  {
  }

  lemma {:induction false} NulStep(t: Tok)
    requires Valid(t) && Inside(t)
    ensures NulKept(t, Step(t, NUL)) == true
  {
    var s := t.top.state;
    if !Quoting(s) && (s == Start || s == Finish || Wording(s)) {
      NulToken(t);
    }
  }

  lemma {:induction false} NulChar(t: Tok)
    requires Valid(t) && Inside(t)
    ensures var o := Char(t, NUL);
            && (o.Out? ==> o.err != Success)
            && (o.Next? ==> (o.t.top.saved == Finish <==> CommentAfterElement(t))
                            && (CommentAfterElement(t) ==> CommentAfterElement(o.t)))
            && (CommentAfterElement(t) ==> o.Next? && o.t.base == t.base && o.t.top.current == t.top.current)
    decreases Rank(t.top)
  {
    NulStep(t);
    StepKeeps(t, NUL);
    if Step(t, NUL).Redo? {
      NulChar(Step(t, NUL).t);
    }
  }

  /** The end of the text inside an open container, exactly: NUL there is a success if and only
      if it comes in a comment that follows a finished element; the element is then returned
      as if it were the document. */
  lemma {:induction false} OpenSuccessIff(t: Tok)
    requires Valid(t) && Inside(t)
    ensures var r := ParseEx(t, [NUL]);
            && (r.err == Success <==> CommentAfterElement(t))
            && (r.err == Success ==> r.value == t.top.current)
  {
    NulChar(BeginCall(t));
  }

  lemma {:induction false} RunSuccess(t: Tok, s: string, c: char)
    requires Valid(t) && AtOut(Run(t, s, c)) == Success
    ensures var e := Run(t, s, c);
            HasValue(e.t.top) && (!Inside(e.t) || (e.c == NUL && CommentAfterElement(e.t)))
    decreases |s|
  {
    if s != "" {
      var o := Char(t, s[0]);
      if o.Out? {
        OutSuccess(t, s[0]);
      } else if s[0] != NUL {
        RunSuccess(o.t, s[1..], s[0]);
      } else if Inside(o.t) {
        NulOpen(t);
      }
    }
  }

  lemma {:induction false} NulOpen(t: Tok)
    requires Valid(t) && Char(t, NUL).Next? && Char(t, NUL).t.base != [] && Char(t, NUL).t.top.saved == Finish
    ensures CommentAfterElement(Char(t, NUL).t)
  {
    if Inside(t) { NulChar(t); } else { NulOutside(t); }
  }

  predicate StaysOutside(o: Outcome) { (o.Redo? ==> !Inside(o.t)) && (o.Next? ==> o.t.base == []) }

  lemma {:induction false} NulOutsideToken(t: Tok)
    requires Valid(t) && !Inside(t) && (t.top.state == Start || t.top.state == Finish || Wording(t.top.state))
    ensures StaysOutside(StepToken(t, NUL)) == true
  {
  }

  lemma {:induction false} NulOutsideStep(t: Tok)
    requires Valid(t) && !Inside(t)
    ensures StaysOutside(Step(t, NUL)) == true
  {
    var s := t.top.state;
    if !Quoting(s) && (s == Start || s == Finish || Wording(s)) {
      NulOutsideToken(t);
    }
  }

  /** Outside every container NUL opens none. */
  lemma {:induction false} NulOutside(t: Tok)
    requires Valid(t) && !Inside(t) && Char(t, NUL).Next?
    ensures Char(t, NUL).t.base == []
    decreases Rank(t.top)
  {
    StepKeeps(t, NUL);
    NulOutsideStep(t);
    if Step(t, NUL).Redo? {
      NulOutside(Step(t, NUL).t);
    }
  }

  /** A call that succeeds has its value and has closed every container, unless the NUL came
      in a comment after a finished element. */
  lemma {:induction false} SuccessClosesAll(t: Tok, chunk: string)
    requires Valid(t) && ParseEx(t, chunk).err == Success
    ensures var e := Run(BeginCall(t), chunk, '\U{01}');
            HasValue(e.t.top) && (!Inside(e.t) || (e.c == NUL && CommentAfterElement(e.t)))
  {
    RunSuccess(BeginCall(t), chunk, '\U{01}');
  }

  /** The same for a whole text: where the text without its NUL leaves a container open, the
      NUL makes it a success if and only if the text ends in such a comment. */
  lemma {:induction false} OpenTextSuccessIff(t: Tok, text: string)
    requires Valid(t) && ParseEx(t, text).err == Continue && Inside(ParseEx(t, text).t)
    ensures ParseEx(t, text + [NUL]).err == Success <==> CommentAfterElement(ParseEx(t, text).t)
  {
    var x := ParseEx(t, text).t;
    CallSplit(t, text, [NUL]);
    NulChar(x);
  }

  /** A comment begins right after the number 1. */
  lemma {:induction false} CommentAfterOne(t: Tok) returns (u: Tok)
    requires Valid(t) && t.top.state == Number && t.w.pb == "1" && !t.w.isDouble && !t.env.strict
    ensures Valid(u) && Char(t, '/') == Next(u) && u.base == t.base
    ensures u.top.state == CommentStart && u.top.saved == Finish && u.top.current == Int64(1)
  {
    assert FinishNumber("1", false) == (true, Int64(1)) by {
      assert "1"[1..] == "" && DigitPrefix("1") == "1" && DigitsValue("1") == 1;
    }
    var d := Done(t, Int64(1));
    RedoChar(t, '/', d);
    StepKeeps(d, '/');
    u := To(d.(w := d.w.(pb := "/")), CommentStart);
  }

  lemma {:induction false} OneInArray(t: Tok, rest: string) returns (n: Tok)
    requires Ready(t) && t.env.maxDepth >= 2
    ensures Valid(n) && |n.base| == 1 && n.env == t.env
    ensures n.top.state == Number && n.w.pb == "1" && !n.w.isDouble
    ensures Run(t, ['['] + (['1'] + rest), '\U{01}') == Run(n, rest, '1')
  {
    var a := OpenArray(t);
    PushChild(a, '1');
    Begins(ChildOf(a), '1');
    n := Begun(ChildOf(a), '1');
    RunOne(t, '[', ['1'] + rest, '\U{01}', a);
    RunOne(a, '1', rest, '[', n);
  }

  lemma {:induction false} CommentEnds(n: Tok, second: char)
    requires Valid(n) && n.base != [] && n.top.state == Number && n.w.pb == "1" && !n.w.isDouble
    requires !n.env.strict && (second == '*' || second == '/')
    ensures var e := Run(n, ['/'] + ([second] + [NUL]), '1');
            AtOut(e) == Success && e.t.top.current == Int64(1) && e.t.base == n.base
  {
    var u := CommentAfterOne(n);
    var v := To(Put(u, [second]), if second == '*' then Comment else CommentEol);
    StepKeeps(u, second);
    assert Char(u, second) == Next(v);
    RunOne(n, '/', [second] + [NUL], '1', u);
    RunOne(u, second, [NUL], '/', v);
    NulChar(v);
  }

  /** "[1" and the beginning of a comment: the array is open, and the text a success. */
  lemma {:induction false} OpenComment(t: Tok, second: char)
    requires Ready(t) && BeginCall(t) == t && !t.env.strict && t.env.maxDepth >= 2
    requires second == '*' || second == '/'
    ensures var r := ParseEx(t, "[1/" + [second, NUL]);
            r.err == Success && r.value == Int64(1) && |r.t.base| == 1
  {
    var rest := ['/'] + ([second] + [NUL]);
    assert "[1/" + [second, NUL] == ['['] + (['1'] + rest);
    var n := OneInArray(t, rest);
    CommentEnds(n, second);
  }
}
