/** Whole calls of json_tokener_parse_ex on printed text: the round trip, and its
    independence of how the text is cut into chunks. */
module Parsing {
  import opened Json
  import opened JsonPrint
  import opened Tokener
  import opened TokenerFeed
  import opened RoundTrip

  // ---- calls and feeds --------------------------------------------------------

  function LastOf(s: string, c: char): char { if s == "" then c else s[|s| - 1] }

  lemma {:induction false} RunOne(t: Tok, c: char, rest: string, x: char, u: Tok)
    requires Valid(t) && c != NUL && Char(t, c) == Next(u)
    ensures Valid(u) && Run(t, [c] + rest, x) == Run(u, rest, c)
  {
    assert ([c] + rest)[1..] == rest;
  }

  lemma {:induction false} RunFeed(t: Tok, a: string, b: string, c: char)
    requires Clean(t) && Feed(t, a).Alive?
    ensures Run(t, a + b, c) == Run(Feed(t, a).t, b, LastOf(a, c))
    decreases |a|
  {
    if a == "" {
      assert a + b == b;
    } else {
      assert (a + b)[1..] == a[1..] + b;
      RunFeed(Char(t, a[0]).t, a[1..], b, a[0]);
    }
  }

  lemma {:induction false} FeedNoNul(t: Tok, s: string)
    requires Clean(t) && Feed(t, s).Alive?
    ensures NUL !in s
    decreases |s|
  {
    if s != "" {
      FeedNoNul(Char(t, s[0]).t, s[1..]);
      assert s == [s[0]] + s[1..];
    }
  }

  // ---- a new call forgets only the number locals --------------------------------

  /** On a calm character a number does not notice that its locals were rebuilt. */
  lemma {:induction false} NumberForgets(t: Tok, c: char)
    requires Clean(t) && t.top.state == Number && Calm(t, c)
    ensures Clean(BeginCall(t))
    ensures var a, b := Step(t, c), Step(BeginCall(t), c);
            if IsDigit(c) then a.Next? && b.Next? && BeginCall(a.t) == BeginCall(b.t)
            else (a == b || (a.Out? && b.Out?))
  {
  }

  /** Two states that differ in number locals only stay so. */
  lemma {:induction false} CharForgets(t: Tok, u: Tok, c: char)
    requires Clean(t) && Clean(u) && BeginCall(t) == BeginCall(u)
    requires Calm(t, c) && Char(t, c).Next?
    ensures Calm(u, c) && Char(u, c).Next? && BeginCall(Char(u, c).t) == BeginCall(Char(t, c).t)
  {
    if t.top.state == Number {
      NumberForgets(t, c);
      NumberForgets(u, c);
      StepKeeps(t, c);
      StepKeeps(u, c);
    } else {
      assert t == BeginCall(t) && u == BeginCall(u);
    }
  }

  lemma {:induction false} FeedForgets(t: Tok, u: Tok, s: string)
    requires Clean(t) && Clean(u) && BeginCall(t) == BeginCall(u) && Feed(t, s).Alive?
    ensures Feed(u, s).Alive? && BeginCall(Feed(u, s).t) == BeginCall(Feed(t, s).t)
    decreases |s|
  {
    if s != "" {
      CharForgets(t, u, s[0]);
      FeedForgets(Char(t, s[0]).t, Char(u, s[0]).t, s[1..]);
    }
  }

  // ---- where a call may stop ----------------------------------------------------

  /** After a complete value only white space can be fed. */
  lemma {:induction false} CompleteFeedsWs(t: Tok, s: string)
    requires Clean(t) && Complete(t) && Feed(t, s).Alive?
    ensures AllWs(s)
    decreases |s|
  {
    if s != "" {
      if IsWs(s[0]) {
        NextStep(t, s[0], t);
        CompleteFeedsWs(t, s[1..]);
        assert s == [s[0]] + s[1..];
      } else {
        CompleteStops(t, s[0]);
        assert false;
      }
    }
  }

  /** The next character after a complete value ends the call successfully. */
  lemma {:induction false} CompleteStops(t: Tok, c: char)
    requires Clean(t) && Complete(t) && !IsWs(c) && c != '/'
    ensures Char(t, c) == Out(Success, To(t, Finish))
  {
  }

  lemma {:induction false} PrintEnds(v: Json, level: nat, f: Flags)
    ensures var s := Print(v, level, f); s != "" && !IsWs(s[|s| - 1])
  {
  }

  lemma {:induction false} FinishStops(t: Tok, c: char)
    requires Clean(t) && t.top.state == Finish && t.base == []
    ensures Char(t, c).Out?
  {
  }

  /** In the middle of a text that does not end in white space a call asks for more. */
  lemma {:induction false} MidTextContinues(t: Tok, s: string)
    requires Clean(t) && Feed(t, s).Alive? && s != "" && !IsWs(s[|s| - 1])
    ensures !Complete(t) && (t.top.state == Finish ==> t.base != [])
  {
    if Complete(t) {
      CompleteFeedsWs(t, s);
      assert false;
    }
    if t.top.state == Finish && t.base == [] {
      FinishStops(t, s[0]);
      assert false;
    }
  }

  // ---- one call on the whole text -----------------------------------------------

  /** A tokener between two documents. */
  ghost predicate Ready(t: Tok) { Clean(t) && t.base == [] && t.top == FRESH }

  /** NUL after a finished top-level value: success. */
  lemma {:induction false} SettledNul(t: Tok, v: Json, c: char)
    requires Clean(t) && t.base == [] && Settled(t, v)
    ensures var e := Run(t, [NUL], c);
            AtOut(e) == Success && e.t.top.current == v && e.t.base == [] && e.t.env == t.env
  {
    SettledDelim(t, NUL, v);
    CompleteStops(SettledBy(t, NUL, v), NUL);
  }

  /** json_tokener_parse_ex of a printed value returns an equal value. */
  lemma {:induction false} ParsePrinted(t: Tok, v: Json, f: Flags)
    requires Ready(t) && WellFormed(v) && Height(v) <= t.env.maxDepth
    ensures var r := ParseEx(t, Print(v, 0, f) + [NUL]);
            r.err == Success && r.value == Reparsed(v) && Equal(v, r.value) && r.t.base == []
  {
    var s := Print(v, 0, f);
    var b := BeginCall(t);
    var t' := ReadValue(b, v, 0, f);
    RunFeed(b, s, [NUL], '\U{01}');
    SettledNul(t', Reparsed(v), LastOf(s, '\U{01}'));
    ReparsedIsEqual(v);
  }

  // ---- the text in chunks ---------------------------------------------------------

  function Concat(chunks: seq<string>): string {
    if chunks == [] then "" else chunks[0] + Concat(chunks[1..])
  }

  datatype Chunked = Chunked(last: nat, r: ParseResult)

  /** Call after call until one does not return `continue`; `last` is its number. */
  function ParseChunks(t: Tok, chunks: seq<string>): Chunked
    requires Valid(t) && chunks != []
    decreases |chunks|
  {
    var r := ParseEx(t, chunks[0]);
    if r.err == Continue && |chunks| > 1 then
      var q := ParseChunks(r.t, chunks[1..]);
      q.(last := q.last + 1)
    else Chunked(0, r)
  }

  /** The call that brings the number of characters given so far to n. */
  function Reaching(chunks: seq<string>, n: nat): nat {
    if |chunks| <= 1 || |chunks[0]| >= n then 0
    else 1 + Reaching(chunks[1..], n - |chunks[0]|)
  }

  lemma {:induction false} FeedPrefix(t: Tok, a: string, b: string)
    requires Clean(t) && Feed(t, a + b).Alive?
    ensures Feed(t, a).Alive? && Feed(Feed(t, a).t, b) == Feed(t, a + b)
    decreases |a|
  {
    if a == "" {
      assert a + b == b;
    } else {
      assert (a + b)[1..] == a[1..] + b;
      FeedPrefix(Char(t, a[0]).t, a[1..], b);
    }
  }

  lemma {:induction false} FeedLast(t: Tok, s: string)
    requires Clean(t) && Feed(t, s).Alive?
    ensures LastOf(s, '\U{01}') != NUL
  {
    FeedNoNul(t, s);
  }

  /** A call that stops inside the text asks for more and loses nothing. */
  lemma {:induction false} CallInside(t: Tok, a: string, b: string)
    requires Clean(t) && BeginCall(t) == t && Feed(t, a + b).Alive?
    requires b != "" && !IsWs(b[|b| - 1])
    ensures var r := ParseEx(t, a);
            r.err == Continue && Feed(r.t, b) == Feed(t, a + b)
  {
    FeedPrefix(t, a, b);
    var u := Feed(t, a).t;
    MidTextContinues(u, b);
    RunFeed(t, a, "", '\U{01}');
    assert a + "" == a;
    FeedLast(t, a);
  }

  /** A call that gets exactly the text. */
  lemma {:induction false} CallExact(t: Tok, s: string, v: Json)
    requires Clean(t) && BeginCall(t) == t && Feed(t, s).Alive?
    requires Feed(t, s).t.base == [] && Settled(Feed(t, s).t, v)
    ensures var r := ParseEx(t, s);
            if Feed(t, s).t.top.state == Eatws then r.err == Success && r.value == v
            else r.err == Continue && r.t == Feed(t, s).t
  {
    RunFeed(t, s, "", '\U{01}');
    assert s + "" == s;
    FeedLast(t, s);
  }

  /** A call that gets the text and its terminator. */
  lemma {:induction false} CallAll(t: Tok, s: string, v: Json)
    requires Clean(t) && BeginCall(t) == t && Feed(t, s).Alive?
    requires Feed(t, s).t.base == [] && Settled(Feed(t, s).t, v)
    ensures var r := ParseEx(t, s + [NUL]);
            r.err == Success && r.value == v
  {
    RunFeed(t, s, [NUL], '\U{01}');
    SettledNul(Feed(t, s).t, v, LastOf(s, '\U{01}'));
  }

  /** From here on, `text` and NUL are still to come. */
  ghost predicate Pending(t: Tok, text: string, v: Json, selfEnding: bool) {
    && Clean(t) && Feed(t, text).Alive?
    && Feed(t, text).t.base == [] && Settled(Feed(t, text).t, v)
    && (selfEnding <==> Feed(t, text).t.top.state == Eatws)
    && (text == "" ==> !selfEnding)
    && (text != "" ==> !IsWs(text[|text| - 1]))
  }

  lemma {:induction false} PendingForgets(t: Tok, text: string, v: Json, selfEnding: bool, chunk: string)
    requires Pending(t, text, v, selfEnding)
    ensures Pending(BeginCall(t), text, v, selfEnding)
    ensures ParseEx(t, chunk) == ParseEx(BeginCall(t), chunk)
  {
    FeedForgets(t, BeginCall(t), text);
  }

  /** One call that gets only a part of the text. */
  lemma {:induction false} PendingInside(t: Tok, text: string, v: Json, selfEnding: bool, c: string, text': string)
    requires Pending(t, text, v, selfEnding) && BeginCall(t) == t
    requires text == c + text' && text' != ""
    ensures var r := ParseEx(t, c); r.err == Continue && Pending(r.t, text', v, selfEnding)
  {
    assert text'[|text'| - 1] == text[|text| - 1];
    CallInside(t, c, text');
  }

  /** One call that gets exactly the text. */
  lemma {:induction false} PendingExact(t: Tok, text: string, v: Json, selfEnding: bool)
    requires Pending(t, text, v, selfEnding) && BeginCall(t) == t
    ensures var r := ParseEx(t, text);
            if selfEnding then r.err == Success && r.value == v
            else r.err == Continue && Pending(r.t, "", v, selfEnding)
  {
    CallExact(t, text, v);
  }

  /** One call: with the NUL it ends the run, before that only if it completes a
      self-ending value. */
  lemma {:induction false} ChunkCall(t: Tok, text: string, v: Json, selfEnding: bool, c: string, rest: string)
    returns (text': string)
    requires Pending(t, text, v, selfEnding) && text + [NUL] == c + rest
    ensures text' == if |c| > |text| then "" else text[|c|..]
    ensures var r := ParseEx(t, c);
            if |c| > |text| || (|c| == |text| && selfEnding) then r.err == Success && r.value == v
            else r.err == Continue && Pending(r.t, text', v, selfEnding) && rest == text' + [NUL]
  {
    PendingForgets(t, text, v, selfEnding, c);
    var b := BeginCall(t);
    if |c| > |text| {
      text' := "";
      assert c == (c + rest)[..|text| + 1] == text + [NUL];
      CallAll(b, text, v);
    } else {
      ChunkWithin(text, c, rest);
      text' := text[|c|..];
      if text' == "" {
        assert c == text;
        PendingExact(b, text, v, selfEnding);
      } else {
        PendingInside(b, text, v, selfEnding, c, text');
      }
    }
  }

  lemma {:induction false} ChunkWithin(text: string, c: string, rest: string)
    requires text + [NUL] == c + rest && |c| <= |text|
    ensures text == c + text[|c|..] && rest == text[|c|..] + [NUL]
  {
    assert c == (text + [NUL])[..|c|];
    assert rest == (text + [NUL])[|c|..];
  }

  lemma {:induction false} ChunksFrom(t: Tok, text: string, v: Json, selfEnding: bool,
                                      chunks: seq<string>)
    requires Pending(t, text, v, selfEnding) && Concat(chunks) == text + [NUL]
    ensures chunks != []
    ensures var q := ParseChunks(t, chunks);
            q.r.err == Success && q.r.value == v
            && q.last == Reaching(chunks, if selfEnding then |text| else |text| + 1)
    decreases |chunks|
  {
    var c, rest := chunks[0], Concat(chunks[1..]);
    var text' := ChunkCall(t, text, v, selfEnding, c, rest);
    var r := ParseEx(t, c);
    if r.err == Continue {
      ChunksFrom(r.t, text', v, selfEnding, chunks[1..]);
    }
  }

  lemma {:induction false} PrintedPending(t: Tok, v: Json, f: Flags)
    requires Ready(t) && WellFormed(v) && Height(v) <= t.env.maxDepth
    ensures Pending(t, Print(v, 0, f), Reparsed(v), SelfEnding(v))
  {
    var t' := ReadValue(t, v, 0, f);
    PrintEnds(v, 0, f);
  }

  /** However the printed text and its NUL are cut into chunks, empty ones included,
      the calls return `continue` until the value is complete, and then the same value
      as one call on the whole text.  A string, array or object is already complete
      when its last character has been given, a word or number only with the NUL. */
  lemma {:induction false} ParsePrintedChunks(t: Tok, v: Json, f: Flags, chunks: seq<string>)
    requires Ready(t) && WellFormed(v) && Height(v) <= t.env.maxDepth
    requires Concat(chunks) == Print(v, 0, f) + [NUL]
    ensures chunks != []
    ensures var q := ParseChunks(t, chunks);
            && q.r.err == Success && q.r.value == ParseEx(t, Concat(chunks)).value
            && q.last == Reaching(chunks, |Print(v, 0, f)| + if SelfEnding(v) then 0 else 1)
  {
    PrintedPending(t, v, f);
    ChunksFrom(t, Print(v, 0, f), Reparsed(v), SelfEnding(v), chunks);
    assert ParseEx(t, Concat(chunks)).value == Reparsed(v) by {
      ParsePrinted(t, v, f);
    }
  }
}
