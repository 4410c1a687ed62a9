/** What a call that succeeds leaves for the next one: json_tokener_parse_ex resets the levels,
    but not the depth, so that further documents can follow. */
module NextDocument {
  import opened Json
  import opened JsonPrint
  import opened Tokener
  import opened Parsing
  import opened ParsingLimits
  import opened TokenerReset

  /** A call that succeeds stops in a state that keeps the invariants. */
  lemma {:induction false} EndKeeps(t: Tok, s: string, c: char)
    requires Valid(t) && AtOut(Run(t, s, c)) == Success
    ensures var e := Run(t, s, c); Valid(e.t) && (Clean(t) ==> Clean(e.t))
    decreases |s|
  {
    if s != "" {
      var o := Char(t, s[0]);
      if o.Out? {
        OutSuccess(t, s[0]);
      } else if s[0] != NUL {
        EndKeeps(o.t, s[1..], s[0]);
      }
    }
  }

  lemma {:induction false} ResetReady(e: Tok)
    requires Valid(e) && HasValue(e.top)
    ensures Ready(ResetLevels(e)) <==> !Inside(e) && e.w.high == 0
  {
  }

  /** Exactly when a success leaves a tokener for the next document: when it did not come inside
      an open container, and no high surrogate is left from before a reset. */
  lemma {:induction false} ReadyIff(t: Tok, chunk: string)
    requires Valid(t) && ParseEx(t, chunk).err == Success
    ensures var e := Run(BeginCall(t), chunk, '\U{01}');
            && (Ready(ParseEx(t, chunk).t) <==> !Inside(e.t) && e.t.w.high == 0)
            && (Clean(t) ==> e.t.w.high == 0)
  {
    var e := Run(BeginCall(t), chunk, '\U{01}');
    SuccessClosesAll(t, chunk);
    EndKeeps(BeginCall(t), chunk, '\U{01}');
    ResetReady(e.t);
  }

  /** The next document is then read as by a new tokener, however it is cut. */
  lemma {:induction false} NextAsNew(t: Tok, chunk: string, next: seq<string>)
    requires Clean(t) && ParseEx(t, chunk).err == Success && next != []
    requires !Inside(Run(BeginCall(t), chunk, '\U{01}').t)
    ensures Valid(ParseEx(t, chunk).t) && Valid(Init(t.env))
    ensures var q, p := ParseChunks(ParseEx(t, chunk).t, next), ParseChunks(Init(t.env), next);
            q.last == p.last && q.r.err == p.r.err && q.r.value == p.r.value
  {
    ReadyIff(t, chunk);
    TwinChunks(ParseEx(t, chunk).t, Init(t.env), next);
  }

  /** After a comment in an open array the success leaves a tokener at depth 1. */
  lemma {:induction false} CommentNotReady(t: Tok, second: char)
    requires Ready(t) && BeginCall(t) == t && !t.env.strict && t.env.maxDepth >= 2
    requires second == '*' || second == '/'
    ensures var r := ParseEx(t, "[1/" + [second, NUL]); r.err == Success && |r.t.base| == 1 && !Ready(r.t)
  {
    OpenComment(t, second);
  }

  // ---- documents in a row -----------------------------------------------------------------

  /** One call for each printed value, on one tokener: every call returns its value. */
  ghost predicate ReadsAll(t: Tok, values: seq<Json>, f: Flags)
    requires Ready(t)
    decreases |values|
  {
    values == [] ||
    var r := ParseEx(t, Print(values[0], 0, f) + [NUL]);
    r.err == Success && Equal(values[0], r.value) && Ready(r.t) && ReadsAll(r.t, values[1..], f)
  }

  lemma {:induction false} DocumentsInRow(t: Tok, values: seq<Json>, f: Flags)
    requires Ready(t)
    requires forall i :: 0 <= i < |values| ==> WellFormed(values[i]) && Height(values[i]) <= t.env.maxDepth
    ensures ReadsAll(t, values, f)
    decreases |values|
  {
    if values != [] {
      var text := Print(values[0], 0, f) + [NUL];
      var r := ParseEx(t, text);
      ParsePrinted(t, values[0], f);
      SuccessClosesAll(t, text);
      ReadyIff(t, text);
      DocumentsInRow(r.t, values[1..], f);
    }
  }
}
