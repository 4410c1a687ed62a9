/** Key quoting of the JSON5 configuration reader. */
module Json5Keys {
  import opened Json5Comments

  /** An open bracket: whether it is an object, and whether a key may come next. */
  datatype Level = Level(isObject: bool, expectKey: bool)

  const MAX_LEVELS := 128

  /** A character of the input, or a quote that was put in. */
  datatype Piece = Kept(c: char) | Added

  predicate IsAlpha(c: char) { 'a' <= c <= 'z' || 'A' <= c <= 'Z' }
  predicate KeyStart(c: char) { IsAlpha(c) || c == '_' || c == '$' }
  predicate KeyChar(c: char) { IsAlpha(c) || '0' <= c <= '9' || c == '_' || c == '$' || c == '-' }
  predicate IsSpace(c: char) { c == ' ' || '\t' <= c <= '\r' }

  // ---- what the scanner looks for ------------------------------------------------------------

  /** How many key characters a text begins with. */
  function KeyLength(s: string): (n: nat)
    ensures n <= |s|
    ensures forall i :: 0 <= i < n ==> KeyChar(s[i])
  {
    if s == [] || !KeyChar(s[0]) then 0 else 1 + KeyLength(s[1..])
  }

  /** White space and then a colon. */
  predicate Spaced(s: string) {
    s != [] && if IsSpace(s[0]) then Spaced(s[1..]) else s[0] == ':'
  }

  /** Key characters, white space and then a colon. */
  predicate Followed(s: string) {
    if s != [] && KeyChar(s[0]) then Followed(s[1..]) else Spaced(s)
  }

  predicate Expects(stack: seq<Level>) {
    stack != [] && stack[|stack| - 1].isObject && stack[|stack| - 1].expectKey
  }

  /** An unquoted key begins here. */
  predicate KeyHere(s: string, stack: seq<Level>) {
    s != [] && Expects(stack) && KeyStart(s[0]) && Followed(s[1..])
  }

  function Top(stack: seq<Level>, expectKey: bool): seq<Level> {
    if stack != [] && stack[|stack| - 1].isObject then stack[|stack| - 1 := Level(true, expectKey)] else stack
  }

  /** The brackets after a character outside strings; beyond 128 they are not recorded. */
  function Moved(c: char, stack: seq<Level>): (r: seq<Level>)
    ensures |stack| <= MAX_LEVELS ==> |r| <= MAX_LEVELS
  {
    if c == '{' || c == '[' then
      if |stack| < MAX_LEVELS then stack + [Level(c == '{', c == '{')] else stack
    else if c == '}' || c == ']' then
      if stack != [] then stack[..|stack| - 1] else stack
    else if c == ',' then Top(stack, true)
    else if c == ':' then Top(stack, false)
    else stack
  }

  function Keeps(s: string): seq<Piece> { seq(|s|, i requires 0 <= i < |s| => Kept(s[i])) }

  /** The input piece by piece, with the quotes put in. */
  function Pieces(s: string, stack: seq<Level>, q: Mode): seq<Piece>
    requires Outside(q) == q
    decreases |s|
  {
    if s == [] then []
    else if q != Code then [Kept(s[0])] + Pieces(s[1..], stack, InString(s[0], q))
    else if s[0] == '"' then [Kept('"')] + Pieces(s[1..], stack, Str)
    else if KeyHere(s, stack) then
      var n := KeyLength(s);
      [Added] + Keeps(s[..n]) + [Added] + Pieces(s[n..], stack, Code)
    else [Kept(s[0])] + Pieces(s[1..], Moved(s[0], stack), Code)
  }

  function Render(p: seq<Piece>): string {
    if p == [] then [] else [if p[0].Added? then '"' else p[0].c] + Render(p[1..])
  }

  /** The text without the quotes that were put in. */
  function Erase(p: seq<Piece>): string {
    if p == [] then [] else (if p[0].Added? then [] else [p[0].c]) + Erase(p[1..])
  }

  function Quoted(s: string, stack: seq<Level>, q: Mode): string
    requires Outside(q) == q
  {
    Render(Pieces(s, stack, q))
  }

  // ---- pieces in a row -------------------------------------------------------------------------

  lemma {:induction false} RenderConcat(a: seq<Piece>, b: seq<Piece>)
    ensures Render(a + b) == Render(a) + Render(b)
    decreases |a|
  {
    if a == [] {
      assert a + b == b;
    } else {
      assert (a + b)[1..] == a[1..] + b;
      RenderConcat(a[1..], b);
    }
  }

  lemma {:induction false} EraseConcat(a: seq<Piece>, b: seq<Piece>)
    ensures Erase(a + b) == Erase(a) + Erase(b)
    decreases |a|
  {
    if a == [] {
      assert a + b == b;
    } else {
      assert (a + b)[1..] == a[1..] + b;
      EraseConcat(a[1..], b);
    }
  }

  lemma {:induction false} KeepsSame(s: string)
    ensures Render(Keeps(s)) == s && Erase(Keeps(s)) == s
    decreases |s|
  {
    if s != [] {
      assert Keeps(s)[1..] == Keeps(s[1..]);
      KeepsSame(s[1..]);
    }
  }

  /** A quoted key as text. */
  lemma {:induction false} KeyText(key: string, rest: seq<Piece>)
    ensures Render([Added] + Keeps(key) + [Added] + rest) == ['"'] + key + ['"'] + Render(rest)
    ensures Erase([Added] + Keeps(key) + [Added] + rest) == key + Erase(rest)
  {
    KeepsSame(key);
    RenderConcat([Added] + Keeps(key) + [Added], rest);
    RenderConcat([Added] + Keeps(key), [Added]);
    RenderConcat([Added], Keeps(key));
    EraseConcat([Added] + Keeps(key) + [Added], rest);
    EraseConcat([Added] + Keeps(key), [Added]);
    EraseConcat([Added], Keeps(key));
  }

  lemma {:induction false} KeptText(c: char, rest: seq<Piece>)
    ensures Render([Kept(c)] + rest) == [c] + Render(rest)
    ensures Erase([Kept(c)] + rest) == [c] + Erase(rest)
  {
  }

  // ---- erasing and size ---------------------------------------------------------------------------

  /** Taking the added quotes away gives the input back. */
  lemma {:induction false} ErasedIsInput(s: string, stack: seq<Level>, q: Mode)
    requires Outside(q) == q
    ensures Erase(Pieces(s, stack, q)) == s
    decreases |s|
  {
    if s != [] {
      if q == Code && s[0] != '"' && KeyHere(s, stack) {
        var n := KeyLength(s);
        ErasedIsInput(s[n..], stack, Code);
        KeyText(s[..n], Pieces(s[n..], stack, Code));
        assert s[..n] + s[n..] == s;
      } else {
        var r := if q != Code then InString(s[0], q) else if s[0] == '"' then Str else Code;
        var m := if q != Code || s[0] == '"' then stack else Moved(s[0], stack);
        ErasedIsInput(s[1..], m, r);
        KeptText(s[0], Pieces(s[1..], m, r));
      }
    }
  }

  /** The output fits a buffer of three times the input. */
  lemma {:induction false} QuotedSize(s: string, stack: seq<Level>, q: Mode)
    requires Outside(q) == q
    ensures |s| <= |Quoted(s, stack, q)| <= 3 * |s|
    decreases |s|
  {
    if s != [] {
      if q == Code && s[0] != '"' && KeyHere(s, stack) {
        var n := KeyLength(s);
        QuotedSize(s[n..], stack, Code);
        KeyText(s[..n], Pieces(s[n..], stack, Code));
      } else {
        var r := if q != Code then InString(s[0], q) else if s[0] == '"' then Str else Code;
        var m := if q != Code || s[0] == '"' then stack else Moved(s[0], stack);
        QuotedSize(s[1..], m, r);
        KeptText(s[0], Pieces(s[1..], m, r));
      }
    }
  }

  // ---- the code -------------------------------------------------------------------------------------

  lemma {:induction false} FollowedAfter(s: string, n: nat)
    requires n <= KeyLength(s)
    ensures Followed(s) == Followed(s[n..])
    decreases n
  {
    if n > 0 {
      FollowedAfter(s[1..], n - 1);
      assert s[1..][n - 1..] == s[n..];
    } else {
      assert s[0..] == s;
    }
  }

  lemma {:induction false} KeyLengthIs(s: string, n: nat)
    requires n <= |s| && forall i :: 0 <= i < n ==> KeyChar(s[i])
    requires n < |s| ==> !KeyChar(s[n])
    ensures KeyLength(s) == n
    decreases n
  {
    if n > 0 {
      KeyLengthIs(s[1..], n - 1);
    }
  }

  /** The two look-ahead loops: the end of the key, and whether a colon comes after it. */
  method ScanKey(text: string, start: nat) returns (end: nat, isKey: bool)
    requires start < |text| && KeyStart(text[start])
    ensures end == start + KeyLength(text[start..]) && start < end <= |text|
    ensures isKey == Followed(text[start + 1..])
  {
    end := start + 1;
    while end < |text| && KeyChar(text[end])
      invariant start < end <= |text|
      invariant forall i :: start <= i < end ==> KeyChar(text[i])
    {
      end := end + 1;
    }
    ghost var s := text[start..];
    KeyLengthIs(s, end - start);
    FollowedAfter(s, 1);
    FollowedAfter(s, end - start);
    assert s[1..] == text[start + 1..] && s[end - start..] == text[end..];
    isKey := ScanColon(text, end);
  }

  method ScanColon(text: string, from: nat) returns (colon: bool)
    requires from <= |text|
    ensures colon == Spaced(text[from..])
  {
    var p := from;
    while p < |text| && IsSpace(text[p])
      invariant from <= p <= |text| && Spaced(text[from..]) == Spaced(text[p..])
    {
      assert text[p..][1..] == text[p + 1..];
      p := p + 1;
    }
    return p < |text| && text[p] == ':';
  }

  /** One character that stays as it is. */
  lemma {:induction false} Keep(text: string, i: nat, out: string, stack: seq<Level>, q: Mode)
    requires i < |text| && Outside(q) == q
    requires q == Code && text[i] != '"' ==> !KeyHere(text[i..], stack)
    ensures var r := if q != Code then InString(text[i], q) else if text[i] == '"' then Str else Code;
            var m := if q != Code || text[i] == '"' then stack else Moved(text[i], stack);
            out + Quoted(text[i..], stack, q) == (out + [text[i]]) + Quoted(text[i + 1..], m, r)
  {
  }

  /** A key that is quoted. */
  lemma {:induction false} Wrap(text: string, i: nat, out: string, stack: seq<Level>)
    requires i < |text| && text[i] != '"' && KeyHere(text[i..], stack)
    ensures var n := KeyLength(text[i..]);
            i + n <= |text| && out + Quoted(text[i..], stack, Code)
            == (out + ['"'] + text[i..i + n] + ['"']) + Quoted(text[i + n..], stack, Code)
  {
    var s, n := text[i..], KeyLength(text[i..]);
    assert s[..n] == text[i..i + n] && s[n..] == text[i + n..];
    KeyText(s[..n], Pieces(s[n..], stack, Code));
  }

  /** quote_json5_keys */
  method QuoteKeys(text: string) returns (out: string)
    ensures out == Quoted(text, [], Code)
    ensures |out| <= 3 * |text|
  {
    out := "";
    var stack: seq<Level> := [];
    var inString, escape := false, false;
    var i := 0;
    assert text[0..] == text;
    while i < |text|
      invariant 0 <= i <= |text| && |stack| <= MAX_LEVELS && (escape ==> inString)
      invariant Quoted(text, [], Code) == out + Quoted(text[i..], stack, ModeOf(inString, escape))
      decreases |text| - i
    {
      var c := text[i];
      if inString {
        Keep(text, i, out, stack, ModeOf(inString, escape));
        inString, escape := StringChar(c, escape);
      } else if c == '"' {
        Keep(text, i, out, stack, Code);
        inString := true;
      } else if Expects(stack) && KeyStart(c) {
        var end, isKey := ScanKey(text, i);
        assert text[i..][1..] == text[i + 1..];
        if isKey {
          Wrap(text, i, out, stack);
          out := out + ['"'] + text[i..end] + ['"'];
          i := end;
          continue;
        }
        Keep(text, i, out, stack, Code);
      } else {
        Keep(text, i, out, stack, Code);
        stack := Moved(c, stack);
      }
      out := out + [c];
      i := i + 1;
    }
    QuotedSize(text, [], Code);
  }

  // ---- quoting twice ----------------------------------------------------------------------------------

  /** White space and key characters are no brackets, commas or colons. */
  lemma {:induction false} MovedSame(c: char, stack: seq<Level>)
    requires KeyChar(c) || IsSpace(c)
    ensures Moved(c, stack) == stack
  {
  }

  lemma {:induction false} QuotedFirst(t: string, stack: seq<Level>)
    requires t != [] && !KeyStart(t[0])
    ensures Quoted(t, stack, Code) ==
            [t[0]] + Quoted(t[1..], if t[0] == '"' then stack else Moved(t[0], stack), if t[0] == '"' then Str else Code)
  {
  }

  lemma {:induction false} SpacedKept(t: string, stack: seq<Level>)
    requires !Spaced(t)
    ensures !Spaced(Quoted(t, stack, Code))
    decreases |t|
  {
    if t != [] {
      if IsSpace(t[0]) {
        MovedSame(t[0], stack);
        SpacedKept(t[1..], stack);
        QuotedFirst(t, stack);
        assert ([t[0]] + Quoted(t[1..], stack, Code))[1..] == Quoted(t[1..], stack, Code);
      } else {
        QuotedHead(t, stack);
      }
    }
  }

  /** The output begins like the input, or with an added quote. */
  lemma {:induction false} QuotedHead(t: string, stack: seq<Level>)
    requires t != []
    ensures var r := Quoted(t, stack, Code); r != [] && (r[0] == t[0] || r[0] == '"')
  {
  }

  /** Quoting later keys makes no key of what was none. */
  lemma {:induction false} FollowedKept(t: string, stack: seq<Level>)
    requires Expects(stack) && !Followed(t)
    ensures !Followed(Quoted(t, stack, Code))
    decreases |t|
  {
    if t != [] {
      if KeyChar(t[0]) {
        MovedSame(t[0], stack);
        FollowedKept(t[1..], stack);
        var rest := Quoted(t[1..], stack, Code);
        KeptText(t[0], Pieces(t[1..], stack, Code));
        assert Quoted(t, stack, Code) == [t[0]] + rest;
        assert ([t[0]] + rest)[1..] == rest;
      } else {
        SpacedKept(t, stack);
        QuotedFirst(t, stack);
      }
    }
  }

  /** Inside a string a run of key characters up to a quote passes unchanged. */
  lemma {:induction false} StringPasses(key: string, rest: string, stack: seq<Level>)
    requires forall i :: 0 <= i < |key| ==> KeyChar(key[i])
    ensures Quoted(key + ['"'] + rest, stack, Str) == key + ['"'] + Quoted(rest, stack, Code)
    decreases |key|
  {
    var s := key + ['"'] + rest;
    if key == [] {
      assert s[1..] == rest;
      KeptText('"', Pieces(rest, stack, Code));
    } else {
      assert s[1..] == key[1..] + ['"'] + rest;
      StringPasses(key[1..], rest, stack);
      KeptText(s[0], Pieces(s[1..], stack, Str));
    }
  }

  lemma {:induction false} QuotedStays(s: string, stack: seq<Level>, q: Mode)
    requires Outside(q) == q
    ensures Quoted(Quoted(s, stack, q), stack, q) == Quoted(s, stack, q)
    decreases |s|
  {
    if s != [] {
      if q == Code && s[0] != '"' && KeyHere(s, stack) {
        KeyStays(s, stack);
      } else {
        CharStays(s, stack, q);
      }
    }
  }

  lemma {:induction false} KeyStays(s: string, stack: seq<Level>)
    requires s != [] && s[0] != '"' && KeyHere(s, stack)
    ensures Quoted(Quoted(s, stack, Code), stack, Code) == Quoted(s, stack, Code)
    decreases |s|, 0
  {
    var n := KeyLength(s);
    var key, rest := s[..n], Quoted(s[n..], stack, Code);
    KeyText(key, Pieces(s[n..], stack, Code));
    QuotedStays(s[n..], stack, Code);
    KeyAgain(key, rest, stack);
  }

  /** A quoted key is a string to the second pass. */
  lemma {:induction false} KeyAgain(key: string, rest: string, stack: seq<Level>)
    requires (forall i :: 0 <= i < |key| ==> KeyChar(key[i])) && Quoted(rest, stack, Code) == rest
    ensures Quoted(['"'] + key + ['"'] + rest, stack, Code) == ['"'] + key + ['"'] + rest
  {
    StringPasses(key, rest, stack);
    StringOpens(key + ['"'] + rest, stack);
    assert ['"'] + (key + ['"'] + rest) == ['"'] + key + ['"'] + rest;
  }

  lemma {:induction false} StringOpens(t: string, stack: seq<Level>)
    ensures Quoted(['"'] + t, stack, Code) == ['"'] + Quoted(t, stack, Str)
  {
  }

  lemma {:induction false} CharStays(s: string, stack: seq<Level>, q: Mode)
    requires s != [] && Outside(q) == q && !(q == Code && s[0] != '"' && KeyHere(s, stack))
    ensures Quoted(Quoted(s, stack, q), stack, q) == Quoted(s, stack, q)
    decreases |s|, 0
  {
    var r := if q != Code then InString(s[0], q) else if s[0] == '"' then Str else Code;
    var m := if q != Code || s[0] == '"' then stack else Moved(s[0], stack);
    var rest := Quoted(s[1..], m, r);
    KeptText(s[0], Pieces(s[1..], m, r));
    QuotedStays(s[1..], m, r);
    var out := [s[0]] + rest;
    assert out[1..] == rest;
    if q == Code && Expects(stack) && KeyStart(s[0]) {
      MovedSame(s[0], stack);
      FollowedKept(s[1..], stack);
    }
    assert q == Code && s[0] != '"' ==> !KeyHere(out, stack);
    KeptText(s[0], Pieces(rest, m, r));
  }

  /** Quoting a text twice is quoting it once. */
  lemma {:induction false} QuoteIdempotent(s: string)
    ensures Quoted(Quoted(s, [], Code), [], Code) == Quoted(s, [], Code)
  {
    QuotedStays(s, [], Code);
  }
}
