/** Comment stripping of the JSON5 configuration reader. */
module Json5Comments {

  /** Where the reader is: outside strings, in one, after a backslash in one, in a comment. */
  datatype Mode = Code | Str | Esc | Line | Block

  predicate IsBreak(c: char) { c == '\n' || c == '\r' }

  predicate Starts(s: string, a: char, b: char) { |s| >= 2 && s[0] == a && s[1] == b }

  function InString(c: char, q: Mode): Mode
    requires q == Str || q == Esc
  {
    if q == Esc then Str else if c == '\\' then Esc else if c == '"' then Code else Str
  }

  /** The text without its comments; line breaks stay. */
  function Strip(s: string, q: Mode): string {
    if s == [] then []
    else
      match q
      case Line => if IsBreak(s[0]) then [s[0]] + Strip(s[1..], Code) else Strip(s[1..], Line)
      case Block =>
        if Starts(s, '*', '/') then Strip(s[2..], Code)
        else if IsBreak(s[0]) then [s[0]] + Strip(s[1..], Block)
        else Strip(s[1..], Block)
      case Code =>
        if Starts(s, '/', '/') then Strip(s[2..], Line)
        else if Starts(s, '/', '*') then Strip(s[2..], Block)
        else [s[0]] + Strip(s[1..], if s[0] == '"' then Str else Code)
      case _ => [s[0]] + Strip(s[1..], InString(s[0], q))
  }

  // ---- the code -----------------------------------------------------------------------------

  function ModeOf(inString: bool, escape: bool): Mode {
    if !inString then Code else if escape then Esc else Str
  }

  /** One character inside a string, in both passes. */
  method StringChar(c: char, escape: bool) returns (inString: bool, escape': bool)
    ensures ModeOf(inString, escape') == InString(c, ModeOf(true, escape)) && (escape' ==> inString)
  {
    inString, escape' := true, escape;
    if escape {
      escape' := false;
    } else if c == '\\' {
      escape' := true;
    } else if c == '"' {
      inString := false;
    }
  }

  /** strip_json5_comments: the output never outgrows a buffer of the input's length. */
  method StripComments(text: string) returns (out: string)
    ensures out == Strip(text, Code)
    ensures |out| <= |text|
  {
    var inString, escape := false, false;
    out := "";
    var i := 0;
    assert text[0..] == text;
    while i < |text|
      invariant 0 <= i <= |text| && |out| <= i && (escape ==> inString)
      invariant Strip(text, Code) == out + Strip(text[i..], ModeOf(inString, escape))
      decreases |text| - i
    {
      var c := text[i];
      if inString {
        Emit(text, i, out, ModeOf(inString, escape));
        out := out + [c];
        inString, escape := StringChar(c, escape);
        i := i + 1;
      } else if c == '"' {
        Emit(text, i, out, Code);
        inString := true;
        out := out + [c];
        i := i + 1;
      } else if c == '/' && i + 1 < |text| && text[i + 1] == '/' {
        var j, kept := SkipLine(text, i + 2);
        Glue(out, kept, Strip(text[j..], Code));
        assert text[i..][2..] == text[i + 2..];
        out, i := out + kept, j;
      } else if c == '/' && i + 1 < |text| && text[i + 1] == '*' {
        var j, kept := SkipBlock(text, i + 2);
        Glue(out, kept, Strip(text[j..], Code));
        assert text[i..][2..] == text[i + 2..];
        out, i := out + kept, j;
      } else {
        Emit(text, i, out, Code);
        out := out + [c];
        i := i + 1;
      }
    }
  }

  lemma {:induction false} Glue(a: string, b: string, c: string)
    ensures a + (b + c) == (a + b) + c
  {
  }

  /** One character that is kept. */
  lemma {:induction false} Emit(text: string, i: nat, out: string, q: Mode)
    requires i < |text| && q != Line && q != Block
    requires q == Code ==> !Starts(text[i..], '/', '/') && !Starts(text[i..], '/', '*')
    ensures var r := if q != Code then InString(text[i], q) else if text[i] == '"' then Str else Code;
            out + Strip(text[i..], q) == (out + [text[i]]) + Strip(text[i + 1..], r)
  {
  }

  /** From the text of a line comment to the first character after it; the break is kept. */
  method SkipLine(text: string, from: nat) returns (i: nat, kept: string)
    requires from <= |text|
    ensures from <= i <= |text| && |kept| <= i - from
    ensures Strip(text[from..], Line) == kept + Strip(text[i..], Code)
  {
    i := from;
    while i < |text| && text[i] != '\n' && text[i] != '\r'
      invariant from <= i <= |text|
      invariant Strip(text[from..], Line) == Strip(text[i..], Line)
    {
      assert text[i..][1..] == text[i + 1..];
      i := i + 1;
    }
    kept := "";
    if i < |text| {
      assert text[i..][1..] == text[i + 1..];
      kept := [text[i]];
      i := i + 1;
    }
  }

  /** From the text of a block comment to the first character after it; breaks are kept. */
  method SkipBlock(text: string, from: nat) returns (i: nat, kept: string)
    requires from <= |text|
    ensures from <= i <= |text| && |kept| <= i - from
    ensures Strip(text[from..], Block) == kept + Strip(text[i..], Code)
  {
    i, kept := from, "";
    while i < |text| && !(text[i] == '*' && i + 1 < |text| && text[i + 1] == '/')
      invariant from <= i <= |text| && |kept| <= i - from
      invariant Strip(text[from..], Block) == kept + Strip(text[i..], Block)
    {
      assert text[i..][1..] == text[i + 1..];
      if text[i] == '\n' || text[i] == '\r' {
        Glue(kept, [text[i]], Strip(text[i + 1..], Block));
        kept := kept + [text[i]];
      }
      i := i + 1;
    }
    if i < |text| {
      assert text[i..][2..] == text[i + 2..];
      i := i + 2;
    }
  }

  // ---- what stripping gives ---------------------------------------------------------------------

  /** No comment opens outside a string. */
  predicate Clean(s: string, q: Mode)
    requires q != Line && q != Block
  {
    s == [] ||
    if q == Code then
      && !Starts(s, '/', '/') && !Starts(s, '/', '*')
      && Clean(s[1..], if s[0] == '"' then Str else Code)
    else Clean(s[1..], InString(s[0], q))
  }

  /** The mode outside comments that a mode leads to. */
  function Outside(q: Mode): Mode { if q == Line || q == Block then Code else q }

  lemma {:induction false} StripFirst(s: string)
    requires s != [] && s[0] != '/'
    ensures Strip(s, Code) != [] && Strip(s, Code)[0] == s[0]
  {
  }

  lemma {:induction false} StripIsClean(s: string, q: Mode)
    ensures Clean(Strip(s, q), Outside(q))
    decreases |s|
  {
    if s != [] {
      match q
      case Line =>
        StripIsClean(s[1..], if IsBreak(s[0]) then Code else Line);
        KeepClean(s[0], Strip(s[1..], Code));
      case Block =>
        if Starts(s, '*', '/') {
          StripIsClean(s[2..], Code);
        } else {
          StripIsClean(s[1..], Block);
          KeepClean(s[0], Strip(s[1..], Block));
        }
      case Code =>
        if Starts(s, '/', '/') {
          StripIsClean(s[2..], Line);
        } else if Starts(s, '/', '*') {
          StripIsClean(s[2..], Block);
        } else {
          CodeIsClean(s);
        }
      case _ =>
        StripIsClean(s[1..], InString(s[0], q));
        assert ([s[0]] + Strip(s[1..], InString(s[0], q)))[1..] == Strip(s[1..], InString(s[0], q));
    }
  }

  /** A kept line break before clean text. */
  lemma {:induction false} KeepClean(c: char, rest: string)
    requires IsBreak(c) ==> Clean(rest, Code)
    ensures IsBreak(c) ==> Clean([c] + rest, Code)
  {
  }

  lemma {:induction false} CodeIsClean(s: string)
    requires s != [] && !Starts(s, '/', '/') && !Starts(s, '/', '*')
    ensures Clean(Strip(s, Code), Code)
    decreases |s|, 0
  {
    var q := if s[0] == '"' then Str else Code;
    var rest := Strip(s[1..], q);
    StripIsClean(s[1..], q);
    assert ([s[0]] + rest)[1..] == rest;
    if s[0] == '/' && |s| > 1 {
      assert s[1] != '/' && s[1] != '*';
      StripFirst(s[1..]);
    }
  }

  lemma {:induction false} CleanStays(s: string, q: Mode)
    requires q != Line && q != Block && Clean(s, q)
    ensures Strip(s, q) == s
    decreases |s|
  {
    if s != [] {
      CleanStays(s[1..], if q != Code then InString(s[0], q) else if s[0] == '"' then Str else Code);
    }
  }

  /** Stripping twice is stripping once. */
  lemma {:induction false} StripIdempotent(s: string)
    ensures Clean(Strip(s, Code), Code)
    ensures Strip(Strip(s, Code), Code) == Strip(s, Code)
  {
    StripIsClean(s, Code);
    CleanStays(Strip(s, Code), Code);
  }

  /** The characters of the string literals, quotes included, as a reader that knows comments
      sees them. */
  function Literals(s: string, q: Mode): string {
    if s == [] then []
    else
      match q
      case Line => Literals(s[1..], if IsBreak(s[0]) then Code else Line)
      case Block => if Starts(s, '*', '/') then Literals(s[2..], Code) else Literals(s[1..], Block)
      case Code =>
        if Starts(s, '/', '/') then Literals(s[2..], Line)
        else if Starts(s, '/', '*') then Literals(s[2..], Block)
        else if s[0] == '"' then ['"'] + Literals(s[1..], Str)
        else Literals(s[1..], Code)
      case _ => [s[0]] + Literals(s[1..], InString(s[0], q))
  }

  /** One kept character before clean text. */
  lemma {:induction false} LiteralsKeep(c: char, rest: string, q: Mode)
    requires q != Line && q != Block
    requires q == Code ==> !Starts([c] + rest, '/', '/') && !Starts([c] + rest, '/', '*')
    ensures Literals([c] + rest, q) ==
            if q != Code then [c] + Literals(rest, InString(c, q))
            else if c == '"' then [c] + Literals(rest, Str) else Literals(rest, Code)
  {
  }

  /** Stripping leaves the string literals as they are. */
  lemma {:induction false} LiteralsKept(s: string, q: Mode)
    ensures Literals(Strip(s, q), Outside(q)) == Literals(s, q)
    decreases |s|
  {
    if s != [] {
      match q
      case Line =>
        LiteralsKept(s[1..], if IsBreak(s[0]) then Code else Line);
        if IsBreak(s[0]) { LiteralsKeep(s[0], Strip(s[1..], Code), Code); }
      case Block =>
        LiteralsKeptBlock(s);
      case Code =>
        LiteralsKeptCode(s);
      case _ =>
        LiteralsKept(s[1..], InString(s[0], q));
        LiteralsKeep(s[0], Strip(s[1..], InString(s[0], q)), q);
    }
  }

  lemma {:induction false} LiteralsKeptBlock(s: string)
    requires s != []
    ensures Literals(Strip(s, Block), Code) == Literals(s, Block)
    decreases |s|, 0
  {
    if Starts(s, '*', '/') {
      LiteralsKept(s[2..], Code);
    } else {
      LiteralsKept(s[1..], Block);
      if IsBreak(s[0]) { LiteralsKeep(s[0], Strip(s[1..], Block), Code); }
    }
  }

  lemma {:induction false} LiteralsKeptCode(s: string)
    requires s != []
    ensures Literals(Strip(s, Code), Code) == Literals(s, Code)
    decreases |s|, 0
  {
    if Starts(s, '/', '/') {
      LiteralsKept(s[2..], Line);
    } else if Starts(s, '/', '*') {
      LiteralsKept(s[2..], Block);
    } else {
      var q := if s[0] == '"' then Str else Code;
      LiteralsKept(s[1..], q);
      CodeIsClean(s);
      LiteralsKeep(s[0], Strip(s[1..], q), Code);
    }
  }

  /** The line breaks of a text. */
  function Breaks(s: string): string {
    if s == [] then [] else (if IsBreak(s[0]) then [s[0]] else []) + Breaks(s[1..])
  }

  lemma {:induction false} BreaksCons(c: char, rest: string)
    ensures Breaks([c] + rest) == (if IsBreak(c) then [c] else []) + Breaks(rest)
  {
  }

  lemma {:induction false} BreaksDrop(s: string)
    requires |s| >= 2 && !IsBreak(s[0]) && !IsBreak(s[1])
    ensures Breaks(s) == Breaks(s[2..])
  {
  }

  /** Every line break stays: positions keep their line numbers. */
  lemma {:induction false} BreaksKept(s: string, q: Mode)
    ensures Breaks(Strip(s, q)) == Breaks(s)
    decreases |s|
  {
    if s != [] {
      if (q == Code && (Starts(s, '/', '/') || Starts(s, '/', '*'))) || (q == Block && Starts(s, '*', '/')) {
        BreaksKept(s[2..], if q == Block then Code else if s[1] == '/' then Line else Block);
        BreaksDrop(s);
      } else {
        var r := if q == Line then (if IsBreak(s[0]) then Code else Line)
                 else if q == Block then Block
                 else if q == Code then (if s[0] == '"' then Str else Code)
                 else InString(s[0], q);
        BreaksKept(s[1..], r);
        BreaksCons(s[0], Strip(s[1..], r));
      }
    }
  }
}
