/** The delimiter check over HCL sources: strings and comments are skipped, brackets must balance. */
module Hcl {
  import opened Basics

  // ---------------------------------------------------------------- the grammar

  datatype Bracket = Brace | Square | Round

  function Opening(b: Bracket): char {
    match b
    case Brace => '{'
    case Square => '['
    case Round => '('
  }

  function Closing(b: Bracket): char {
    match b
    case Brace => '}'
    case Square => ']'
    case Round => ')'
  }

  function Opens(c: char): Option<Bracket> {
    if c == '{' then Some(Brace) else if c == '[' then Some(Square) else if c == '(' then Some(Round) else None
  }

  predicate Closes(c: char) {
    c == '}' || c == ']' || c == ')'
  }

  /** A balanced word: nothing, or a bracketed word followed by a word. */
  datatype Word = Empty | Pair(bracket: Bracket, inner: Word, rest: Word)

  function Yield(w: Word): string {
    match w
    case Empty => ""
    case Pair(b, inner, rest) => [Opening(b)] + Yield(inner) + [Closing(b)] + Yield(rest)
  }

  ghost predicate Balanced(s: string) {
    exists w :: Yield(w) == s
  }

  // ---------------------------------------------------------------- erasing strings and comments

  predicate Comment(s: string) {
    s != "" && (s[0] == '#' || (s[0] == '/' && |s| > 1 && s[1] == '/'))
  }

  predicate Block(s: string) {
    |s| > 1 && s[0] == '/' && s[1] == '*'
  }

  /** The delimiters of a text in code, or nothing if it ends inside a string or a block comment. */
  function Code(s: string): Option<string>
    decreases |s|
  {
    if s == "" then Some("")
    else if s[0] == '"' then Quoted(s[1..])
    else if Comment(s) then Line(s[1..])
    else if Block(s) then Blocked(s[2..])
    else if Opens(s[0]).Some? || Closes(s[0]) then Prepended(s[0], Code(s[1..]))
    else Code(s[1..])
  }

  function Prepended(c: char, rest: Option<string>): Option<string> {
    match rest
    case None => None
    case Some(w) => Some([c] + w)
  }

  /** Inside a string: a backslash takes the next character with it. */
  function Quoted(s: string): Option<string>
    decreases |s|
  {
    if s == "" then None
    else if s[0] == '\\' then if |s| == 1 then None else Quoted(s[2..])
    else if s[0] == '"' then Code(s[1..])
    else Quoted(s[1..])
  }

  function Line(s: string): Option<string>
    decreases |s|
  {
    if s == "" then Some("")
    else if s[0] == '\n' then Code(s[1..])
    else Line(s[1..])
  }

  function Blocked(s: string): Option<string>
    decreases |s|
  {
    if s == "" then None
    else if |s| > 1 && s[0] == '*' && s[1] == '/' then Code(s[2..])
    else Blocked(s[1..])
  }

  // ---------------------------------------------------------------- the stack automaton

  /** Closers still expected, the next one last. */
  function Run(s: string, stack: seq<char>): Option<seq<char>>
    decreases |s|
  {
    if s == "" then Some(stack)
    else if Opens(s[0]).Some? then Run(s[1..], stack + [Closing(Opens(s[0]).value)])
    else if stack != [] && stack[|stack| - 1] == s[0] then Run(s[1..], stack[..|stack| - 1])
    else None
  }

  lemma {:induction false} RunYield(w: Word, rest: string, stack: seq<char>)
    ensures Run(Yield(w) + rest, stack) == Run(rest, stack)
    decreases w
  {
    match w
    case Empty => assert "" + rest == rest;
    case Pair(b, inner, more) =>
      var tail := [Closing(b)] + (Yield(more) + rest);
      var s := Yield(w) + rest;
      assert s[0] == Opening(b) && s[1..] == Yield(inner) + tail;
      var pushed := stack + [Closing(b)];
      RunYield(inner, tail, pushed);
      assert tail[0] == Closing(b) && tail[1..] == Yield(more) + rest;
      assert pushed[..|pushed| - 1] == stack;
      RunYield(more, rest, stack);
  }

  /** Balanced words with the expected closers between them. */
  function Joined(words: seq<Word>, stack: seq<char>): string
    requires |words| == |stack| + 1
    decreases |stack|
  {
    if stack == [] then Yield(words[0])
    else Yield(words[0]) + [stack[|stack| - 1]] + Joined(words[1..], stack[..|stack| - 1])
  }

  predicate Closers(stack: seq<char>) {
    forall i :: 0 <= i < |stack| ==> Closes(stack[i])
  }

  /** A word that empties the stack is balanced words joined by the closers it held. */
  lemma {:induction false} RunSplits(s: string, stack: seq<char>) returns (words: seq<Word>)
    requires Run(s, stack) == Some([]) && Closers(stack)
    ensures |words| == |stack| + 1 && Joined(words, stack) == s
    decreases |s|
  {
    if s == "" {
      words := [Empty];
    } else if Opens(s[0]).Some? {
      var b := Opens(s[0]).value;
      var pushed := stack + [Closing(b)];
      var inner := RunSplits(s[1..], pushed);
      assert pushed[..|pushed| - 1] == stack;
      var first := Pair(b, inner[0], inner[1]);
      words := [first] + inner[2..];
      Regroup(first, inner, stack);
      assert s == [s[0]] + s[1..];
    } else {
      var popped := stack[..|stack| - 1];
      var rest := RunSplits(s[1..], popped);
      words := [Empty] + rest;
      assert words[1..] == rest;
      assert s == [s[0]] + s[1..];
    }
  }

  /** What follows the first word. */
  function After(words: seq<Word>, stack: seq<char>): string
    requires |words| == |stack|
  {
    if stack == [] then "" else [stack[|stack| - 1]] + Joined(words, stack[..|stack| - 1])
  }

  lemma Peel(words: seq<Word>, stack: seq<char>)
    requires |words| == |stack| + 1
    ensures Joined(words, stack) == Yield(words[0]) + After(words[1..], stack)
  {
  }

  lemma Shift(o: string, x: string, c: string, y: string, more: string)
    ensures o + x + c + y + more == o + (x + (c + (y + more)))
  {
  }

  lemma Regroup(first: Word, inner: seq<Word>, stack: seq<char>)
    requires |inner| == |stack| + 2 && first.Pair? && first == Pair(first.bracket, inner[0], inner[1])
    ensures Joined([first] + inner[2..], stack)
         == [Opening(first.bracket)] + Joined(inner, stack + [Closing(first.bracket)])
  {
    var c := Closing(first.bracket);
    var pushed := stack + [c];
    var words := [first] + inner[2..];
    assert words[1..] == inner[2..] && inner[1..][1..] == inner[2..] && pushed[..|pushed| - 1] == stack;
    var more := After(inner[2..], stack);
    Peel(words, stack);
    Peel(inner, pushed);
    Peel(inner[1..], stack);
    Shift([Opening(first.bracket)], Yield(inner[0]), [c], Yield(inner[1]), more);
  }

  /** The automaton accepts exactly the balanced words. */
  lemma RunExact(s: string)
    ensures Run(s, []) == Some([]) <==> Balanced(s)
  {
    if Run(s, []) == Some([]) {
      var words := RunSplits(s, []);
      assert Yield(words[0]) == s;
    }
    forall w | Yield(w) == s ensures Run(s, []) == Some([]) {
      RunYield(w, "", []);
      assert Yield(w) + "" == s;
    }
  }

  // ---------------------------------------------------------------- the loop

  datatype Mode = InCode | InString(escaped: bool) | InLine | InBlock

  function Rest(mode: Mode, s: string): Option<string> {
    match mode
    case InCode => Code(s)
    case InString(escaped) => if !escaped then Quoted(s) else if s == "" then None else Quoted(s[1..])
    case InLine => Line(s)
    case InBlock => Blocked(s)
  }

  /** Whether the check passes from a state of the loop on. */
  ghost predicate Passes(mode: Mode, stack: seq<char>, s: string) {
    Rest(mode, s).Some? && Run(Rest(mode, s).value, stack) == Some([])
  }

  lemma CodeStep(s: string, i: nat)
    requires i < |s|
    ensures s[i..][0] == s[i] && s[i..][1..] == s[i + 1..]
    ensures i + 1 < |s| ==> s[i..][1] == s[i + 1] && s[i..][2..] == s[i + 2..]
  {
  }

  /** `checkHclStructure` up to its two closing patterns. */
  method CheckStructure(text: string) returns (ok: bool)
    ensures ok <==> Code(text).Some? && Balanced(Code(text).value)
  {
    var stack: seq<char>, quoted, escaped, lineComment, blockComment := [], false, false, false, false;
    ghost var mode := InCode;
    var i := 0;
    assert text[0..] == text;
    while i < |text|
      invariant 0 <= i <= |text|
      invariant mode == if lineComment then InLine
                        else if blockComment then InBlock
                        else if quoted then InString(escaped)
                        else InCode
      invariant escaped ==> quoted
      invariant !(quoted && lineComment) && !(quoted && blockComment) && !(lineComment && blockComment)
      invariant Passes(InCode, [], text) <==> Passes(mode, stack, text[i..])
    {
      CodeStep(text, i);
      var c := text[i];
      var next := if i + 1 < |text| then Some(text[i + 1]) else None;
      if lineComment {
        if c == '\n' {
          lineComment := false;
        }
      } else if blockComment {
        if c == '*' && next == Some('/') {
          blockComment := false;
          i := i + 1;
        }
      } else if quoted {
        if escaped {
          escaped := false;
        } else if c == '\\' {
          escaped := true;
        } else if c == '"' {
          quoted := false;
        }
      } else if c == '"' {
        quoted := true;
      } else if c == '#' || (c == '/' && next == Some('/')) {
        lineComment := true;
      } else if c == '/' && next == Some('*') {
        blockComment := true;
        i := i + 1;
      } else if Opens(c).Some? {
        PrependedRuns(c, Code(text[i + 1..]), stack);
        stack := stack + [Closing(Opens(c).value)];
      } else if Closes(c) {
        PrependedRuns(c, Code(text[i + 1..]), stack);
        if stack == [] || stack[|stack| - 1] != c {
          NotPassed(text);
          return false;
        }
        stack := stack[..|stack| - 1];
      }
      i := i + 1;
      mode := if lineComment then InLine
              else if blockComment then InBlock
              else if quoted then InString(escaped)
              else InCode;
    }
    assert text[i..] == "";
    Ending(mode, stack);
    NotPassed(text);
    ok := !quoted && !blockComment && stack == [];
  }

  lemma NotPassed(text: string)
    ensures Passes(InCode, [], text) <==> Code(text).Some? && Balanced(Code(text).value)
  {
    if Code(text).Some? {
      RunExact(Code(text).value);
    }
  }

  function RunFrom(c: char, s: string, stack: seq<char>): Option<seq<char>> {
    if Opens(c).Some? then Run(s, stack + [Closing(Opens(c).value)])
    else if stack != [] && stack[|stack| - 1] == c then Run(s, stack[..|stack| - 1])
    else None
  }

  lemma PrependedRuns(c: char, rest: Option<string>, stack: seq<char>)
    ensures Prepended(c, rest).Some? == rest.Some?
    ensures rest.Some? ==> Run(Prepended(c, rest).value, stack) == RunFrom(c, rest.value, stack)
  {
    if rest.Some? {
      assert ([c] + rest.value)[1..] == rest.value;
    }
  }

  lemma Ending(mode: Mode, stack: seq<char>)
    ensures Passes(mode, stack, "") <==> (mode == InCode || mode == InLine) && stack == []
  {
  }
}
