/** The TypeScript and JavaScript scanner of the syntax highlighter (`highlightScript` in
    web/lib/highlight.ts), with its recursion into template expressions. Regular expressions are
    the functions of a `Lexer`. */
module ScriptHighlighter {
  import opened Tokens
  import opened ShellHighlighter

  const WINDOW := 4096

  /** How many characters of `rest` each expression matches at its start, 0 for none, and how a
      word or a previous token is judged. */
  datatype Lexer = Lexer(
    comment: string -> nat,
    quoted: string -> nat,
    pattern: string -> nat,
    number: string -> nat,
    word: string -> nat,
    operator: string -> nat,
    other: string -> nat,
    regexAfter: string -> bool,
    wordKind: (string, string, string) -> Kind)

  /** A match of `n` characters at the start of `rest` is at most all of it. */
  function Within(n: nat, rest: string): (m: nat)
    ensures m <= |rest| && (n <= |rest| ==> m == n)
  {
    if n <= |rest| then n else |rest|
  }

  predicate AllSpace(s: string) {
    forall i :: 0 <= i < |s| ==> Space(s[i])
  }

  /** The token at `index` that is not a template: its length and kind. What no expression
      matches is one character of plain text, or more of it. */
  function Lex(lexer: Lexer, code: string, index: nat, previous: string): (r: (nat, Kind))
    requires index < |code|
    ensures 0 < r.0 && index + r.0 <= |code|
  {
    var rest := Slice(code, index, index + WINDOW);
    if Within(lexer.comment(rest), rest) > 0 then (Within(lexer.comment(rest), rest), Comment)
    else if Within(lexer.quoted(rest), rest) > 0 then (Within(lexer.quoted(rest), rest), Str)
    else if code[index] == '/' && (previous == "" || lexer.regexAfter(previous)) && Within(lexer.pattern(rest), rest) > 0
    then (Within(lexer.pattern(rest), rest), Str)
    else if Within(lexer.number(rest), rest) > 0 then (Within(lexer.number(rest), rest), Number)
    else if Within(lexer.word(rest), rest) > 0 then
      var n := Within(lexer.word(rest), rest);
      (n, lexer.wordKind(rest[..n], Slice(code, index + n, index + n + 64), previous))
    else if Within(lexer.operator(rest), rest) > 0 then (Within(lexer.operator(rest), rest), Punctuation)
    else (if Within(lexer.other(rest), rest) > 0 then Within(lexer.other(rest), rest) else 1, Plain)
  }

  /** An expression in a template, with its braces. */
  method Interpolation(code: string, out: Out, start: nat, lexer: Lexer, ghost before: string) returns (index: nat)
    requires At(code, start, '$') && At(code, start + 1, '{') && Shown(out.tokens, before, code, start)
    modifies out
    ensures start < index <= |code| + 1 && Shown(out.tokens, before, code, index)
    decreases |code| - start, 0
  {
    EmitSlice(out, before, code, start, start + 2, Punctuation);
    index := HighlightScript(code, out, start + 2, true, lexer, before);
    if At(code, index, '}') {
      EmitChar(out, before, code, index, '}', Punctuation);
      index := index + 1;
    }
  }

  /** A template literal: its text, and every `${...}` in it highlighted as code. */
  method Template(code: string, out: Out, start: nat, lexer: Lexer, ghost before: string) returns (index: nat)
    requires At(code, start, '`') && Shown(out.tokens, before, code, start)
    modifies out
    ensures start < index <= |code| + 1 && Shown(out.tokens, before, code, index)
    decreases |code| - start, 0
  {
    EmitChar(out, before, code, start, '`', Str);
    index := start + 1;
    while index < |code| && code[index] != '`'
      invariant start < index <= |code| + 1 && Shown(out.tokens, before, code, index)
      decreases |code| + 1 - index
    {
      if code[index] == '\\' {
        EmitSlice(out, before, code, index, index + 2, Str);
        index := index + 2;
      } else if code[index] == '$' && At(code, index + 1, '{') {
        index := Interpolation(code, out, index, lexer, before);
      } else {
        EmitChar(out, before, code, index, code[index], Str);
        index := index + 1;
      }
    }
    if index < |code| {
      EmitChar(out, before, code, index, '`', Str);
      index := index + 1;
    }
  }

  /** Highlights from `start`, inside a template up to the brace that closes it, and returns where
      it stopped: it ends on every input, and what it emits is the code it passed, in tidy tokens. */
  method HighlightScript(code: string, out: Out, start: nat, stopAtBrace: bool, lexer: Lexer, ghost before: string)
    returns (index: nat)
    requires start <= |code| && Shown(out.tokens, before, code, start)
    modifies out
    ensures start <= index <= |code| + 1 && Shown(out.tokens, before, code, index)
    ensures index >= |code| || (stopAtBrace && code[index] == '}')
    decreases |code| - start, 1
  {
    index := start;
    var previous, depth := "", 0;
    while index < |code|
      invariant start <= index <= |code| + 1 && 0 <= depth && Shown(out.tokens, before, code, index)
      decreases |code| + 1 - index
    {
      var c := code[index];
      if stopAtBrace {
        if c == '{' {
          depth := depth + 1;
        }
        if c == '}' {
          if depth == 0 {
            return index;
          }
          depth := depth - 1;
        }
      }
      if c == '`' && lexer.comment(Slice(code, index, index + WINDOW)) == 0 {
        index := Template(code, out, index, lexer, before);
        previous := "`";
      } else {
        var (n, kind) := Lex(lexer, code, index, previous);
        var value := code[index..index + n];
        EmitSlice(out, before, code, index, index + n, kind);
        if !AllSpace(value) {
          previous := value;
        }
        index := index + n;
      }
    }
  }

  /** A whole file: everything is shown. */
  method HighlightFile(code: string, out: Out, lexer: Lexer)
    requires Tidy(out.tokens)
    modifies out
    ensures Shows(out.tokens, old(Text(out.tokens)) + code)
  {
    ghost var before := Text(out.tokens);
    assert before + Slice(code, 0, 0) == before;
    var index := HighlightScript(code, out, 0, false, lexer, before);
    assert Slice(code, 0, index) == code;
  }
}
