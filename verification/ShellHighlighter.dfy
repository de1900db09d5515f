/** The shell scanner of the syntax highlighter (`shellVariable` and `highlightShell` in
    web/lib/highlight.ts). Whatever the input, what it emits spells the input. */
module ShellHighlighter {
  import opened Tokens

  // ---------------------------------------------------------------- characters and searches

  predicate Blank(c: char) {
    c == ' ' || c == '\t'
  }

  /** Whitespace as regular expressions know it. */
  predicate Space(c: char) {
    || c == ' ' || '\t' <= c <= '\r' || c == '\U{00A0}' || c == '\U{1680}' || '\U{2000}' <= c <= '\U{200A}'
    || c == '\U{2028}' || c == '\U{2029}' || c == '\U{202F}' || c == '\U{205F}' || c == '\U{3000}' || c == '\U{FEFF}'
  }

  predicate Digit(c: char) {
    '0' <= c <= '9'
  }

  predicate NameStart(c: char) {
    'a' <= c <= 'z' || 'A' <= c <= 'Z' || c == '_'
  }

  predicate NameChar(c: char) {
    NameStart(c) || Digit(c)
  }

  predicate At(code: string, i: int, c: char) {
    0 <= i < |code| && code[i] == c
  }

  /** `code.slice(from, to)`. */
  function Slice(code: string, from: nat, to: nat): string {
    if to <= from || |code| <= from then "" else code[from..if to < |code| then to else |code|]
  }

  /** The next `c` at or after `from`, or the end of the code. */
  function Find(code: string, c: char, from: nat): (at: nat)
    requires from <= |code|
    ensures from <= at <= |code| && (at < |code| ==> code[at] == c)
    ensures forall i :: from <= i < at ==> code[i] != c
    decreases |code| - from
  {
    if from == |code| || code[from] == c then from else Find(code, c, from + 1)
  }

  function NameEnd(code: string, from: nat): (end: nat)
    requires from <= |code|
    ensures from <= end <= |code|
    decreases |code| - from
  {
    if from < |code| && NameChar(code[from]) then NameEnd(code, from + 1) else from
  }

  function BlankEnd(code: string, from: nat): (end: nat)
    requires from <= |code|
    ensures from <= end <= |code| && (from < |code| && Blank(code[from]) ==> from < end)
    decreases |code| - from
  {
    if from < |code| && Blank(code[from]) then BlankEnd(code, from + 1) else from
  }

  function TrimStart(line: string): string {
    if line != "" && Space(line[0]) then TrimStart(line[1..]) else line
  }

  /** The end of the variable at `at`, or `at` if there is none; a name is looked for in 64
      characters. */
  function ShellVariable(code: string, at: nat): (end: nat)
    requires at < |code| && code[at] == '$'
    ensures at <= end <= |code|
  {
    if At(code, at + 1, '{') then
      var close := Find(code, '}', at + 2);
      if close < |code| then close + 1 else |code|
    else if at + 1 < |code| && NameStart(code[at + 1]) then
      var end := NameEnd(code, at + 1);
      if end <= at + 64 then end else at + 64
    else if at + 1 < |code| && (Digit(code[at + 1]) || code[at + 1] in "?@#$!*-") then at + 2
    else at
  }

  /** Where the heredoc operator at `at` has its word, or nothing. */
  datatype Heredoc = NoHeredoc | Heredoc(word: string, strip: bool, end: nat)

  function ReadHeredoc(code: string, at: nat): (h: Heredoc)
    requires At(code, at, '<') && At(code, at + 1, '<')
    ensures h.Heredoc? ==> at < h.end <= |code|
  {
    var strip := At(code, at + 2, '-');
    var open := BlankEnd(code, if strip then at + 3 else at + 2);
    var quoted := At(code, open, '\'') || At(code, open, '"');
    var from := if quoted then open + 1 else open;
    if from < |code| && NameStart(code[from]) then
      var end := NameEnd(code, from);
      if !quoted then Heredoc(code[from..end], strip, end)
      else if At(code, end, code[open]) then Heredoc(code[from..end], strip, end + 1)
      else NoHeredoc
    else NoHeredoc
  }

  /** The length of the operator at `at`, within four characters, or 0. */
  function OperatorLength(code: string, at: nat): (n: nat)
    requires at < |code|
    ensures at + n <= |code|
  {
    var c := code[at];
    if c in "&|;" && At(code, at + 1, c) then 2
    else if c in "|;&" then 1
    else if c in "<(){}" then 1
    else
      var digits := Digits(code, at, 3);
      if !At(code, at + digits, '>') then 0
      else
        var doubled := if digits + 1 < 4 && At(code, at + digits + 1, '>') then digits + 2 else digits + 1;
        if doubled + 1 < 4 && At(code, at + doubled, '&') && at + doubled + 1 < |code| && Digit(code[at + doubled + 1])
        then doubled + 2 else doubled
  }

  function Digits(code: string, at: nat, most: nat): (n: nat)
    requires at <= |code|
    ensures n <= most && at + n <= |code|
    decreases most
  {
    if most > 0 && at < |code| && Digit(code[at]) then 1 + Digits(code, at + 1, most - 1) else 0
  }

  /** The end of the word at `at`: an escape takes the next character along, even past the end. */
  function WordEnd(code: string, at: nat): (end: nat)
    ensures at <= end && (at <= |code| ==> end <= |code| + 1)
    decreases |code| - at
  {
    if at >= |code| || Space(code[at]) || code[at] in "'\"$|;&<>()`" || (code[at] == '\\' && At(code, at + 1, '\n')) then at
    else WordEnd(code, if code[at] == '\\' then at + 2 else at + 1)
  }

  /** The word lists and the tests on whole words, whatever they say. */
  datatype Words = Words(keyword: string -> bool, reset: string -> bool, option: string -> bool, number: string -> bool)

  // ---------------------------------------------------------------- the scanner's branches

  predicate Shown(tokens: seq<CodeToken>, before: string, code: string, index: nat) {
    Shows(tokens, before + Slice(code, 0, index))
  }

  /** Emits `code.slice(from, to)`. */
  method EmitSlice(out: Out, ghost before: string, code: string, from: nat, to: nat, kind: Kind)
    requires from <= to && Shown(out.tokens, before, code, from)
    modifies out
    ensures Shown(out.tokens, before, code, to)
  {
    var value := Slice(code, from, to);
    if from < |code| {
      assert Slice(code, 0, from) == code[..from] && Slice(code, 0, to) == code[..from + |value|];
      out.Emit(value, kind, before, code, from);
    } else {
      assert Slice(code, 0, from) == Slice(code, 0, to) == code;
      out.Push(value, kind);
      assert before + code + "" == before + code;
    }
  }

  method EmitChar(out: Out, ghost before: string, code: string, at: nat, c: char, kind: Kind)
    requires At(code, at, c) && Shown(out.tokens, before, code, at)
    modifies out
    ensures Shown(out.tokens, before, code, at + 1)
  {
    assert Slice(code, 0, at) == code[..at] && Slice(code, 0, at + 1) == code[..at + 1] && code[at..at + 1] == [c];
    out.Emit([c], kind, before, code, at);
  }

  /** One heredoc body: up to the line that is its word, or to the end. */
  method HeredocBody(out: Out, ghost before: string, code: string, start: nat, word: string, strip: bool)
    returns (index: nat)
    requires start <= |code| && Shown(out.tokens, before, code, start)
    modifies out
    ensures start <= index <= |code| && Shown(out.tokens, before, code, index)
  {
    var end := start;
    while true
      invariant start <= end <= |code| && Shown(out.tokens, before, code, start)
      decreases |code| - end
    {
      var lineEnd := Find(code, '\n', end);
      var line := code[end..lineEnd];
      if (if strip then TrimStart(line) else line) == word {
        EmitSlice(out, before, code, start, end, Str);
        EmitSlice(out, before, code, end, lineEnd, Keyword);
        index := lineEnd;
        if index < |code| {
          EmitChar(out, before, code, index, '\n', Plain);
          index := index + 1;
        }
        return;
      }
      if lineEnd == |code| {
        EmitSlice(out, before, code, start, |code|, Str);
        return |code|;
      }
      end := lineEnd + 1;
    }
  }

  /** Text in double quotes, with the variables in it. */
  method DoubleQuoted(out: Out, ghost before: string, code: string, start: nat) returns (index: nat)
    requires At(code, start, '"') && Shown(out.tokens, before, code, start)
    modifies out
    ensures start < index <= |code| + 1 && Shown(out.tokens, before, code, index)
  {
    EmitChar(out, before, code, start, '"', Str);
    index := start + 1;
    while index < |code| && code[index] != '"'
      invariant start < index <= |code| + 1 && Shown(out.tokens, before, code, index)
      decreases |code| + 1 - index
    {
      if code[index] == '\\' {
        EmitSlice(out, before, code, index, index + 2, Str);
        index := index + 2;
      } else {
        var end := if code[index] == '$' && !At(code, index + 1, '(') then ShellVariable(code, index) else index;
        if end > index {
          EmitSlice(out, before, code, index, end, Property);
          index := end;
        } else {
          EmitChar(out, before, code, index, code[index], Str);
          index := index + 1;
        }
      }
    }
    if index < |code| {
      EmitChar(out, before, code, index, '"', Str);
      index := index + 1;
    }
  }

  /** The end of a `$'...'` string from inside it. */
  function AnsiEnd(code: string, at: nat): (end: nat)
    requires at <= |code| + 1
    ensures at <= end <= |code| + 1
    decreases |code| + 1 - at
  {
    if at >= |code| || code[at] == '\'' then at else AnsiEnd(code, if code[at] == '\\' then at + 2 else at + 1)
  }

  /** A word: a command, an assignment, an option, a number or an argument. */
  method Word(out: Out, ghost before: string, code: string, index: nat, end: nat, words: Words, commandStart: bool)
    returns (next: bool)
    requires index < end <= |code| + 1 && index < |code| && Shown(out.tokens, before, code, index)
    modifies out
    ensures Shown(out.tokens, before, code, end)
  {
    var word := Slice(code, index, end);
    if commandStart {
      var name := NameEnd(code, index);
      if NameStart(code[index]) && name < index + |word| && code[name] == '=' {
        EmitSlice(out, before, code, index, name, Property);
        EmitChar(out, before, code, name, '=', Punctuation);
        EmitSlice(out, before, code, name + 1, end, if words.number(Slice(code, name + 1, end)) then Number else Plain);
        return true;
      }
      EmitSlice(out, before, code, index, end, if words.keyword(word) then Keyword else Function);
      return words.reset(word);
    }
    var equals := Find(code, '=', index);
    if words.option(word) && index < equals < index + |word| {
      EmitSlice(out, before, code, index, equals, Type);
      EmitChar(out, before, code, equals, '=', Punctuation);
      EmitSlice(out, before, code, equals + 1, end, Plain);
    } else {
      EmitSlice(out, before, code, index, end,
                if words.option(word) then Type else if words.number(word) then Number else Plain);
    }
    return false;
  }

  /** The bodies of the heredocs a line opened, in order. */
  method HeredocBodies(out: Out, ghost before: string, code: string, start: nat, heredocs: seq<Heredoc>)
    returns (index: nat)
    requires start <= |code| && Shown(out.tokens, before, code, start)
    modifies out
    ensures start <= index <= |code| && Shown(out.tokens, before, code, index)
  {
    index := start;
    for i := 0 to |heredocs|
      invariant start <= index <= |code| && Shown(out.tokens, before, code, index)
    {
      if heredocs[i].Heredoc? {
        index := HeredocBody(out, before, code, index, heredocs[i].word, heredocs[i].strip);
      }
    }
  }

  /** Everything that starts with a quote or a dollar; `start` itself if this does not. */
  method Quoted(out: Out, ghost before: string, code: string, start: nat, commandStart: bool)
    returns (index: nat, command: bool)
    requires start < |code| && Shown(out.tokens, before, code, start)
    modifies out
    ensures start <= index <= |code| + 1 && Shown(out.tokens, before, code, index)
    ensures index == start ==> command == commandStart
  {
    var c := code[start];
    if c == '\'' {
      var close := Find(code, '\'', start + 1);
      index := if close < |code| then close + 1 else |code|;
      EmitSlice(out, before, code, start, index, Str);
      return index, false;
    }
    if c == '"' {
      index := DoubleQuoted(out, before, code, start);
      return index, false;
    }
    if c != '$' {
      return start, commandStart;
    }
    if At(code, start + 1, '\'') {
      var end := AnsiEnd(code, start + 2) + 1;
      index := if end < |code| then end else |code|;
      EmitSlice(out, before, code, start, index, Str);
      return index, commandStart;
    }
    if At(code, start + 1, '(') {
      EmitSlice(out, before, code, start, start + 2, Punctuation);
      return start + 2, true;
    }
    index := ShellVariable(code, start);
    EmitSlice(out, before, code, start, index, Property);
    return index, commandStart && index == start;
  }

  predicate StartsCommand(operator: string) {
    operator in ["&&", "||", "|", ";", "&", "(", ";;", "{"]
  }

  /** An operator or a word, or a character that is neither. */
  method Plainly(out: Out, ghost before: string, code: string, start: nat, words: Words, commandStart: bool)
    returns (index: nat, command: bool)
    requires start < |code| && Shown(out.tokens, before, code, start)
    modifies out
    ensures start < index <= |code| + 1 && Shown(out.tokens, before, code, index)
  {
    var c, n := code[start], OperatorLength(code, start);
    var braceIsOperator := c !in "{}" || commandStart || start + 1 >= |code| || Space(code[start + 1]) || code[start + 1] == ';';
    if n > 0 && braceIsOperator {
      EmitSlice(out, before, code, start, start + n, Punctuation);
      return start + n, commandStart || StartsCommand(code[start..start + n]);
    }
    index := WordEnd(code, start);
    if index == start {
      EmitChar(out, before, code, start, c, Plain);
      return start + 1, commandStart;
    }
    command := Word(out, before, code, start, index, words, commandStart);
  }

  /** A line feed, blanks, a continued line or a comment; `start` itself if there is none. */
  method Spacing(out: Out, ghost before: string, code: string, start: nat, heredocs: seq<Heredoc>) returns (index: nat)
    requires start < |code| && Shown(out.tokens, before, code, start)
    modifies out
    ensures start <= index <= |code| && Shown(out.tokens, before, code, index)
    ensures code[start] == '\n' ==> start < index
  {
    var c := code[start];
    if c == '\n' {
      EmitChar(out, before, code, start, '\n', Plain);
      index := HeredocBodies(out, before, code, start + 1, heredocs);
    } else if Blank(c) {
      index := BlankEnd(code, start);
      EmitSlice(out, before, code, start, index, Plain);
    } else if c == '\\' && At(code, start + 1, '\n') {
      EmitChar(out, before, code, start, '\\', Punctuation);
      EmitChar(out, before, code, start + 1, '\n', Plain);
      index := start + 2;
    } else if c == '#' && (start == 0 || Space(code[start - 1])) {
      index := Find(code, '\n', start);
      EmitSlice(out, before, code, start, index, Comment);
    } else {
      index := start;
    }
  }

  /** The whole scanner: it ends on every input, and what it emits after `before` is the code,
      in tidy tokens. */
  method HighlightShell(code: string, out: Out, words: Words)
    requires Tidy(out.tokens)
    modifies out
    ensures Shows(out.tokens, old(Text(out.tokens)) + code)
  {
    ghost var before := Text(out.tokens);
    var index, commandStart, heredocs := 0, true, [];
    assert before + Slice(code, 0, 0) == before;
    while index < |code|
      invariant index <= |code| + 1 && Shown(out.tokens, before, code, index)
      decreases |code| + 1 - index
    {
      var start := index;
      index := Spacing(out, before, code, start, heredocs);
      if code[start] == '\n' {
        commandStart, heredocs := true, [];
      }
      if index > start {
        continue;
      }
      index, commandStart := Quoted(out, before, code, start, commandStart);
      if index > start {
        continue;
      }
      if code[start] == '<' && At(code, start + 1, '<') && !At(code, start + 2, '<') {
        var heredoc := ReadHeredoc(code, start);
        if heredoc.Heredoc? {
          EmitSlice(out, before, code, start, heredoc.end, Punctuation);
          index, heredocs := heredoc.end, heredocs + [heredoc];
          continue;
        }
      }
      index, commandStart := Plainly(out, before, code, start, words, commandStart);
    }
    assert Slice(code, 0, index) == code;
  }
}
