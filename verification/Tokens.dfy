/** The token list of the syntax highlighter (`Out` in web/lib/highlight.ts). */
module Tokens {
  datatype Kind = Plain | Comment | Str | Number | Keyword | Type | Function | Property | Tag | Punctuation

  datatype CodeToken = CodeToken(kind: Kind, text: string)

  function Text(tokens: seq<CodeToken>): string {
    TextOf(tokens, |tokens|)
  }

  /** The text of the first `n` tokens. */
  function TextOf(tokens: seq<CodeToken>, n: nat): string
    requires n <= |tokens|
  {
    if n == 0 then "" else TextOf(tokens, n - 1) + tokens[n - 1].text
  }

  /** No token is empty, and neighbours differ in kind. */
  predicate Tidy(tokens: seq<CodeToken>) {
    && (forall i :: 0 <= i < |tokens| ==> tokens[i].text != "")
    && (forall i :: 0 < i < |tokens| ==> tokens[i - 1].kind != tokens[i].kind)
  }

  lemma {:induction false} SameText(a: seq<CodeToken>, b: seq<CodeToken>, n: nat)
    requires n <= |a| && n <= |b| && forall i :: 0 <= i < n ==> a[i] == b[i]
    ensures TextOf(a, n) == TextOf(b, n)
  {
    if n > 0 {
      SameText(a, b, n - 1);
    }
  }

  lemma TextAdds(tokens: seq<CodeToken>, n: nat, token: CodeToken)
    requires n <= |tokens|
    ensures Text(tokens[..n] + [token]) == TextOf(tokens, n) + token.text
  {
    SameText(tokens[..n] + [token], tokens, n);
  }

  lemma TidyAdds(tokens: seq<CodeToken>, n: nat, token: CodeToken)
    requires Tidy(tokens) && n <= |tokens| && token.text != ""
    requires n > 0 ==> tokens[n - 1].kind != token.kind
    ensures Tidy(tokens[..n] + [token])
  {
  }

  /** The tokens spell `text`, tidily. */
  predicate Shows(tokens: seq<CodeToken>, text: string) {
    Text(tokens) == text && Tidy(tokens)
  }

  class Out {
    var tokens: seq<CodeToken>

    constructor ()
      ensures tokens == []
    {
      tokens := [];
    }

    /** Adds `value` to the last token or as a new one: the text grows by it, under its kind, and
        the list stays tidy. */
    method Push(value: string, kind: Kind)
      modifies this
      ensures Text(tokens) == Text(old(tokens)) + value
      ensures Tidy(old(tokens)) ==> Tidy(tokens)
      ensures value == "" ==> tokens == old(tokens)
      ensures value != "" ==>
                tokens != [] && tokens[|tokens| - 1].kind == kind && |tokens[|tokens| - 1].text| >= |value|
    {
      if value == "" {
        return;
      }
      var n := |tokens|;
      if n > 0 && tokens[n - 1].kind == kind {
        var longer := tokens[n - 1].text + value;
        TextAdds(tokens, n - 1, CodeToken(kind, longer));
        assert TextOf(tokens, n - 1) + longer == Text(tokens) + value;
        if Tidy(tokens) {
          TidyAdds(tokens, n - 1, CodeToken(kind, longer));
        }
        tokens := tokens[..n - 1] + [CodeToken(kind, longer)];
      } else {
        TextAdds(tokens, n, CodeToken(kind, value));
        assert tokens[..n] == tokens;
        if Tidy(tokens) {
          TidyAdds(tokens, n, CodeToken(kind, value));
        }
        tokens := tokens + [CodeToken(kind, value)];
      }
    }

    /** A push of the next stretch of `code`, after `before` and what was shown of it. */
    method Emit(value: string, kind: Kind, ghost before: string, ghost code: string, ghost from: nat)
      requires from + |value| <= |code| && code[from..from + |value|] == value
      requires Shows(tokens, before + code[..from])
      modifies this
      ensures Shows(tokens, before + code[..from + |value|])
    {
      assert code[..from + |value|] == code[..from] + value;
      assert before + code[..from] + value == before + code[..from + |value|];
      Push(value, kind);
    }
  }
}
