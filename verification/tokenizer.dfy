/** The configuration tokenizer, and the layouts that it does not distinguish. */
module Tokenizer {
  import opened Text

  predicate IsWhite(c: char) { c == ' ' || c == '\t' || c == '\r' || c == '\n' }

  predicate IsSpecial(c: char) { c == '{' || c == '}' || c == ';' }

  predicate IsWordChar(c: char) { !IsWhite(c) && !IsSpecial(c) }

  function SkipWhite(s: string, pos: nat): (r: nat)
    ensures pos <= r && (pos <= |s| ==> r <= |s|)
    decreases |s| - pos
  {
    if pos < |s| && IsWhite(s[pos]) then SkipWhite(s, pos + 1) else pos
  }

  function WordEnd(s: string, pos: nat): (r: nat)
    ensures pos <= r && (pos <= |s| ==> r <= |s|)
    ensures pos < |s| && IsWordChar(s[pos]) ==> pos < r
    decreases |s| - pos
  {
    if pos < |s| && IsWordChar(s[pos]) then WordEnd(s, pos + 1) else pos
  }

  datatype Lexed = Lexed(token: string, next: nat)

  /** One call of Tokenize at `pos`; the empty token means the end. */
  function Lex(s: string, pos: nat): (r: Lexed)
    ensures pos + |r.token| <= r.next && (pos <= |s| ==> r.next <= |s|)
  {
    var start := SkipWhite(s, pos);
    if start >= |s| then Lexed("", start)
    else if IsSpecial(s[start]) then Lexed([s[start]], start + 1)
    else Lexed(s[start..WordEnd(s, start)], WordEnd(s, start))
  }

  /** All tokens from `pos` on. */
  function Tokens(s: string, pos: nat): seq<string>
    decreases |s| - pos
  {
    var l := Lex(s, pos);
    if l.token == "" || pos >= |s| then [] else [l.token] + Tokens(s, l.next)
  }

  lemma {:induction false} TokensAreNotEmpty(s: string, pos: nat)
    ensures forall t | t in Tokens(s, pos) :: t != ""
    decreases |s| - pos
  {
    hide Lex;
    var l := Lex(s, pos);
    if l.token != "" && pos < |s| {
      TokensAreNotEmpty(s, l.next);
    }
  }

  // ---------- layouts ----------

  predicate AllWhite(s: string) {
    forall i | 0 <= i < |s| :: IsWhite(s[i])
  }

  predicate IsWord(t: string) {
    t != "" && forall i | 0 <= i < |t| :: IsWordChar(t[i])
  }

  predicate IsSymbol(t: string) {
    |t| == 1 && IsSpecial(t[0])
  }

  /** The text consists of the tokens, with white space before, between and behind them; two words
      are kept apart. */
  ghost predicate IsLayout(s: string, tokens: seq<string>)
    decreases |tokens|
  {
    if tokens == [] then AllWhite(s)
    else
      exists n: nat :: StartsWithToken(s, n, tokens[0]) && IsLayout(s[n + |tokens[0]|..], tokens[1..])
  }

  /** `n` blanks, then the token, which does not go on. */
  predicate StartsWithToken(s: string, n: nat, t: string) {
    && n + |t| <= |s| && AllWhite(s[..n]) && s[n..n + |t|] == t
    && (IsSymbol(t) || (IsWord(t) && (n + |t| == |s| || !IsWordChar(s[n + |t|]))))
  }

  lemma {:induction false} SkipWhiteMeaning(s: string, pos: nat, n: nat)
    requires pos <= n <= |s|
    ensures SkipWhite(s, pos) == n <==>
            (forall i | pos <= i < n :: IsWhite(s[i])) && (n == |s| || !IsWhite(s[n]))
    decreases n - pos
  {
    if pos < n && IsWhite(s[pos]) {
      SkipWhiteMeaning(s, pos + 1, n);
    }
  }

  lemma {:induction false} WordEndMeaning(s: string, pos: nat, n: nat)
    requires pos <= n <= |s|
    ensures WordEnd(s, pos) == n <==>
            (forall i | pos <= i < n :: IsWordChar(s[i])) && (n == |s| || !IsWordChar(s[n]))
    decreases n - pos
  {
    if pos < n && IsWordChar(s[pos]) {
      WordEndMeaning(s, pos + 1, n);
    }
  }

  lemma LexIsEmpty(s: string)
    ensures Lex(s, 0).token == "" <==> AllWhite(s)
  {
    hide SkipWhite, WordEnd;
    SkipWhiteMeaning(s, 0, SkipWhite(s, 0));
  }

  lemma LexSound(s: string)
    requires Lex(s, 0).token != ""
    ensures var l := Lex(s, 0); StartsWithToken(s, l.next - |l.token|, l.token)
  {
    hide SkipWhite, WordEnd;
    var start := SkipWhite(s, 0);
    SkipWhiteMeaning(s, 0, start);
    assert AllWhite(s[..start]);
    if IsWordChar(s[start]) {
      var end := WordEnd(s, start);
      WordEndMeaning(s, start, end);
      assert IsWord(s[start..end]);
    }
  }

  lemma LexComplete(s: string, n: nat, t: string)
    requires StartsWithToken(s, n, t)
    ensures Lex(s, 0) == Lexed(t, n + |t|)
  {
    hide SkipWhite, WordEnd;
    forall i | 0 <= i < n ensures IsWhite(s[i]) {
      assert s[..n][i] == s[i];
    }
    forall i | n <= i < n + |t| ensures s[i] == t[i - n] {
      assert s[i] == s[n..n + |t|][i - n];
    }
    SkipWhiteMeaning(s, 0, n);
    if IsWord(t) {
      WordEndMeaning(s, n, n + |t|);
    }
  }

  /** Lexing at the start: the empty token for white space only, else the token the text starts with. */
  lemma LexMeaning(s: string, n: nat, t: string)
    ensures Lex(s, 0).token == "" <==> AllWhite(s)
    ensures t != "" ==> (Lex(s, 0) == Lexed(t, n + |t|) <==> StartsWithToken(s, n, t))
  {
    hide Lex, StartsWithToken;
    LexIsEmpty(s);
    if Lex(s, 0).token != "" {
      LexSound(s);
    }
    if StartsWithToken(s, n, t) {
      LexComplete(s, n, t);
    }
  }

  /** Tokens are found again behind any text that was passed. */
  lemma {:induction false} ShiftSkipWhite(s: string, k: nat, pos: nat)
    requires k <= pos <= |s|
    ensures SkipWhite(s[k..], pos - k) == SkipWhite(s, pos) - k
    decreases |s| - pos
  {
    if pos < |s| && IsWhite(s[pos]) {
      ShiftSkipWhite(s, k, pos + 1);
    }
  }

  lemma {:induction false} ShiftWordEnd(s: string, k: nat, pos: nat)
    requires k <= pos <= |s|
    ensures WordEnd(s[k..], pos - k) == WordEnd(s, pos) - k
    decreases |s| - pos
  {
    if pos < |s| && IsWordChar(s[pos]) {
      ShiftWordEnd(s, k, pos + 1);
    }
  }

  lemma ShiftLex(s: string, k: nat, pos: nat)
    requires k <= pos <= |s|
    ensures Lex(s[k..], pos - k) == Lexed(Lex(s, pos).token, Lex(s, pos).next - k)
  {
    hide SkipWhite, WordEnd;
    var start := SkipWhite(s, pos);
    ShiftSkipWhite(s, k, pos);
    if start < |s| {
      ShiftWordEnd(s, k, start);
      var end := WordEnd(s, start);
      assert s[k..][start - k..end - k] == s[start..end];
    }
  }

  lemma {:induction false} ShiftTokens(s: string, k: nat, pos: nat)
    requires k <= pos <= |s|
    ensures Tokens(s[k..], pos - k) == Tokens(s, pos)
    decreases |s| - pos
  {
    hide Lex;
    ShiftLex(s, k, pos);
    var l := Lex(s, pos);
    if l.token != "" && pos < |s| {
      ShiftTokens(s, k, l.next);
    }
  }

  lemma TokensUnfold(s: string)
    ensures var l := Lex(s, 0);
            Tokens(s, 0) == if l.token == "" then [] else [l.token] + Tokens(s[l.next..], 0)
  {
    hide Lex, Tokens;
    var l := Lex(s, 0);
    TokensStep(s, 0);
    if l.token != "" {
      ShiftTokens(s, l.next, l.next);
    }
  }

  lemma TokensStep(s: string, pos: nat)
    ensures var l := Lex(s, pos);
            Tokens(s, pos) == if l.token == "" || pos >= |s| then [] else [l.token] + Tokens(s, l.next)
  {}

  lemma TokenIsNotEmpty(s: string, n: nat, t: string)
    requires StartsWithToken(s, n, t)
    ensures t != ""
  {}

  /** At most one token stands at the start, and it is the one that is lexed. */
  lemma LayoutUnfold(s: string, tokens: seq<string>)
    ensures var l := Lex(s, 0);
            IsLayout(s, tokens) <==>
              if l.token == "" then tokens == []
              else tokens != [] && tokens[0] == l.token && IsLayout(s[l.next..], tokens[1..])
  {
    hide Lex, StartsWithToken, AllWhite;
    var l := Lex(s, 0);
    LexMeaning(s, 0, "");
    if tokens != [] {
      forall n: nat | StartsWithToken(s, n, tokens[0]) ensures tokens[0] != "" && l == Lexed(tokens[0], n + |tokens[0]|) {
        TokenIsNotEmpty(s, n, tokens[0]);
        LexMeaning(s, n, tokens[0]);
      }
      if l.token == tokens[0] != "" {
        var n := l.next - |l.token|;
        LexMeaning(s, n, l.token);
        assert StartsWithToken(s, n, tokens[0]);
      }
    }
  }

  /** The tokens of a text are exactly the token list of which it is a layout. */
  lemma {:induction false} TokensIgnoreLayout(s: string, tokens: seq<string>)
    ensures Tokens(s, 0) == tokens <==> IsLayout(s, tokens)
    decreases |s|
  {
    hide Lex, IsLayout, Tokens;
    TokensUnfold(s);
    LayoutUnfold(s, tokens);
    var l := Lex(s, 0);
    if l.token != "" && tokens != [] {
      LexMeaning(s, 0, "");
      TokensIgnoreLayout(s[l.next..], tokens[1..]);
      assert tokens == [tokens[0]] + tokens[1..];
    }
  }
}
