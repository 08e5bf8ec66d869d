/** The display filter's lexer (graph/filter.go tokenizeFilter). Text is a sequence of bytes. */
module FilterLexer {
  import opened GraphState

  datatype Token = Word(val: string) | Quoted(val: string) | Op(val: string) | And | Or | Not | LParen | RParen

  function LowerChar(c: char): char { if 'A' <= c <= 'Z' then c - 'A' + 'a' else c }

  /** ASCII lower case. */
  function Lower(s: string): string { seq(|s|, i requires 0 <= i < |s| => LowerChar(s[i])) }

  predicate IsSpace(c: char) { c == ' ' || c == '\t' || c == '\n' || c == '\r' }

  predicate IsQuote(c: char) { c == '"' || c == '\'' }

  /** Characters that end a bareword. */
  predicate EndsWord(c: char) {
    IsSpace(c) || c == '(' || c == ')' || IsQuote(c) || c == '=' || c == '!' || c == '&' || c == '|'
  }

  function WordEnd(s: string, i: nat): (r: nat)
    requires i <= |s|
    ensures i <= r <= |s| && (r < |s| ==> EndsWord(s[r])) && forall k :: i <= k < r ==> !EndsWord(s[k])
    decreases |s| - i
  {
    if i < |s| && !EndsWord(s[i]) then WordEnd(s, i + 1) else i
  }

  function QuoteEnd(s: string, i: nat, quote: char): (r: nat)
    requires i <= |s|
    ensures i <= r <= |s| && (r < |s| ==> s[r] == quote) && forall k :: i <= k < r ==> s[k] != quote
    decreases |s| - i
  {
    if i < |s| && s[i] != quote then QuoteEnd(s, i + 1, quote) else i
  }

  function WordToken(w: string): Token {
    var l := Lower(w);
    if l == "and" then And else if l == "or" then Or else if l == "not" then Not
    else if l in {"contains", "eq", "ne"} then Op(l) else Word(w)
  }

  predicate Doubled(s: string, i: nat)
    requires i < |s|
  {
    i + 1 < |s| && s[i + 1] == s[i]
  }

  /** One turn of the lexer's loop: the tokens it appends and where it goes on. */
  function Turn(s: string, i: nat): (r: (seq<Token>, nat))
    requires i < |s|
    ensures i <= r.1 <= |s|
  {
    var c := s[i];
    if IsSpace(c) then ([], i + 1)
    else if c == '(' then ([LParen], i + 1)
    else if c == ')' then ([RParen], i + 1)
    else if IsQuote(c) then
      var end := QuoteEnd(s, i + 1, c);
      ([Quoted(s[i + 1..end])], if end < |s| then end + 1 else end)
    else if c == '=' && Doubled(s, i) then ([Op("==")], i + 2)
    else if c == '!' && i + 1 < |s| && s[i + 1] == '=' then ([Op("!=")], i + 2)
    else if c == '!' then ([Not], i + 1)
    else if c == '&' && Doubled(s, i) then ([And], i + 2)
    else if c == '|' && Doubled(s, i) then ([Or], i + 2)
    else
      var end := WordEnd(s, i);
      ([WordToken(s[i..end])], end)
  }

  /** A single '=', '&' or '|' where a token should begin. */
  predicate Lone(s: string, i: nat)
    requires i < |s|
  {
    (s[i] == '=' || s[i] == '&' || s[i] == '|') && !Doubled(s, i)
  }

  /** A turn makes no progress exactly at a lone character: it appends an empty word and stays. */
  lemma StuckExactlyAtLone(s: string, i: nat)
    requires i < |s|
    ensures Turn(s, i).1 == i <==> Lone(s, i)
    ensures Lone(s, i) ==> Turn(s, i) == ([Word("")], i)
  {
    if Lone(s, i) {
      assert s[i..i] == "";
    }
  }

  /** Where the loop is after `n` turns. */
  function PositionAfter(s: string, n: nat): (r: nat)
    ensures r <= |s|
  {
    if n == 0 then 0
    else
      var i := PositionAfter(s, n - 1);
      if i < |s| then Turn(s, i).1 else i
  }

  /** From `i`, the loop reaches the end without meeting a lone character. */
  predicate Halts(s: string, i: nat)
    requires i <= |s|
    decreases |s| - i
  {
    i == |s| || (Turn(s, i).1 > i && Halts(s, Turn(s, i).1))
  }

  /** The lexer comes to an end exactly if it never stands at a lone '=', '&' or '|'. */
  lemma HaltsUnlessLone(s: string)
    ensures Halts(s, 0) <==> exists n :: PositionAfter(s, n) == |s|
    ensures Halts(s, 0) <==> forall n :: PositionAfter(s, n) < |s| ==> !Lone(s, PositionAfter(s, n))
  {
    if Halts(s, 0) {
      var n := Finish(s, 0);
      forall k | PositionAfter(s, k) < |s| ensures !Lone(s, PositionAfter(s, k)) {
        HaltsAlong(s, k);
        StuckExactlyAtLone(s, PositionAfter(s, k));
      }
    } else {
      var n := StuckAt(s, 0);
      forall k ensures PositionAfter(s, k) < |s| { NeverPast(s, n, k); }
    }
  }

  lemma EqualsSignSticks()
    ensures !Halts("=", 0)
  {
    assert Lone("=", 0);
  }

  lemma {:induction false} Finish(s: string, m: nat) returns (n: nat)
    requires Halts(s, PositionAfter(s, m))
    ensures PositionAfter(s, n) == |s|
    decreases |s| - PositionAfter(s, m)
  {
    if PositionAfter(s, m) == |s| {
      n := m;
    } else {
      n := Finish(s, m + 1);
    }
  }

  lemma {:induction false} HaltsAlong(s: string, k: nat)
    requires Halts(s, 0)
    ensures Halts(s, PositionAfter(s, k))
  {
    hide Turn;
    if k > 0 { HaltsAlong(s, k - 1); }
  }

  lemma {:induction false} StuckAt(s: string, m: nat) returns (n: nat)
    requires !Halts(s, PositionAfter(s, m))
    ensures PositionAfter(s, n) < |s| && Lone(s, PositionAfter(s, n))
      && Turn(s, PositionAfter(s, n)).1 == PositionAfter(s, n)
    decreases |s| - PositionAfter(s, m)
  {
    hide Turn, Lone;
    StuckExactlyAtLone(s, PositionAfter(s, m));
    if Turn(s, PositionAfter(s, m)).1 == PositionAfter(s, m) {
      n := m;
    } else {
      n := StuckAt(s, m + 1);
    }
  }

  lemma NeverPast(s: string, n: nat, k: nat)
    requires PositionAfter(s, n) < |s| && Turn(s, PositionAfter(s, n)).1 == PositionAfter(s, n)
    ensures PositionAfter(s, k) < |s|
  {
    hide Turn;
    if k > n {
      StaysPut(s, n, k);
    } else if k < n {
      Grows(s, k, n);
    }
  }

  lemma {:induction false} StaysPut(s: string, n: nat, k: nat)
    requires n <= k && PositionAfter(s, n) < |s| && Turn(s, PositionAfter(s, n)).1 == PositionAfter(s, n)
    ensures PositionAfter(s, k) == PositionAfter(s, n)
    decreases k
  {
    hide Turn;
    if k > n { StaysPut(s, n, k - 1); }
  }

  lemma {:induction false} Grows(s: string, k: nat, n: nat)
    requires k <= n
    ensures PositionAfter(s, k) <= PositionAfter(s, n)
    decreases n
  {
    hide Turn;
    if k < n { Grows(s, k, n - 1); }
  }

  /** The tokens from position `i` on, where the lexer halts. */
  function Tokens(s: string, i: nat): seq<Token>
    requires i <= |s| && Halts(s, i)
    decreases |s| - i
  {
    if i == |s| then [] else Turn(s, i).0 + Tokens(s, Turn(s, i).1)
  }

  method NextTokens(s: string, at: nat) returns (toks: seq<Token>, i: nat)
    requires at < |s|
    ensures (toks, i) == Turn(s, at)
  {
    i, toks := at, [];
    var c := s[i];
    if c == ' ' || c == '\t' || c == '\n' || c == '\r' {
      i := i + 1;
    } else if c == '(' {
      toks, i := [LParen], i + 1;
    } else if c == ')' {
      toks, i := [RParen], i + 1;
    } else if c == '"' || c == '\'' {
      i := i + 1;
      var start := i;
      while i < |s| && s[i] != c
        invariant start <= i <= |s| && QuoteEnd(s, start, c) == QuoteEnd(s, i, c)
      {
        i := i + 1;
      }
      toks := [Quoted(s[start..i])];
      if i < |s| {
        i := i + 1;
      }
    } else if c == '=' && i + 1 < |s| && s[i + 1] == '=' {
      toks, i := [Op("==")], i + 2;
    } else if c == '!' && i + 1 < |s| && s[i + 1] == '=' {
      toks, i := [Op("!=")], i + 2;
    } else if c == '!' {
      toks, i := [Not], i + 1;
    } else if c == '&' && i + 1 < |s| && s[i + 1] == '&' {
      toks, i := [And], i + 2;
    } else if c == '|' && i + 1 < |s| && s[i + 1] == '|' {
      toks, i := [Or], i + 2;
    } else {
      var start := i;
      while i < |s| && !EndsWord(s[i])
        invariant start <= i <= |s| && WordEnd(s, start) == WordEnd(s, i)
      {
        i := i + 1;
      }
      toks := [WordToken(s[start..i])];
    }
  }

  method TokenizeFilter(s: string) returns (toks: seq<Token>)
    requires Halts(s, 0)
    ensures toks == Tokens(s, 0)
  {
    hide Turn;
    toks := [];
    var i := 0;
    while i < |s|
      invariant i <= |s| && Halts(s, i) && toks + Tokens(s, i) == Tokens(s, 0)
      decreases |s| - i
    {
      var more, next := NextTokens(s, i);
      assert toks + (more + Tokens(s, next)) == toks + more + Tokens(s, next);
      toks, i := toks + more, next;
    }
  }
}
