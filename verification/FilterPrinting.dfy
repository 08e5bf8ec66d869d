/** Printing filters with as few parentheses as the grammar needs, and reading them back (graph/filter.go). */
module FilterPrinting {
  import opened GraphState
  import opened FilterLexer
  import opened FilterParser

  const OPS := {"==", "!=", "contains", "eq", "ne"}

  /** A text the lexer reads as one word. */
  ghost predicate PlainWord(w: string) {
    w != "" && (forall i :: 0 <= i < |w| ==> !EndsWord(w[i])) && WordToken(w) == Word(w)
  }

  predicate Lacks(s: string, c: char) { forall i :: 0 <= i < |s| ==> s[i] != c }

  /** Filters that can be written down: a value needs a quote it does not contain. */
  ghost predicate Printable(f: Filter) {
    match f
    case Either(l, r) => Printable(l) && Printable(r)
    case Both(l, r) => Printable(l) && Printable(r)
    case Neither(g) => Printable(g)
    case Compare(field, op, value) =>
      PlainWord(field) && KnownField(field) && op in OPS && (Lacks(value, '"') || Lacks(value, '\''))
    case Keyword(word) => PlainWord(word)
  }

  /** Where a filter stands: 0 in an alternative, 1 in a conjunction, 2 under a negation. */
  function Print(f: Filter, level: nat): seq<Token> {
    match f
    case Either(l, r) => Wrapped(Print(l, 0) + [Or] + Print(r, 0), level > 0)
    case Both(l, r) => Wrapped(Print(l, 1) + [And] + Print(r, 1), level > 1)
    case Neither(g) => [Not] + Print(g, 2)
    case Compare(field, op, value) => [Word(field), Op(op), Quoted(value)]
    case Keyword(word) => [Word(word)]
  }

  function Wrapped(toks: seq<Token>, parens: bool): seq<Token> { if parens then [LParen] + toks + [RParen] else toks }

  // ---- what parsing makes of it: chains lean to the left ----

  function Leaning(f: Filter): Filter
    decreases f, 1
  {
    match f
    case Either(l, r) => OrOnto(Leaning(l), r)
    case Both(l, r) => AndOnto(Leaning(l), r)
    case Neither(g) => Neither(Leaning(g))
    case _ => f
  }

  function OrOnto(left: Filter, f: Filter): Filter
    decreases f, 2
  {
    if f.Either? then OrOnto(OrOnto(left, f.left), f.right) else Either(left, Leaning(f))
  }

  function AndOnto(left: Filter, f: Filter): Filter
    decreases f, 2
  {
    if f.Both? then AndOnto(AndOnto(left, f.left), f.right) else Both(left, Leaning(f))
  }

  lemma {:induction false} LeaningMeansTheSame(net: Net, f: Filter, c: NodeCtx)
    ensures Holds(net, Leaning(f), c) == Holds(net, f, c)
    decreases f, 1
  {
    hide CompareHolds;
    match f
    case Either(l, r) =>
      LeaningMeansTheSame(net, l, c);
      OntoMeans(net, Leaning(l), r, c);
    case Both(l, r) =>
      LeaningMeansTheSame(net, l, c);
      OntoMeans(net, Leaning(l), r, c);
    case Neither(g) => LeaningMeansTheSame(net, g, c);
    case _ =>
  }

  lemma {:induction false} OntoMeans(net: Net, left: Filter, f: Filter, c: NodeCtx)
    ensures Holds(net, OrOnto(left, f), c) == (Holds(net, left, c) || Holds(net, f, c))
    ensures Holds(net, AndOnto(left, f), c) == (Holds(net, left, c) && Holds(net, f, c))
    decreases f, 2
  {
    hide CompareHolds;
    LeaningMeansTheSame(net, f, c);
    if f.Either? {
      OntoMeans(net, left, f.left, c);
      OntoMeans(net, OrOnto(left, f.left), f.right, c);
    }
    if f.Both? {
      OntoMeans(net, left, f.left, c);
      OntoMeans(net, AndOnto(left, f.left), f.right, c);
    }
  }

  // ---- parsing what was printed ----

  ghost predicate At<T>(s: seq<T>, pos: nat, part: seq<T>) { pos + |part| <= |s| && s[pos..pos + |part|] == part }

  lemma AtParts<T>(s: seq<T>, pos: nat, a: seq<T>, b: seq<T>)
    requires At(s, pos, a + b)
    ensures At(s, pos, a) && At(s, pos + |a|, b)
  {
    var whole := s[pos..pos + |a + b|];
    assert s[pos..pos + |a|] == whole[..|a|] && s[pos + |a|..pos + |a| + |b|] == whole[|a|..];
  }

  lemma AtOne<T>(s: seq<T>, pos: nat, x: T)
    requires At(s, pos, [x])
    ensures pos < |s| && s[pos] == x
  {
  }

  lemma SplitFirst(toks: seq<Token>, pos: nat, sep: Token, a: seq<Token>, b: seq<Token>)
    requires At(toks, pos, a + ([sep] + b))
    ensures At(toks, pos, a) && At(toks, pos + |a|, [sep] + b) && pos + |a| < |toks| && toks[pos + |a|] == sep
  {
    hide At;
    AtParts(toks, pos, a, [sep] + b);
    AtParts(toks, pos + |a|, [sep], b);
    AtOne(toks, pos + |a|, sep);
  }

  lemma SplitChain(toks: seq<Token>, pos: nat, sep: Token, a: seq<Token>, b: seq<Token>)
    requires At(toks, pos, [sep] + (a + ([sep] + b)))
    ensures At(toks, pos, [sep] + a) && At(toks, pos + 1 + |a|, [sep] + b) && pos + 1 + |a| < |toks|
      && toks[pos + 1 + |a|] == sep
  {
    hide At;
    assert [sep] + (a + ([sep] + b)) == ([sep] + a) + ([sep] + b);
    SplitFirst(toks, pos, sep, [sep] + a, b);
  }

  /** Is there anything structured in it? */
  predicate Structured(f: Filter) { f.Keyword? ==> KnownWord(f.word) }

  predicate NotOp(toks: seq<Token>, pos: nat) { pos >= |toks| || !toks[pos].Op? }

  predicate NotAnd(toks: seq<Token>, pos: nat) { pos >= |toks| || toks[pos] != And }

  lemma EitherShape(l: Filter, r: Filter)
    ensures Print(Either(l, r), 0) == Print(l, 0) + ([Or] + Print(r, 0))
    ensures Print(Either(l, r), 2) == [LParen] + (Print(Either(l, r), 0) + [RParen])
  {
    var open := Print(l, 0) + [Or] + Print(r, 0);
    assert Print(Either(l, r), 0) == Wrapped(open, false) && Print(Either(l, r), 2) == Wrapped(open, true);
    hide Print;
    Regroup(Print(l, 0), [Or], Print(r, 0));
    Parenthesized(open);
  }

  lemma BothShape(l: Filter, r: Filter)
    ensures Print(Both(l, r), 1) == Print(l, 1) + ([And] + Print(r, 1))
    ensures Print(Both(l, r), 2) == [LParen] + (Print(Both(l, r), 0) + [RParen])
  {
    var open := Print(l, 1) + [And] + Print(r, 1);
    assert Print(Both(l, r), 1) == Print(Both(l, r), 0) == Wrapped(open, false)
      && Print(Both(l, r), 2) == Wrapped(open, true);
    hide Print;
    Regroup(Print(l, 1), [And], Print(r, 1));
    Parenthesized(open);
  }

  lemma Regroup(a: seq<Token>, b: seq<Token>, c: seq<Token>)
    ensures a + b + c == a + (b + c)
  {
  }

  lemma Parenthesized(toks: seq<Token>)
    ensures Wrapped(toks, true) == [LParen] + (toks + [RParen])
  {
  }

  lemma LeafShape(f: Filter)
    ensures f.Neither? ==> Print(f, 2) == [Not] + Print(f.inner, 2)
    ensures f.Keyword? ==> Print(f, 2) == [Word(f.word)]
    ensures f.Compare? ==> Print(f, 2) == [Word(f.field)] + ([Op(f.op)] + [Quoted(f.value)])
  {
  }

  lemma LevelShape(f: Filter)
    ensures !f.Either? ==> Print(f, 0) == Print(f, 1)
    ensures !f.Both? ==> Print(f, 1) == Print(f, 2)
  {
  }

  lemma PrintableParts(f: Filter)
    requires Printable(f)
    ensures f.Either? || f.Both? ==> Printable(f.left) && Printable(f.right)
    ensures f.Neither? ==> Printable(f.inner)
    ensures f.Compare? ==> KnownField(f.field)
  {
  }

  lemma {:induction false} NotBack(toks: seq<Token>, pos: nat, saw: bool, f: Filter)
    requires Printable(f) && At(toks, pos, Print(f, 2)) && NotOp(toks, pos + |Print(f, 2)|)
    ensures ParseNot(toks, pos, saw) == Parsed(Leaning(f), pos + |Print(f, 2)|, saw || Structured(f))
    decreases f, if f.Either? || f.Both? then 9 else 3
  {
    hide At, Print, Printable, ParseOr, KnownWord, KnownField, OrOnto, AndOnto;
    PrintableParts(f);
    match f
    case Neither(g) =>
      hide ParsePrimary;
      LeafShape(f);
      AtParts(toks, pos, [Not], Print(g, 2));
      AtOne(toks, pos, Not);
      NotBack(toks, pos + 1, true, g);
    case Either(l, r) =>
      EitherShape(l, r);
      ParensBack(toks, pos, saw, f);
    case Both(l, r) =>
      BothShape(l, r);
      ParensBack(toks, pos, saw, f);
    case _ => LeafBack(toks, pos, saw, f);
  }

  lemma LeafBack(toks: seq<Token>, pos: nat, saw: bool, f: Filter)
    requires Printable(f) && (f.Keyword? || f.Compare?) && At(toks, pos, Print(f, 2))
      && NotOp(toks, pos + |Print(f, 2)|)
    ensures ParseNot(toks, pos, saw) == Parsed(f, pos + |Print(f, 2)|, saw || Structured(f))
  {
    hide At, Print, Printable, ParseNot, ParsePrimary, KnownWord, KnownField, NotOp;
    PrintableParts(f);
    LeafAt(toks, pos, f);
    LeafParses(toks, pos, saw, f);
  }

  /** The tokens of a leaf. */
  predicate IsLeafAt(toks: seq<Token>, pos: nat, f: Filter) {
    match f
    case Keyword(word) => pos < |toks| && toks[pos] == Word(word)
    case Compare(field, op, value) =>
      pos + 2 < |toks| && toks[pos] == Word(field) && toks[pos + 1] == Op(op) && toks[pos + 2] == Quoted(value)
    case _ => false
  }

  lemma LeafAt(toks: seq<Token>, pos: nat, f: Filter)
    requires (f.Keyword? || f.Compare?) && At(toks, pos, Print(f, 2))
    ensures IsLeafAt(toks, pos, f) && |Print(f, 2)| == if f.Keyword? then 1 else 3
  {
    hide At;
    LeafShape(f);
    hide Print;
    match f
    case Keyword(word) => AtOne(toks, pos, Word(word));
    case Compare(field, op, value) =>
      AtParts(toks, pos, [Word(field)], [Op(op)] + [Quoted(value)]);
      AtParts(toks, pos + 1, [Op(op)], [Quoted(value)]);
      AtOne(toks, pos, Word(field));
      AtOne(toks, pos + 1, Op(op));
      AtOne(toks, pos + 2, Quoted(value));
  }

  lemma LeafParses(toks: seq<Token>, pos: nat, saw: bool, f: Filter)
    requires IsLeafAt(toks, pos, f) && (f.Compare? ==> KnownField(f.field)) && (f.Keyword? ==> NotOp(toks, pos + 1))
    ensures ParseNot(toks, pos, saw) == Parsed(f, if f.Keyword? then pos + 1 else pos + 3, saw || Structured(f))
  {
    hide ParseOr, KnownWord, KnownField;
  }

  lemma {:induction false} ParensBack(toks: seq<Token>, pos: nat, saw: bool, f: Filter)
    requires Printable(f) && (f.Either? || f.Both?) && At(toks, pos, [LParen] + (Print(f, 0) + [RParen]))
    ensures ParseNot(toks, pos, saw) == Parsed(Leaning(f), pos + 1 + |Print(f, 0)| + 1, true)
    decreases f, 8
  {
    hide At, Print, Printable, ParseOr, Leaning;
    AtParts(toks, pos, [LParen], Print(f, 0) + [RParen]);
    AtParts(toks, pos + 1, Print(f, 0), [RParen]);
    AtOne(toks, pos, LParen);
    AtOne(toks, pos + 1 + |Print(f, 0)|, RParen);
    OrBack(toks, pos + 1, true, f);
  }

  lemma {:induction false} AndBack(toks: seq<Token>, pos: nat, saw: bool, f: Filter)
    requires Printable(f) && At(toks, pos, Print(f, 1)) && NotOp(toks, pos + |Print(f, 1)|)
    ensures ParseAnd(toks, pos, saw) == AndRest(toks, pos + |Print(f, 1)|, saw || Structured(f), Leaning(f))
    decreases f, if f.Either? then 10 else 4
  {
    hide At, Print, Printable, ParseNot, AndRest, OrOnto, AndOnto, KnownWord, Fair, ParseAnd;
    if f.Both? {
      PrintableParts(f);
      BothShape(f.left, f.right);
      var mid := pos + |Print(f.left, 1)|;
      SplitFirst(toks, pos, And, Print(f.left, 1), Print(f.right, 1));
      AndBack(toks, pos, saw, f.left);
      AndRestBack(toks, mid, saw || Structured(f.left), Leaning(f.left), f.right);
    } else {
      LevelShape(f);
      AtIs(toks, pos, Print(f, 1));
      NotBack(toks, pos, saw, f);
      AndStarts(toks, pos, saw);
    }
  }

  lemma AndStarts(toks: seq<Token>, pos: nat, saw: bool)
    requires pos <= |toks| && ParseNot(toks, pos, saw).Parsed?
    ensures var r := ParseNot(toks, pos, saw);
      r.pos <= |toks| && ParseAnd(toks, pos, saw) == AndRest(toks, r.pos, r.saw, r.f)
  {
  }

  lemma OrStarts(toks: seq<Token>, pos: nat, saw: bool)
    requires pos <= |toks| && ParseAnd(toks, pos, saw).Parsed?
    ensures var r := ParseAnd(toks, pos, saw);
      r.pos <= |toks| && ParseOr(toks, pos, saw) == OrRest(toks, r.pos, r.saw, r.f)
  {
  }

  lemma AndStops(toks: seq<Token>, pos: nat, saw: bool, left: Filter)
    requires pos <= |toks| && NotAnd(toks, pos)
    ensures AndRest(toks, pos, saw, left) == Parsed(left, pos, saw)
  {
  }

  lemma {:induction false} AndRestBack(toks: seq<Token>, pos: nat, saw: bool, left: Filter, f: Filter)
    requires Printable(f) && At(toks, pos, [And] + Print(f, 1)) && NotOp(toks, pos + 1 + |Print(f, 1)|)
    ensures AndRest(toks, pos, saw, left) == AndRest(toks, pos + 1 + |Print(f, 1)|, true, AndOnto(left, f))
    decreases f, 12
  {
    hide At, Print, Printable, ParseNot, Leaning, KnownWord, AndRest, Fair;
    if f.Both? {
      PrintableParts(f);
      BothShape(f.left, f.right);
      var mid := pos + 1 + |Print(f.left, 1)|;
      SplitChain(toks, pos, And, Print(f.left, 1), Print(f.right, 1));
      AndRestBack(toks, pos, saw, left, f.left);
      AndRestBack(toks, mid, true, AndOnto(left, f.left), f.right);
    } else {
      AndOneBack(toks, pos, saw, left, f);
    }
  }

  lemma {:induction false} AndOneBack(toks: seq<Token>, pos: nat, saw: bool, left: Filter, f: Filter)
    requires Printable(f) && !f.Both? && At(toks, pos, [And] + Print(f, 1)) && NotOp(toks, pos + 1 + |Print(f, 1)|)
    ensures AndRest(toks, pos, saw, left) == AndRest(toks, pos + 1 + |Print(f, 1)|, true, Both(left, Leaning(f)))
    decreases f, 11
  {
    hide At, Print, Printable, ParseNot, Leaning, KnownWord, Fair;
    LevelShape(f);
    AtParts(toks, pos, [And], Print(f, 1));
    AtOne(toks, pos, And);
    NotBack(toks, pos + 1, true, f);
  }

  lemma {:induction false} OrBack(toks: seq<Token>, pos: nat, saw: bool, f: Filter)
    requires Printable(f) && At(toks, pos, Print(f, 0)) && NotOp(toks, pos + |Print(f, 0)|)
      && NotAnd(toks, pos + |Print(f, 0)|)
    ensures ParseOr(toks, pos, saw) == OrRest(toks, pos + |Print(f, 0)|, saw || Structured(f), Leaning(f))
    decreases f, 5
  {
    hide At, Print, Printable, ParseAnd, AndRest, OrRest, OrOnto, AndOnto, KnownWord, Fair, ParseOr;
    if f.Either? {
      PrintableParts(f);
      EitherShape(f.left, f.right);
      var mid := pos + |Print(f.left, 0)|;
      SplitFirst(toks, pos, Or, Print(f.left, 0), Print(f.right, 0));
      OrBack(toks, pos, saw, f.left);
      OrRestBack(toks, mid, saw || Structured(f.left), Leaning(f.left), f.right);
    } else {
      LevelShape(f);
      AtIs(toks, pos, Print(f, 0));
      AndBack(toks, pos, saw, f);
      AndStops(toks, pos + |Print(f, 0)|, saw || Structured(f), Leaning(f));
      OrStarts(toks, pos, saw);
    }
  }

  lemma {:induction false} OrRestBack(toks: seq<Token>, pos: nat, saw: bool, left: Filter, f: Filter)
    requires Printable(f) && At(toks, pos, [Or] + Print(f, 0)) && NotOp(toks, pos + 1 + |Print(f, 0)|)
      && NotAnd(toks, pos + 1 + |Print(f, 0)|)
    ensures OrRest(toks, pos, saw, left) == OrRest(toks, pos + 1 + |Print(f, 0)|, true, OrOnto(left, f))
    decreases f, 12
  {
    hide At, Print, Printable, ParseAnd, Leaning, KnownWord, OrRest, Fair;
    if f.Either? {
      PrintableParts(f);
      EitherShape(f.left, f.right);
      var mid := pos + 1 + |Print(f.left, 0)|;
      SplitChain(toks, pos, Or, Print(f.left, 0), Print(f.right, 0));
      OrRestBack(toks, pos, saw, left, f.left);
      OrRestBack(toks, mid, true, OrOnto(left, f.left), f.right);
    } else {
      OrOneBack(toks, pos, saw, left, f);
    }
  }

  lemma {:induction false} OrOneBack(toks: seq<Token>, pos: nat, saw: bool, left: Filter, f: Filter)
    requires Printable(f) && !f.Either? && At(toks, pos, [Or] + Print(f, 0))
    requires NotOp(toks, pos + 1 + |Print(f, 0)|) && NotAnd(toks, pos + 1 + |Print(f, 0)|)
    ensures OrRest(toks, pos, saw, left) == OrRest(toks, pos + 1 + |Print(f, 0)|, true, Either(left, Leaning(f)))
    decreases f, 11
  {
    hide At, Print, Printable, ParseAnd, Leaning, KnownWord, Fair;
    LevelShape(f);
    AtParts(toks, pos, [Or], Print(f, 0));
    AtOne(toks, pos, Or);
    AndBack(toks, pos + 1, true, f);
  }

  // ---- as text ----

  function QuoteFor(v: string): char { if Lacks(v, '"') then '"' else '\'' }

  function TokenText(t: Token): string {
    match t
    case Word(w) => w
    case Quoted(v) => [QuoteFor(v)] + v + [QuoteFor(v)]
    case Op(o) => o
    case And => "&&"
    case Or => "||"
    case Not => "!"
    case LParen => "("
    case RParen => ")"
  }

  /** The tokens, each followed by a blank. */
  function Text(toks: seq<Token>): string { if toks == [] then "" else TokenText(toks[0]) + " " + Text(toks[1..]) }

  ghost predicate Lexable(t: Token) {
    match t
    case Word(w) => PlainWord(w)
    case Quoted(v) => Lacks(v, '"') || Lacks(v, '\'')
    case Op(o) => o in OPS
    case _ => true
  }

  lemma AtIndex<T>(s: seq<T>, pos: nat, part: seq<T>, k: nat)
    requires At(s, pos, part) && k < |part|
    ensures pos + k < |s| && s[pos + k] == part[k]
  {
  }

  lemma {:induction false} WordRuns(s: string, i: nat, end: nat)
    requires i <= end < |s| && EndsWord(s[end]) && forall k :: i <= k < end ==> !EndsWord(s[k])
    ensures WordEnd(s, i) == end
    decreases end - i
  {
  }

  lemma WordStops(s: string, i: nat, w: string)
    requires At(s, i, w + " ") && forall k :: 0 <= k < |w| ==> !EndsWord(w[k])
    ensures WordEnd(s, i) == i + |w| < |s| && s[i..i + |w|] == w
  {
    AtParts(s, i, w, " ");
    AtOne(s, i + |w|, ' ');
    forall k | i <= k < i + |w| ensures !EndsWord(s[k]) { AtIndex(s, i, w, k - i); }
    WordRuns(s, i, i + |w|);
  }

  lemma {:induction false} QuoteRuns(s: string, i: nat, end: nat, q: char)
    requires i <= end < |s| && s[end] == q && forall k :: i <= k < end ==> s[k] != q
    ensures QuoteEnd(s, i, q) == end
    decreases end - i
  {
  }

  lemma QuoteStops(s: string, i: nat, v: string, q: char)
    requires At(s, i, [q] + v + [q]) && Lacks(v, q)
    ensures QuoteEnd(s, i + 1, q) == i + 1 + |v| < |s| && s[i] == q && s[i + 1..i + 1 + |v|] == v
  {
    hide At;
    assert [q] + v + [q] == [q] + (v + [q]);
    AtParts(s, i, [q], v + [q]);
    AtParts(s, i + 1, v, [q]);
    AtOne(s, i, q);
    AtOne(s, i + 1 + |v|, q);
    forall k | i + 1 <= k < i + 1 + |v| ensures s[k] != q { AtIndex(s, i + 1, v, k - i - 1); }
    QuoteRuns(s, i + 1, i + 1 + |v|, q);
    AtIs(s, i + 1, v);
  }

  lemma AtIs<T>(s: seq<T>, pos: nat, part: seq<T>)
    requires At(s, pos, part)
    ensures pos + |part| <= |s| && s[pos..pos + |part|] == part
  {
  }

  /** One printed token is read back in one turn of the lexer. */
  lemma TurnBack(s: string, i: nat, t: Token)
    requires Lexable(t) && At(s, i, TokenText(t) + " ")
    ensures i < |s| && Turn(s, i) == ([t], i + |TokenText(t)|) && |TokenText(t)| > 0
    ensures i + |TokenText(t)| < |s| && s[i + |TokenText(t)|] == ' '
  {
    hide At;
    var text := TokenText(t);
    AtParts(s, i, text, " ");
    AtOne(s, i + |text|, ' ');
    match t
    case Word(w) => WordBack(s, i, w);
    case Quoted(v) => QuotedBack(s, i, v);
    case Op(o) => OpBack(s, i, o);
    case _ => MarkBack(s, i, t);
  }

  lemma WordBack(s: string, i: nat, w: string)
    requires PlainWord(w) && At(s, i, w + " ")
    ensures i < |s| && Turn(s, i) == ([Word(w)], i + |w|)
  {
    hide At, WordToken;
    WordStops(s, i, w);
    AtParts(s, i, w, " ");
    AtIndex(s, i, w, 0);
    assert !EndsWord(w[0]);
  }

  lemma QuotedBack(s: string, i: nat, v: string)
    requires (Lacks(v, '"') || Lacks(v, '\'')) && At(s, i, TokenText(Quoted(v)) + " ")
    ensures i < |s| && Turn(s, i) == ([Quoted(v)], i + |TokenText(Quoted(v))|)
  {
    hide At, Lacks;
    AtParts(s, i, TokenText(Quoted(v)), " ");
    QuoteStops(s, i, v, QuoteFor(v));
  }

  lemma MarkBack(s: string, i: nat, t: Token)
    requires !t.Word? && !t.Quoted? && !t.Op? && At(s, i, TokenText(t) + " ")
    ensures i < |s| && Turn(s, i) == ([t], i + |TokenText(t)|)
  {
    hide At;
    AtIndex(s, i, TokenText(t) + " ", 0);
    AtIndex(s, i, TokenText(t) + " ", 1);
  }

  lemma OpBack(s: string, i: nat, o: string)
    requires o in OPS && At(s, i, o + " ")
    ensures i < |s| && Turn(s, i) == ([Op(o)], i + |o|)
  {
    hide At;
    if o == "==" || o == "!=" {
      SymbolBack(s, i, o);
    } else {
      WordOpBack(s, i, o);
    }
  }

  lemma SymbolBack(s: string, i: nat, o: string)
    requires (o == "==" || o == "!=") && At(s, i, o + " ")
    ensures i < |s| && Turn(s, i) == ([Op(o)], i + 2)
  {
    hide At;
    AtIndex(s, i, o + " ", 0);
    AtIndex(s, i, o + " ", 1);
  }

  lemma WordOpBack(s: string, i: nat, o: string)
    requires (o == "contains" || o == "eq" || o == "ne") && At(s, i, o + " ")
    ensures i < |s| && Turn(s, i) == ([Op(o)], i + |o|)
  {
    hide At;
    AtIndex(s, i, o + " ", 0);
    OpIsWord(o);
    hide Lower, WordEnd;
    WordStops(s, i, o);
  }

  lemma OpIsWord(o: string)
    requires o == "contains" || o == "eq" || o == "ne"
    ensures WordToken(o) == Op(o) && forall k :: 0 <= k < |o| ==> !EndsWord(o[k])
  {
    assert Lower(o) == o;
  }

  lemma {:induction false} LexBack(s: string, i: nat, toks: seq<Token>)
    requires (forall k :: 0 <= k < |toks| ==> Lexable(toks[k])) && At(s, i, Text(toks)) && i + |Text(toks)| == |s|
    ensures Halts(s, i) && Tokens(s, i) == toks
    decreases |toks|
  {
    hide Turn, At, Lexable, TokenText;
    if toks != [] {
      var t := toks[0];
      AtParts(s, i, TokenText(t) + " ", Text(toks[1..]));
      TurnBack(s, i, t);
      var j := i + |TokenText(t)|;
      BlankTurn(s, j);
      LexBack(s, j + 1, toks[1..]);
      hide Halts, Tokens, Text;
      TwoTurns(s, i, t, j);
      assert [t] + toks[1..] == toks;
    }
  }

  /** A token and the blank after it. */
  lemma TwoTurns(s: string, i: nat, t: Token, j: nat)
    requires i < j < |s| && Turn(s, i) == ([t], j) && Turn(s, j) == ([], j + 1) && Halts(s, j + 1)
    ensures Halts(s, i) && Tokens(s, i) == [t] + Tokens(s, j + 1)
  {
    hide Turn, Halts, Tokens;
    OneTurn(s, j, [], j + 1);
    OneTurn(s, i, [t], j);
    assert [] + Tokens(s, j + 1) == Tokens(s, j + 1);
  }

  lemma OneTurn(s: string, i: nat, toks: seq<Token>, j: nat)
    requires i < j <= |s| && Turn(s, i) == (toks, j) && Halts(s, j)
    ensures Halts(s, i) && Tokens(s, i) == toks + Tokens(s, j)
  {
    hide Turn;
  }

  lemma BlankTurn(s: string, i: nat)
    requires i < |s| && s[i] == ' '
    ensures Turn(s, i) == ([], i + 1)
  {
  }

  lemma {:induction false} PrintIsLexable(f: Filter, level: nat)
    requires Printable(f)
    ensures forall t :: t in Print(f, level) ==> Lexable(t)
    decreases f
  {
    hide PlainWord, Lacks;
    match f
    case Either(l, r) => PrintIsLexable(l, 0); PrintIsLexable(r, 0);
    case Both(l, r) => PrintIsLexable(l, 1); PrintIsLexable(r, 1);
    case Neither(g) => PrintIsLexable(g, 2);
    case _ =>
  }

  /** Printing a filter with minimal parentheses, lexing and parsing gives a filter with the same meaning on every
      node, and it is a filter at all unless it is a single unknown word. */
  lemma ParsingInvertsPrinting(net: Net, f: Filter)
    requires Printable(f)
    ensures var query := Text(Print(f, 0));
      && Halts(query, 0) && Tokens(query, 0) == Print(f, 0)
      && (FilterOf(Tokens(query, 0)).Some? <==> Structured(f))
      && (Structured(f) ==> forall c :: Holds(net, FilterOf(Tokens(query, 0)).value, c) == Holds(net, f, c))
  {
    hide Holds, Print, Text, Halts, Tokens, FilterOf, Leaning, Structured, Printable;
    PrintLexesBack(f);
    PrintParsesBack(f);
    forall c ensures Holds(net, Leaning(f), c) == Holds(net, f, c) { LeaningMeansTheSame(net, f, c); }
  }

  lemma PrintLexesBack(f: Filter)
    requires Printable(f)
    ensures var query := Text(Print(f, 0));
      Halts(query, 0) && Tokens(query, 0) == Print(f, 0)
  {
    hide Lexable, Halts, Tokens, Print, Text, Printable;
    var toks := Print(f, 0);
    PrintIsLexable(f, 0);
    assert Text(toks)[0..|Text(toks)|] == Text(toks);
    LexBack(Text(toks), 0, toks);
  }

  lemma PrintParsesBack(f: Filter)
    requires Printable(f)
    ensures FilterOf(Print(f, 0)) == if Structured(f) then Some(Leaning(f)) else None
  {
    SomeTokens(f);
    hide Print, Leaning, Structured, Printable, ParseOr;
    var toks := Print(f, 0);
    assert toks[0..|toks|] == toks;
    OrBack(toks, 0, false, f);
  }

  lemma SomeTokens(f: Filter)
    ensures Print(f, 0) != []
  {
  }

  // ---- every filter read from a query can be printed ----

  lemma {:induction false} LexedIsLexable(s: string, i: nat)
    requires i <= |s| && Halts(s, i)
    ensures forall t :: t in Tokens(s, i) ==> Lexable(t)
    decreases |s| - i
  {
    hide Turn, Lexable;
    if i < |s| {
      TurnIsLexable(s, i);
      LexedIsLexable(s, Turn(s, i).1);
    }
  }

  lemma TurnIsLexable(s: string, i: nat)
    requires i < |s| && Turn(s, i).1 > i
    ensures forall t :: t in Turn(s, i).0 ==> Lexable(t)
  {
    var w := s[i..WordEnd(s, i)];
    assert forall k :: 0 <= k < |w| ==> w[k] == s[i + k];
    if IsQuote(s[i]) {
      var v := s[i + 1..QuoteEnd(s, i + 1, s[i])];
      assert forall k :: 0 <= k < |v| ==> v[k] == s[i + 1 + k];
      assert Lacks(v, s[i]);
    }
  }

  ghost predicate AllLexable(toks: seq<Token>) { forall i :: 0 <= i < |toks| ==> Lexable(toks[i]) }

  lemma {:induction false} OrIsPrintable(toks: seq<Token>, pos: nat, saw: bool)
    requires pos <= |toks| && AllLexable(toks)
    ensures ParseOr(toks, pos, saw).Parsed? ==> Printable(ParseOr(toks, pos, saw).f)
    decreases |toks| - pos, 4
  {
    hide ParseAnd, OrRest, Printable, AllLexable;
    AndIsPrintable(toks, pos, saw);
    if ParseAnd(toks, pos, saw).Parsed? {
      var r := ParseAnd(toks, pos, saw);
      OrRestIsPrintable(toks, r.pos, r.saw, r.f);
    }
  }

  lemma {:induction false} OrRestIsPrintable(toks: seq<Token>, pos: nat, saw: bool, left: Filter)
    requires pos <= |toks| && AllLexable(toks) && Printable(left)
    ensures OrRest(toks, pos, saw, left).Parsed? ==> Printable(OrRest(toks, pos, saw, left).f)
    decreases |toks| - pos, 3
  {
    hide ParseAnd, AllLexable;
    if pos < |toks| && toks[pos] == Or {
      AndIsPrintable(toks, pos + 1, true);
      var r := ParseAnd(toks, pos + 1, true);
      if r.Parsed? {
        OrRestIsPrintable(toks, r.pos, r.saw, Either(left, r.f));
      }
    }
  }

  lemma {:induction false} AndIsPrintable(toks: seq<Token>, pos: nat, saw: bool)
    requires pos <= |toks| && AllLexable(toks)
    ensures ParseAnd(toks, pos, saw).Parsed? ==> Printable(ParseAnd(toks, pos, saw).f)
    decreases |toks| - pos, 2
  {
    hide ParseNot, AndRest, Printable, AllLexable;
    NotIsPrintable(toks, pos, saw);
    if ParseNot(toks, pos, saw).Parsed? {
      var r := ParseNot(toks, pos, saw);
      AndRestIsPrintable(toks, r.pos, r.saw, r.f);
    }
  }

  lemma {:induction false} AndRestIsPrintable(toks: seq<Token>, pos: nat, saw: bool, left: Filter)
    requires pos <= |toks| && AllLexable(toks) && Printable(left)
    ensures AndRest(toks, pos, saw, left).Parsed? ==> Printable(AndRest(toks, pos, saw, left).f)
    decreases |toks| - pos, 2
  {
    hide ParseNot, AllLexable;
    if pos < |toks| && toks[pos] == And {
      NotIsPrintable(toks, pos + 1, true);
      var r := ParseNot(toks, pos + 1, true);
      if r.Parsed? {
        AndRestIsPrintable(toks, r.pos, r.saw, Both(left, r.f));
      }
    }
  }

  lemma {:induction false} NotIsPrintable(toks: seq<Token>, pos: nat, saw: bool)
    requires pos <= |toks| && AllLexable(toks)
    ensures ParseNot(toks, pos, saw).Parsed? ==> Printable(ParseNot(toks, pos, saw).f)
    decreases |toks| - pos, 1
  {
    hide ParsePrimary, AllLexable;
    if pos < |toks| && toks[pos] == Not {
      NotIsPrintable(toks, pos + 1, true);
    } else {
      PrimaryIsPrintable(toks, pos, saw);
    }
  }

  lemma {:induction false} PrimaryIsPrintable(toks: seq<Token>, pos: nat, saw: bool)
    requires pos <= |toks| && AllLexable(toks)
    ensures ParsePrimary(toks, pos, saw).Parsed? ==> Printable(ParsePrimary(toks, pos, saw).f)
    decreases |toks| - pos, 0
  {
    hide ParseOr, KnownField;
    if pos < |toks| {
      if toks[pos] == LParen {
        OrIsPrintable(toks, pos + 1, true);
      } else {
        assert Lexable(toks[pos]) && (pos + 1 < |toks| ==> Lexable(toks[pos + 1]))
          && (pos + 2 < |toks| ==> Lexable(toks[pos + 2]));
      }
    }
  }

  /** Whatever query is accepted, its filter can be printed, and reading the print again keeps its meaning; only an
      unknown word that was accepted for its parentheses, as in "(foo)", is no filter once they are gone. */
  lemma AcceptedQueriesReadBack(net: Net, query: string)
    requires Halts(query, 0) && FilterOf(Tokens(query, 0)).Some?
    ensures var f := FilterOf(Tokens(query, 0)).value;
      var again := Text(Print(f, 0));
      && Printable(f) && Halts(again, 0) && (FilterOf(Tokens(again, 0)).Some? <==> Structured(f))
      && (Structured(f) ==> forall c :: Holds(net, FilterOf(Tokens(again, 0)).value, c) == Holds(net, f, c))
  {
    hide Lexable, Printable, Holds, Turn, ParseOr;
    LexedIsLexable(query, 0);
    OrIsPrintable(Tokens(query, 0), 0, false);
    ParsingInvertsPrinting(net, FilterOf(Tokens(query, 0)).value);
  }
}
