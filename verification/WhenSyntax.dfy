/** The grammar of `when` conditions: trees, the tokens they print to, and a parser that recovers them. */
module WhenSyntax {
  import opened Wrappers

  datatype Kind = STRING | FLOAT | INT | OP | NOT | LPAREN | RPAREN | COMMA | WORD

  datatype Token = Token(kind: Kind, value: string)

  const COMPARISONS: set<string> := {"==", "!=", ">=", "<=", ">", "<"}
  const KEYWORDS: set<string> := {"true", "false", "null"}
  const FUNCTIONS: set<string> := {"is_null", "is_present"}

  /** One type per grammar level; `||` and `&&` chains lean to the left. */
  datatype OrExpr = OrOne(first: AndExpr) | OrMore(left: OrExpr, right: AndExpr)
  datatype AndExpr = AndOne(only: NotExpr) | AndMore(init: AndExpr, last: NotExpr)
  datatype NotExpr = Negated(operand: NotExpr) | Positive(cmp: CmpExpr)
  datatype CmpExpr = Single(prim: Primary) | Compared(lhs: Primary, op: string, rhs: Primary)
  datatype Primary = Group(inner: OrExpr) | Literal(tok: Token) | Path(path: string) | Call(fn: string, arg: Primary)

  predicate IsLiteral(t: Token) {
    t.kind == STRING || t.kind == FLOAT || t.kind == INT || (t.kind == WORD && t.value in KEYWORDS)
  }

  const OR := Token(OP, "||")
  const AND := Token(OP, "&&")
  const OPEN := Token(LPAREN, "(")
  const CLOSE := Token(RPAREN, ")")
  const BANG := Token(NOT, "!")

  function OrToks(e: OrExpr): (ts: seq<Token>)
    ensures ts != []
  {
    match e
    case OrOne(a) => AndToks(a)
    case OrMore(l, r) => OrToks(l) + [OR] + AndToks(r)
  }

  function AndToks(e: AndExpr): (ts: seq<Token>)
    ensures ts != []
  {
    match e
    case AndOne(n) => NotToks(n)
    case AndMore(l, r) => AndToks(l) + [AND] + NotToks(r)
  }

  function NotToks(e: NotExpr): (ts: seq<Token>)
    ensures ts != []
  {
    match e
    case Negated(n) => [BANG] + NotToks(n)
    case Positive(c) => CmpToks(c)
  }

  function CmpToks(e: CmpExpr): (ts: seq<Token>)
    ensures ts != []
  {
    match e
    case Single(p) => PrimToks(p)
    case Compared(l, op, r) => PrimToks(l) + [Token(OP, op)] + PrimToks(r)
  }

  function PrimToks(e: Primary): (ts: seq<Token>)
    ensures ts != []
  {
    match e
    case Group(inner) => [OPEN] + OrToks(inner) + [CLOSE]
    case Literal(t) => [t]
    case Path(p) => [Token(WORD, p)]
    case Call(f, arg) => [Token(WORD, f), OPEN] + PrimToks(arg) + [CLOSE]
  }

  /** The trees of the grammar: known comparison operators, functions and literals, paths that are not keywords. */
  predicate OrOk(e: OrExpr) {
    match e
    case OrOne(a) => AndOk(a)
    case OrMore(l, r) => OrOk(l) && AndOk(r)
  }

  predicate AndOk(e: AndExpr) {
    match e
    case AndOne(n) => NotOk(n)
    case AndMore(l, r) => AndOk(l) && NotOk(r)
  }

  predicate NotOk(e: NotExpr) {
    match e
    case Negated(n) => NotOk(n)
    case Positive(c) => CmpOk(c)
  }

  predicate CmpOk(e: CmpExpr) {
    match e
    case Single(p) => PrimOk(p)
    case Compared(l, op, r) => PrimOk(l) && op in COMPARISONS && PrimOk(r)
  }

  predicate PrimOk(e: Primary) {
    match e
    case Group(inner) => OrOk(inner)
    case Literal(t) => IsLiteral(t)
    case Path(p) => p !in KEYWORDS
    case Call(f, arg) => f in FUNCTIONS && PrimOk(arg)
  }

  // ------------------------------------------------------------------ the parser, as a function

  type Parsed<T> = Option<(T, nat)>

  predicate At(ts: seq<Token>, i: nat, t: Token) {
    i < |ts| && ts[i] == t
  }

  predicate AtKind(ts: seq<Token>, i: nat, k: Kind) {
    i < |ts| && ts[i].kind == k
  }

  predicate AtComparison(ts: seq<Token>, i: nat) {
    i < |ts| && ts[i].kind == OP && ts[i].value in COMPARISONS
  }

  /** What was consumed is what the tree prints to. The parenthesis kinds carry their only text. */
  predicate Spans(ts: seq<Token>, i: nat, j: nat, toks: seq<Token>) {
    i < j <= |ts| && ts[i..j] == toks
  }

  /** Punctuation tokens have one text each, as the tokenizer produces them. */
  predicate Lexed(ts: seq<Token>) {
    forall i :: 0 <= i < |ts| ==>
      (ts[i].kind == LPAREN ==> ts[i] == OPEN) && (ts[i].kind == RPAREN ==> ts[i] == CLOSE)
        && (ts[i].kind == NOT ==> ts[i] == BANG)
  }

  lemma Join(ts: seq<Token>, i: nat, j: nat, k: nat)
    requires i <= j < k <= |ts|
    ensures ts[i..k] == ts[i..j] + [ts[j]] + ts[j + 1..k]
    ensures i == j ==> ts[i..k] == [ts[i]] + ts[i + 1..k]
  {
  }

  lemma Bracket(ts: seq<Token>, i: nat, m: nat, j: nat)
    requires i + 1 <= m <= i + 2 && m <= j < |ts|
    ensures m == i + 1 ==> ts[i..j + 1] == [ts[i]] + ts[i + 1..j] + [ts[j]]
    ensures m == i + 2 ==> ts[i..j + 1] == [ts[i], ts[i + 1]] + ts[i + 2..j] + [ts[j]]
  {
  }

  function ParseOr(ts: seq<Token>, i: nat): (r: Parsed<OrExpr>)
    requires Lexed(ts)
    ensures r.Some? ==> OrOk(r.value.0) && Spans(ts, i, r.value.1, OrToks(r.value.0))
    decreases |ts| - i, 5
  {
    match ParseAnd(ts, i)
    case None => None
    case Some((a, j)) => MoreOr(ts, i, OrOne(a), j)
  }

  function MoreOr(ts: seq<Token>, i: nat, l: OrExpr, j: nat): (r: Parsed<OrExpr>)
    requires Lexed(ts) && OrOk(l) && Spans(ts, i, j, OrToks(l))
    ensures r.Some? ==> OrOk(r.value.0) && Spans(ts, i, r.value.1, OrToks(r.value.0))
    decreases |ts| - j, 6
  {
    if At(ts, j, OR) then
      match ParseAnd(ts, j + 1)
      case None => None
      case Some((b, k)) =>
        Join(ts, i, j, k);
        MoreOr(ts, i, OrMore(l, b), k)
    else Some((l, j))
  }

  function ParseAnd(ts: seq<Token>, i: nat): (r: Parsed<AndExpr>)
    requires Lexed(ts)
    ensures r.Some? ==> AndOk(r.value.0) && Spans(ts, i, r.value.1, AndToks(r.value.0))
    decreases |ts| - i, 3
  {
    match ParseNot(ts, i)
    case None => None
    case Some((n, j)) => MoreAnd(ts, i, AndOne(n), j)
  }

  function MoreAnd(ts: seq<Token>, i: nat, l: AndExpr, j: nat): (r: Parsed<AndExpr>)
    requires Lexed(ts) && AndOk(l) && Spans(ts, i, j, AndToks(l))
    ensures r.Some? ==> AndOk(r.value.0) && Spans(ts, i, r.value.1, AndToks(r.value.0))
    decreases |ts| - j, 4
  {
    if At(ts, j, AND) then
      match ParseNot(ts, j + 1)
      case None => None
      case Some((b, k)) =>
        Join(ts, i, j, k);
        MoreAnd(ts, i, AndMore(l, b), k)
    else Some((l, j))
  }

  function ParseNot(ts: seq<Token>, i: nat): (r: Parsed<NotExpr>)
    requires Lexed(ts)
    ensures r.Some? ==> NotOk(r.value.0) && Spans(ts, i, r.value.1, NotToks(r.value.0))
    decreases |ts| - i, 2
  {
    if AtKind(ts, i, NOT) then
      match ParseNot(ts, i + 1)
      case None => None
      case Some((n, j)) =>
        Join(ts, i, i, j);
        Some((Negated(n), j))
    else
      match ParseCmp(ts, i)
      case None => None
      case Some((c, j)) => Some((Positive(c), j))
  }

  function ParseCmp(ts: seq<Token>, i: nat): (r: Parsed<CmpExpr>)
    requires Lexed(ts)
    ensures r.Some? ==> CmpOk(r.value.0) && Spans(ts, i, r.value.1, CmpToks(r.value.0))
    decreases |ts| - i, 1
  {
    match ParsePrim(ts, i)
    case None => None
    case Some((p, j)) =>
      if AtComparison(ts, j) then
        match ParsePrim(ts, j + 1)
        case None => None
        case Some((q, k)) =>
          Join(ts, i, j, k);
          Some((Compared(p, ts[j].value, q), k))
      else Some((Single(p), j))
  }

  function ParsePrim(ts: seq<Token>, i: nat): (r: Parsed<Primary>)
    requires Lexed(ts)
    ensures r.Some? ==> PrimOk(r.value.0) && Spans(ts, i, r.value.1, PrimToks(r.value.0))
    decreases |ts| - i, 0
  {
    if i >= |ts| then None
    else if ts[i].kind == LPAREN then
      match ParseOr(ts, i + 1)
      case None => None
      case Some((e, j)) =>
        if AtKind(ts, j, RPAREN) then
          Bracket(ts, i, i + 1, j);
          Some((Group(e), j + 1))
        else None
    else if IsLiteral(ts[i]) then
      assert ts[i..i + 1] == [ts[i]];
      Some((Literal(ts[i]), i + 1))
    else if ts[i].kind == WORD then
      if AtKind(ts, i + 1, LPAREN) then
        if ts[i].value !in FUNCTIONS then None
        else
          match ParsePrim(ts, i + 2)
          case None => None
          case Some((arg, j)) =>
            if AtKind(ts, j, RPAREN) then
              Bracket(ts, i, i + 2, j);
              Some((Call(ts[i].value, arg), j + 1))
            else None
      else
        assert ts[i..i + 1] == [ts[i]];
        Some((Path(ts[i].value), i + 1))
    else None
  }

  /** The whole text is one expression. */
  function Parse(ts: seq<Token>): (r: Option<OrExpr>)
    requires Lexed(ts)
    ensures r.Some? ==> OrOk(r.value) && OrToks(r.value) == ts
  {
    match ParseOr(ts, 0)
    case None => None
    case Some((e, j)) =>
      if j == |ts| then
        assert ts[0..j] == ts;
        Some(e)
      else None
  }

  // ------------------------------------------------------------------ nothing is missed

  /** What may not follow an expression of each level if the parser is to stop there. */
  predicate PrimEnds(ts: seq<Token>, j: nat) { !AtKind(ts, j, LPAREN) }
  predicate CmpEnds(ts: seq<Token>, j: nat) { PrimEnds(ts, j) && !AtComparison(ts, j) }
  predicate AndEnds(ts: seq<Token>, j: nat) { CmpEnds(ts, j) && !At(ts, j, AND) }
  predicate OrEnds(ts: seq<Token>, j: nat) { AndEnds(ts, j) && !At(ts, j, OR) }

  lemma SpanParts(ts: seq<Token>, i: nat, j: nat, a: seq<Token>, t: Token, b: seq<Token>)
    requires Spans(ts, i, j, a + [t] + b) && a != [] && b != []
    ensures var m := i + |a|; Spans(ts, i, m, a) && At(ts, m, t) && Spans(ts, m + 1, j, b)
  {
    var m, s := i + |a|, a + [t] + b;
    assert ts[i..j] == s;
    assert s[..|a|] == a && s[|a|] == t && s[|a| + 1..] == b;
    assert ts[i..m] == ts[i..j][..|a|];
    assert ts[m] == ts[i..j][|a|];
    assert ts[m + 1..j] == ts[i..j][|a| + 1..];
  }

  lemma {:induction false} FindOr(ts: seq<Token>, i: nat, e: OrExpr, j: nat)
    requires Lexed(ts) && OrOk(e) && Spans(ts, i, j, OrToks(e)) && (OrEnds(ts, j) || At(ts, j, OR))
    ensures ParseOr(ts, i) == MoreOr(ts, i, e, j)
    decreases e, 5
  {
    hide MoreOr, ParseAnd, AndOk, AndToks, Lexed;
    match e
    case OrOne(a) => FindAnd(ts, i, a, j);
    case OrMore(l, r) =>
      SpanParts(ts, i, j, OrToks(l), OR, AndToks(r));
      var m := i + |OrToks(l)|;
      FindOr(ts, i, l, m);
      FindAnd(ts, m + 1, r, j);
      OrStep(ts, i, l, m, r, j);
  }

  lemma OrStep(ts: seq<Token>, i: nat, l: OrExpr, m: nat, r: AndExpr, j: nat)
    requires Lexed(ts) && OrOk(l) && Spans(ts, i, m, OrToks(l)) && At(ts, m, OR) && ParseAnd(ts, m + 1) == Some((r, j))
    ensures OrOk(OrMore(l, r)) && Spans(ts, i, j, OrToks(OrMore(l, r)))
    ensures MoreOr(ts, i, l, m) == MoreOr(ts, i, OrMore(l, r), j)
  {
    hide ParseAnd, AndToks, Lexed;
    Join(ts, i, m, j);
  }

  lemma {:induction false} FindAnd(ts: seq<Token>, i: nat, e: AndExpr, j: nat)
    requires Lexed(ts) && AndOk(e) && Spans(ts, i, j, AndToks(e)) && AndEnds(ts, j)
    ensures ParseAnd(ts, i) == Some((e, j))
    decreases e, 4
  {
    FindAndPrefix(ts, i, e, j);
  }

  lemma {:induction false} FindAndPrefix(ts: seq<Token>, i: nat, e: AndExpr, j: nat)
    requires Lexed(ts) && AndOk(e) && Spans(ts, i, j, AndToks(e)) && (AndEnds(ts, j) || At(ts, j, AND))
    ensures ParseAnd(ts, i) == MoreAnd(ts, i, e, j)
    decreases e, 3
  {
    hide MoreAnd, ParseNot, NotOk, NotToks, Lexed;
    match e
    case AndOne(n) => FindNot(ts, i, n, j);
    case AndMore(l, r) =>
      SpanParts(ts, i, j, AndToks(l), AND, NotToks(r));
      var m := i + |AndToks(l)|;
      FindAndPrefix(ts, i, l, m);
      FindNot(ts, m + 1, r, j);
      AndStep(ts, i, l, m, r, j);
  }

  lemma AndStep(ts: seq<Token>, i: nat, l: AndExpr, m: nat, r: NotExpr, j: nat)
    requires Lexed(ts) && AndOk(l) && Spans(ts, i, m, AndToks(l)) && At(ts, m, AND)
      && ParseNot(ts, m + 1) == Some((r, j))
    ensures AndOk(AndMore(l, r)) && Spans(ts, i, j, AndToks(AndMore(l, r)))
    ensures MoreAnd(ts, i, l, m) == MoreAnd(ts, i, AndMore(l, r), j)
  {
    hide ParseNot, NotToks, Lexed;
    Join(ts, i, m, j);
  }

  lemma {:induction false} FindNot(ts: seq<Token>, i: nat, e: NotExpr, j: nat)
    requires Lexed(ts) && NotOk(e) && Spans(ts, i, j, NotToks(e)) && CmpEnds(ts, j)
    ensures ParseNot(ts, i) == Some((e, j))
    decreases e, 2
  {
    assert ts[i..j][0] == ts[i];
    match e
    case Negated(n) =>
      assert ts[i..j][1..] == ts[i + 1..j];
      FindNot(ts, i + 1, n, j);
    case Positive(c) =>
      FindCmp(ts, i, c, j);
      FirstOfCmp(c);
  }

  lemma FirstOfCmp(c: CmpExpr)
    requires CmpOk(c)
    ensures CmpToks(c)[0].kind != NOT
  {
  }

  lemma {:induction false} FindCmp(ts: seq<Token>, i: nat, e: CmpExpr, j: nat)
    requires Lexed(ts) && CmpOk(e) && Spans(ts, i, j, CmpToks(e)) && CmpEnds(ts, j)
    ensures ParseCmp(ts, i) == Some((e, j))
    decreases e, 1
  {
    hide ParsePrim, Lexed, PrimOk;
    match e
    case Single(p) => FindPrim(ts, i, p, j);
    case Compared(l, op, r) =>
      SpanParts(ts, i, j, PrimToks(l), Token(OP, op), PrimToks(r));
      var m := i + |PrimToks(l)|;
      FindPrim(ts, i, l, m);
      FindPrim(ts, m + 1, r, j);
  }

  lemma {:induction false} FindPrim(ts: seq<Token>, i: nat, e: Primary, j: nat)
    requires Lexed(ts) && PrimOk(e) && Spans(ts, i, j, PrimToks(e)) && PrimEnds(ts, j)
    ensures ParsePrim(ts, i) == Some((e, j))
    decreases e, 0
  {
    hide Lexed, ParseOr, ParsePrim, OrOk, PrimEnds, Spans, IsLiteral, OrToks;
    match e
    case Literal(t) => LeafFound(ts, i, e, j);
    case Path(p) => LeafFound(ts, i, e, j);
    case Group(inner) =>
      SpanInside(ts, i, j, [OPEN], OrToks(inner), CLOSE);
      TokenAt(ts, i, j, PrimToks(e), 0);
      ClosingEnds(ts, j - 1);
      FindOr(ts, i + 1, inner, j - 1);
      GroupFound(ts, i, inner, j);
    case Call(f, arg) =>
      SpanInside(ts, i, j, [Token(WORD, f), OPEN], PrimToks(arg), CLOSE);
      TokenAt(ts, i, j, PrimToks(e), 0);
      TokenAt(ts, i, j, PrimToks(e), 1);
      ClosingEnds(ts, j - 1);
      FindPrim(ts, i + 2, arg, j - 1);
      CallFound(ts, i, f, arg, j);
  }

  lemma TokenAt(ts: seq<Token>, i: nat, j: nat, toks: seq<Token>, k: nat)
    requires Spans(ts, i, j, toks) && k < |toks|
    ensures At(ts, i + k, toks[k])
  {
    assert ts[i..j][k] == ts[i + k];
  }

  /** A closing parenthesis ends whatever precedes it. */
  lemma ClosingEnds(ts: seq<Token>, j: nat)
    requires At(ts, j, CLOSE)
    ensures OrEnds(ts, j)
  {
  }

  lemma LeafFound(ts: seq<Token>, i: nat, e: Primary, j: nat)
    requires Lexed(ts) && PrimOk(e) && Spans(ts, i, j, PrimToks(e)) && PrimEnds(ts, j) && (e.Literal? || e.Path?)
    ensures ParsePrim(ts, i) == Some((e, j))
  {
    hide Lexed, ParseOr;
    assert ts[i..j][0] == ts[i] && |ts[i..j]| == 1;
  }

  lemma GroupFound(ts: seq<Token>, i: nat, inner: OrExpr, j: nat)
    requires Lexed(ts) && OrOk(inner) && 0 < j && Spans(ts, i + 1, j - 1, OrToks(inner)) && At(ts, i, OPEN)
      && At(ts, j - 1, CLOSE)
    requires ParseOr(ts, i + 1) == MoreOr(ts, i + 1, inner, j - 1)
    ensures ParsePrim(ts, i) == Some((Group(inner), j))
  {
    hide Lexed, ParseOr, OrOk, Spans, OrToks;
  }

  lemma CallFound(ts: seq<Token>, i: nat, f: string, arg: Primary, j: nat)
    requires Lexed(ts) && At(ts, i, Token(WORD, f)) && At(ts, i + 1, OPEN) && 0 < j && At(ts, j - 1, CLOSE)
      && f in FUNCTIONS
    requires ParsePrim(ts, i + 2) == Some((arg, j - 1))
    ensures ParsePrim(ts, i) == Some((Call(f, arg), j))
  {
    hide Lexed, ParseOr, Spans, PrimToks, PrimOk;
  }

  lemma SpanInside(ts: seq<Token>, i: nat, j: nat, a: seq<Token>, b: seq<Token>, t: Token)
    requires Spans(ts, i, j, a + b + [t]) && b != []
    ensures Spans(ts, i + |a|, j - 1, b) && At(ts, j - 1, t)
  {
    assert |ts[i..j]| == j - i == |a| + |b| + 1;
    forall k | 0 <= k < |b| ensures ts[i + |a| + k] == b[k] {
      assert ts[i..j][|a| + k] == (a + b + [t])[|a| + k];
    }
    assert ts[i + |a|..j - 1] == b;
    assert ts[i..j][|a| + |b|] == ts[j - 1];
  }

  /** Every tree is recovered from its tokens, so a token list comes from at most one tree. */
  lemma ParseRecovers(e: OrExpr)
    requires OrOk(e) && Lexed(OrToks(e))
    ensures Parse(OrToks(e)) == Some(e)
  {
    var ts := OrToks(e);
    assert ts[0..|ts|] == ts;
    FindOr(ts, 0, e, |ts|);
  }

  /** A token list is accepted exactly when it is the print of a tree, and then of one tree only. */
  lemma AcceptedIsPrinted(ts: seq<Token>)
    requires Lexed(ts)
    ensures Parse(ts).Some? <==> exists e :: OrOk(e) && OrToks(e) == ts
    ensures forall e, f :: OrOk(e) && OrOk(f) && OrToks(e) == ts && OrToks(f) == ts ==> e == f
  {
    forall e | OrOk(e) && OrToks(e) == ts ensures Parse(ts) == Some(e) {
      ParseRecovers(e);
    }
    if Parse(ts).Some? {
      assert OrOk(Parse(ts).value) && OrToks(Parse(ts).value) == ts;
    }
  }
}
