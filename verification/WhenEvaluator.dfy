/** The two recursive-descent passes over a condition: the linter, which only moves its position, and
    the evaluator, which computes values while it parses. */
module WhenEvaluator {
  import opened Wrappers
  import opened Json
  import opened WhenSyntax
  import opened WhenLexer
  import opened WhenValues

  /** Accepting up to position j, or rejecting, as the grammar says. */
  predicate Consumed<T>(parsed: Parsed<T>, ok: bool, pos: nat) {
    ok == parsed.Some? && (ok ==> pos == parsed.value.1)
  }

  class Linter {
    const tokens: seq<Token>
    var pos: nat

    constructor (tokens: seq<Token>)
      ensures this.tokens == tokens && pos == 0
    {
      this.tokens, pos := tokens, 0;
    }

    method Parse() returns (ok: bool)
      requires Lexed(tokens) && pos == 0
      modifies this
      ensures ok <==> WhenSyntax.Parse(tokens).Some?
    {
      ok := OrExpr();
      if ok && pos < |tokens| {
        ok := false;
      }
    }

    method OrExpr() returns (ok: bool)
      requires Lexed(tokens)
      modifies this
      ensures Consumed(ParseOr(tokens, old(pos)), ok, pos)
      decreases |tokens| - pos, 5
    {
      ghost var start := pos;
      ok := AndExpr();
      if !ok { return; }
      ghost var left := OrOne(ParseAnd(tokens, start).value.0);
      while At(tokens, pos, OR)
        invariant start < pos <= |tokens| && OrOk(left) && Spans(tokens, start, pos, OrToks(left))
        invariant ParseOr(tokens, start) == MoreOr(tokens, start, left, pos)
        decreases |tokens| - pos
      {
        ghost var m := pos;
        pos := pos + 1;
        ok := AndExpr();
        if !ok { return; }
        Join(tokens, start, m, pos);
        left := OrMore(left, ParseAnd(tokens, m + 1).value.0);
      }
      ok := true;
    }

    method AndExpr() returns (ok: bool)
      requires Lexed(tokens)
      modifies this
      ensures Consumed(ParseAnd(tokens, old(pos)), ok, pos)
      decreases |tokens| - pos, 3
    {
      ghost var start := pos;
      ok := NotExpr();
      if !ok { return; }
      ghost var left := AndOne(ParseNot(tokens, start).value.0);
      while At(tokens, pos, AND)
        invariant start < pos <= |tokens| && AndOk(left) && Spans(tokens, start, pos, AndToks(left))
        invariant ParseAnd(tokens, start) == MoreAnd(tokens, start, left, pos)
        decreases |tokens| - pos
      {
        ghost var m := pos;
        pos := pos + 1;
        ok := NotExpr();
        if !ok { return; }
        Join(tokens, start, m, pos);
        left := AndMore(left, ParseNot(tokens, m + 1).value.0);
      }
      ok := true;
    }

    method NotExpr() returns (ok: bool)
      requires Lexed(tokens)
      modifies this
      ensures Consumed(ParseNot(tokens, old(pos)), ok, pos)
      decreases |tokens| - pos, 2
    {
      if AtKind(tokens, pos, NOT) {
        pos := pos + 1;
        ok := NotExpr();
      } else {
        ok := CmpExpr();
      }
    }

    method CmpExpr() returns (ok: bool)
      requires Lexed(tokens)
      modifies this
      ensures Consumed(ParseCmp(tokens, old(pos)), ok, pos)
      decreases |tokens| - pos, 1
    {
      ok := Primary();
      if ok && AtComparison(tokens, pos) {
        pos := pos + 1;
        ok := Primary();
      }
    }

    method Primary() returns (ok: bool)
      requires Lexed(tokens)
      modifies this
      ensures Consumed(ParsePrim(tokens, old(pos)), ok, pos)
      decreases |tokens| - pos, 0
    {
      if pos >= |tokens| {
        return false;
      }
      var tok := tokens[pos];
      if tok.kind == LPAREN {
        pos := pos + 1;
        ok := OrExpr();
        if ok {
          ok := Expect(RPAREN);
        }
        return;
      }
      if IsLiteral(tok) {
        pos := pos + 1;
        return true;
      }
      if tok.kind == WORD {
        pos := pos + 1;
        if AtKind(tokens, pos, LPAREN) {
          if tok.value !in FUNCTIONS {
            return false;
          }
          pos := pos + 1;
          ok := Primary();
          if ok {
            ok := Expect(RPAREN);
          }
          return;
        }
        return true;
      }
      return false;
    }

    method Expect(kind: Kind) returns (ok: bool)
      modifies this
      ensures ok == AtKind(tokens, old(pos), kind)
      ensures pos == if ok then old(pos) + 1 else old(pos)
    {
      ok := AtKind(tokens, pos, kind);
      if ok {
        pos := pos + 1;
      }
    }
  }

  /** lint_when_expression. */
  method Lint(text: string) returns (ok: bool)
    ensures ok <==> Linted(text)
  {
    var tokens := LintTokens(text);
    if tokens.Err? || tokens.value == [] {
      return false;
    }
    var parser := new Linter(tokens.value);
    ok := parser.Parse();
  }

  /** The validator's own copy of tokenizer and parser, which nothing calls any more: it scans like the run
      time and parses like the linter, and agrees with both. */
  method ParsesWhen(text: string) returns (ok: bool)
    ensures ok <==> Linted(text)
  {
    var tokens := EvalTokens(text);
    if tokens.Err? {
      return false;
    }
    var parser := new Linter(tokens.value);
    ok := parser.Parse();
  }

  /** The evaluator's result and position against the tree the grammar finds: on a tree with a value it
      returns that value at the tree's end, on a tree without one it raises the tree's error, and where
      the grammar finds no tree it raises something. */
  predicate Evaluated<T(!new)>(parsed: Parsed<T>, value: T -> Outcome, r: Outcome, pos: nat) {
    match parsed
    case None => r.Fail?
    case Some((t, j)) => r == value(t) && (r.Val? ==> pos == j)
  }

  lemma {:induction false} OrStrict(ts: seq<Token>, i: nat, l: OrExpr, j: nat, view: Snapshot, trigger: string)
    requires Lexed(ts) && OrOk(l) && Spans(ts, i, j, OrToks(l)) && OrValue(l, view, trigger).Fail?
    ensures var p := MoreOr(ts, i, l, j); p.Some? ==> OrValue(p.value.0, view, trigger) == OrValue(l, view, trigger)
    decreases |ts| - j
  {
    if At(ts, j, OR) && ParseAnd(ts, j + 1).Some? {
      var (b, k) := ParseAnd(ts, j + 1).value;
      Join(ts, i, j, k);
      OrStrict(ts, i, OrMore(l, b), k, view, trigger);
    }
  }

  lemma {:induction false} AndStrict(ts: seq<Token>, i: nat, l: AndExpr, j: nat, view: Snapshot, trigger: string)
    requires Lexed(ts) && AndOk(l) && Spans(ts, i, j, AndToks(l)) && AndValue(l, view, trigger).Fail?
    ensures var p := MoreAnd(ts, i, l, j); p.Some? ==> AndValue(p.value.0, view, trigger) == AndValue(l, view, trigger)
    decreases |ts| - j
  {
    if At(ts, j, AND) && ParseNot(ts, j + 1).Some? {
      var (b, k) := ParseNot(ts, j + 1).value;
      Join(ts, i, j, k);
      AndStrict(ts, i, AndMore(l, b), k, view, trigger);
    }
  }

  class Evaluator {
    const tokens: seq<Token>
    const view: Snapshot
    const trigger: string
    var pos: nat

    constructor (tokens: seq<Token>, view: Snapshot, trigger: string)
      ensures this.tokens == tokens && this.view == view && this.trigger == trigger && pos == 0
    {
      this.tokens, this.view, this.trigger, pos := tokens, view, trigger, 0;
    }

    method Evaluate() returns (r: Outcome)
      requires Lexed(tokens) && pos == 0
      modifies this
      ensures match WhenSyntax.Parse(tokens)
        case None => r.Fail?
        case Some(e) => r == OrValue(e, view, trigger)
    {
      r := OrExpr();
      if r.Val? && pos < |tokens| {
        return Fail(Syntax);
      }
    }

    method OrExpr() returns (r: Outcome)
      requires Lexed(tokens)
      modifies this
      ensures Evaluated(ParseOr(tokens, old(pos)), e => OrValue(e, view, trigger), r, pos)
      decreases |tokens| - pos, 5
    {
      hide ParseAnd, AndValue, Lexed, AndOk, AndToks;
      ghost var start := pos;
      r := AndExpr();
      if r.Fail? {
        if ParseAnd(tokens, start).Some? {
          var (a, j) := ParseAnd(tokens, start).value;
          OrStrict(tokens, start, OrOne(a), j, view, trigger);
        }
        return;
      }
      ghost var tree := OrOne(ParseAnd(tokens, start).value.0);
      while At(tokens, pos, OR)
        invariant start < pos <= |tokens| && OrOk(tree) && Spans(tokens, start, pos, OrToks(tree))
        invariant ParseOr(tokens, start) == MoreOr(tokens, start, tree, pos)
        invariant r.Val? && r == OrValue(tree, view, trigger)
        decreases |tokens| - pos
      {
        ghost var m := pos;
        pos := pos + 1;
        var right := AndExpr();
        if ParseAnd(tokens, m + 1).Some? {
          var (b, k) := ParseAnd(tokens, m + 1).value;
          Join(tokens, start, m, k);
          tree := OrMore(tree, b);
          if right.Fail? {
            OrStrict(tokens, start, tree, k, view, trigger);
          }
        }
        if right.Fail? {
          return right;
        }
        r := Val(Bool(Truthy(r.v) || Truthy(right.v)));
      }
    }

    method AndExpr() returns (r: Outcome)
      requires Lexed(tokens)
      modifies this
      ensures Evaluated(ParseAnd(tokens, old(pos)), e => AndValue(e, view, trigger), r, pos)
      decreases |tokens| - pos, 3
    {
      hide ParseNot, NotValue, Lexed, NotOk, NotToks;
      ghost var start := pos;
      r := NotExpr();
      if r.Fail? {
        if ParseNot(tokens, start).Some? {
          var (a, j) := ParseNot(tokens, start).value;
          AndStrict(tokens, start, AndOne(a), j, view, trigger);
        }
        return;
      }
      ghost var tree := AndOne(ParseNot(tokens, start).value.0);
      while At(tokens, pos, AND)
        invariant start < pos <= |tokens| && AndOk(tree) && Spans(tokens, start, pos, AndToks(tree))
        invariant ParseAnd(tokens, start) == MoreAnd(tokens, start, tree, pos)
        invariant r.Val? && r == AndValue(tree, view, trigger)
        decreases |tokens| - pos
      {
        ghost var m := pos;
        pos := pos + 1;
        var right := NotExpr();
        if ParseNot(tokens, m + 1).Some? {
          var (b, k) := ParseNot(tokens, m + 1).value;
          Join(tokens, start, m, k);
          tree := AndMore(tree, b);
          if right.Fail? {
            AndStrict(tokens, start, tree, k, view, trigger);
          }
        }
        if right.Fail? {
          return right;
        }
        r := Val(Bool(Truthy(r.v) && Truthy(right.v)));
      }
    }

    method NotExpr() returns (r: Outcome)
      requires Lexed(tokens)
      modifies this
      ensures Evaluated(ParseNot(tokens, old(pos)), e => NotValue(e, view, trigger), r, pos)
      decreases |tokens| - pos, 2
    {
      if AtKind(tokens, pos, NOT) {
        pos := pos + 1;
        r := NotExpr();
        if r.Val? {
          r := Val(Bool(!Truthy(r.v)));
        }
      } else {
        r := CmpExpr();
      }
    }

    method CmpExpr() returns (r: Outcome)
      requires Lexed(tokens)
      modifies this
      ensures Evaluated(ParseCmp(tokens, old(pos)), e => CmpValue(e, view, trigger), r, pos)
      decreases |tokens| - pos, 1
    {
      hide ParsePrim, PrimValue, Compare, Lexed, CmpOk, PrimOk, PrimToks, CmpToks;
      r := Primary();
      if r.Val? && AtComparison(tokens, pos) {
        var op := tokens[pos].value;
        pos := pos + 1;
        var right := Primary();
        if right.Fail? {
          return right;
        }
        r := Compare(op, r.v, right.v);
      }
    }

    method Primary() returns (r: Outcome)
      requires Lexed(tokens)
      modifies this
      ensures Evaluated(ParsePrim(tokens, old(pos)), e => PrimValue(e, view, trigger), r, pos)
      decreases |tokens| - pos, 0
    {
      hide ResolvePath, LiteralValue, ParseOr, OrValue, Lexed, Spans, PrimOk, OrOk, PrimToks, OrToks, IsLiteral;
      if pos >= |tokens| {
        return Fail(Syntax);
      }
      var tok := tokens[pos];
      if tok.kind == LPAREN {
        pos := pos + 1;
        r := OrExpr();
        if r.Val? {
          var closed := Expect(RPAREN);
          if !closed {
            return Fail(Syntax);
          }
        }
        return;
      }
      if IsLiteral(tok) {
        pos := pos + 1;
        return Val(LiteralValue(tok));
      }
      if tok.kind == WORD {
        pos := pos + 1;
        if AtKind(tokens, pos, LPAREN) {
          pos := pos + 1;
          r := Primary();
          if r.Fail? {
            return;
          }
          var closed := Expect(RPAREN);
          if !closed || tok.value !in FUNCTIONS {
            return Fail(Syntax);
          }
          return Val(Bool(if tok.value == "is_null" then r.v.Null? else !r.v.Null?));
        }
        match ResolvePath(tok.value, view, trigger)
        case Some(v) => return Val(v);
        case None => return Fail(Unresolved(tok.value));
      }
      return Fail(Syntax);
    }

    method Expect(kind: Kind) returns (ok: bool)
      modifies this
      ensures ok == AtKind(tokens, old(pos), kind)
      ensures pos == if ok then old(pos) + 1 else old(pos)
    {
      ok := AtKind(tokens, pos, kind);
      if ok {
        pos := pos + 1;
      }
    }
  }

  /** eval_when: on a linted text it yields the truth of the text's only tree, or that tree's error,
      which is then never a syntax error. On any other text it raises. */
  method EvalWhen(text: string, view: Snapshot, trigger: string) returns (r: Outcome)
    ensures Holds(text, view, trigger) == if r.Val? then Some(r.v == Bool(true)) else None
    ensures r.Val? ==> r.v.Bool?
    ensures Linted(text) ==> r == Evaluation(text, view, trigger) && RuntimeOnly(r)
    ensures !Linted(text) ==> r.Fail?
  {
    var tokens := EvalTokens(text);
    if tokens.Err? {
      return Fail(Syntax);
    }
    var evaluator := new Evaluator(tokens.value, view, trigger);
    r := evaluator.Evaluate();
    if WhenSyntax.Parse(tokens.value).Some? {
      OrFailsAtRuntime(WhenSyntax.Parse(tokens.value).value, view, trigger);
    }
    if r.Val? {
      r := Val(Bool(Truthy(r.v)));
    }
  }
}
