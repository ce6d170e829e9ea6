/** What the operators, literals, paths and functions of a condition do, as laws about texts and their truth. */
module WhenLaws {
  import opened Wrappers
  import opened Json
  import opened Strings
  import opened WhenSyntax
  import opened WhenLexer
  import opened WhenValues

  ghost predicate AllProper(ts: seq<Token>) {
    forall t :: t in ts ==> Proper(t)
  }

  /** The truth of a list of tokens, written out as a text. */
  function TruthOf(ts: seq<Token>, view: Snapshot, trigger: string): Option<bool> {
    Holds(Print(ts), view, trigger)
  }

  /** Both operands are evaluated; an error of either is an error of the whole. */
  function Both(x: Option<bool>, y: Option<bool>, op: (bool, bool) -> bool): Option<bool> {
    if x.Some? && y.Some? then Some(op(x.value, y.value)) else None
  }

  // ------------------------------------------------------------------ texts of tokens

  lemma {:induction false} RunAll(s: string, p: char -> bool)
    requires forall c :: c in s ==> p(c)
    ensures Run(s, p) == |s|
  {
    if s == [] {
    } else {
      RunAll(s[1..], p);
    }
  }

  /** A letter followed by letters and digits. */
  predicate IsName(s: string) {
    s != [] && IsLetter(s[0]) && forall c :: c in s ==> IsWordChar(c)
  }

  predicate AreNames(parts: seq<string>) {
    parts != [] && forall s :: s in parts ==> IsName(s)
  }

  /** The parts with dots between them. */
  function Dotted(parts: seq<string>): (s: string)
    requires parts != []
  {
    if |parts| == 1 then parts[0] else parts[0] + "." + Dotted(parts[1..])
  }

  lemma NameRuns(s: string, rest: string)
    requires IsName(s) && (rest == [] || rest[0] == '.')
    ensures IdentLength(s + rest) == |s|
  {
    RunAll(s, IsWordChar);
    if rest == [] {
      assert s + rest == s;
    } else {
      RunStops(s, rest, IsWordChar);
    }
  }

  /** A path is one word. */
  lemma {:induction false} NamesAreWord(parts: seq<string>)
    requires AreNames(parts)
    ensures WordLength(Dotted(parts)) == |Dotted(parts)| && Dotted(parts) != []
  {
    var s, a := Dotted(parts), parts[0];
    assert a in parts && IsName(a);
    if |parts| == 1 {
      assert a + [] == a;
      NameRuns(a, []);
    } else {
      var tail := Dotted(parts[1..]);
      assert s == a + ("." + tail);
      NameRuns(a, "." + tail);
      NamesAreWord(parts[1..]);
      assert s[|a| + 1..] == tail;
    }
  }

  lemma NameIsProper(name: string)
    requires IsName(name)
    ensures Proper(Token(WORD, name))
  {
    NamesAreWord([name]);
    assert Dotted([name]) == name;
  }

  lemma KnownNamesAreProper()
    ensures forall s :: s in {"true", "false", "null", "is_null", "is_present"} ==> Proper(Token(WORD, s))
  {
    forall s | s in {"true", "false", "null", "is_null", "is_present"} ensures Proper(Token(WORD, s)) {
      NameIsProper(s);
    }
  }

  lemma QuotedIsProper(text: string, quote: char)
    requires (quote == '"' || quote == '\'') && quote !in text
    ensures Proper(Token(STRING, [quote] + text + [quote]))
  {
    var s := [quote] + text + [quote];
    assert s[0] == quote && s[1..] == text + [quote];
    RunAll(text, c => c != quote);
    RunStopsAt(text, quote);
    SameRun(s[1..], c => c != s[0], c => c != quote);
  }

  lemma RunStopsAt(text: string, quote: char)
    requires quote !in text
    ensures Run(text + [quote], c => c != quote) == |text|
  {
    RunAll(text, c => c != quote);
    RunStops(text, [quote], c => c != quote);
  }

  // ------------------------------------------------------------------ texts

  /** Whatever white space stands around the tokens, and none where they cannot be misread, the text evaluates as the
      plain print of the tokens does. */
  lemma SpacingIsIrrelevant(gaps: seq<string>, ts: seq<Token>, view: Snapshot, trigger: string)
    requires WellSpaced(gaps, ts)
    ensures Holds(Spread(gaps, ts), view, trigger) == TruthOf(ts, view, trigger)
  {
    hide Spread, Apart, Proper, Lex, Parse;
    LexSpread(gaps, ts);
    LexPrint(ts);
  }

  // ------------------------------------------------------------------ operators

  function Verdict(r: Outcome): Option<bool> {
    match r case Val(v) => Some(Truthy(v)) case Fail(_) => None
  }

  lemma OrTruth(e: OrExpr, view: Snapshot, trigger: string)
    requires OrOk(e) && AllProper(OrToks(e))
    ensures TruthOf(OrToks(e), view, trigger) == Verdict(OrValue(e, view, trigger))
  {
    PrintedTreeHolds(e, view, trigger);
  }

  lemma AndTruth(e: AndExpr, view: Snapshot, trigger: string)
    requires AndOk(e) && AllProper(AndToks(e))
    ensures TruthOf(AndToks(e), view, trigger) == Verdict(AndValue(e, view, trigger))
  {
    hide TruthOf, AndOk, AndToks, AllProper;
    OrTruth(OrOne(e), view, trigger);
  }

  lemma NotTruth(e: NotExpr, view: Snapshot, trigger: string)
    requires NotOk(e) && AllProper(NotToks(e))
    ensures TruthOf(NotToks(e), view, trigger) == Verdict(NotValue(e, view, trigger))
  {
    hide TruthOf, NotOk, NotToks, AllProper;
    AndTruth(AndOne(e), view, trigger);
  }

  lemma CmpTruth(e: CmpExpr, view: Snapshot, trigger: string)
    requires CmpOk(e) && AllProper(CmpToks(e))
    ensures TruthOf(CmpToks(e), view, trigger) == Verdict(CmpValue(e, view, trigger))
  {
    hide TruthOf, CmpOk, CmpToks, AllProper;
    NotTruth(Positive(e), view, trigger);
  }

  lemma PrimTruth(e: Primary, view: Snapshot, trigger: string)
    requires PrimOk(e) && AllProper(PrimToks(e))
    ensures TruthOf(PrimToks(e), view, trigger) == Verdict(PrimValue(e, view, trigger))
  {
    hide TruthOf, PrimOk, PrimToks, AllProper;
    CmpTruth(Single(e), view, trigger);
  }

  /** `l || r` is true if one of the two is. */
  lemma OrIsOr(l: OrExpr, r: AndExpr, view: Snapshot, trigger: string)
    requires OrOk(l) && AndOk(r) && AllProper(OrToks(l)) && AllProper(AndToks(r))
    ensures TruthOf(OrToks(l) + [OR] + AndToks(r), view, trigger) ==
      Both(TruthOf(OrToks(l), view, trigger), TruthOf(AndToks(r), view, trigger), (x, y) => x || y)
  {
    hide TruthOf, AndOk, AndToks;
    OrTruth(OrMore(l, r), view, trigger);
    OrTruth(l, view, trigger);
    AndTruth(r, view, trigger);
  }

  /** `l && r` is true if both are. */
  lemma AndIsAnd(l: AndExpr, r: NotExpr, view: Snapshot, trigger: string)
    requires AndOk(l) && NotOk(r) && AllProper(AndToks(l)) && AllProper(NotToks(r))
    ensures TruthOf(AndToks(l) + [AND] + NotToks(r), view, trigger) ==
      Both(TruthOf(AndToks(l), view, trigger), TruthOf(NotToks(r), view, trigger), (x, y) => x && y)
  {
    hide TruthOf, NotOk, NotToks;
    AndTruth(AndMore(l, r), view, trigger);
    AndTruth(l, view, trigger);
    NotTruth(r, view, trigger);
  }

  /** `!n` is true if n is false. */
  lemma NotIsNot(n: NotExpr, view: Snapshot, trigger: string)
    requires NotOk(n) && AllProper(NotToks(n))
    ensures TruthOf([BANG] + NotToks(n), view, trigger) ==
      match TruthOf(NotToks(n), view, trigger) case Some(x) => Some(!x) case None => None
  {
    hide TruthOf;
    NotTruth(Negated(n), view, trigger);
    NotTruth(n, view, trigger);
  }

  /** Parentheses change nothing. */
  lemma GroupIsTransparent(e: OrExpr, view: Snapshot, trigger: string)
    requires OrOk(e) && AllProper(OrToks(e))
    ensures TruthOf([OPEN] + OrToks(e) + [CLOSE], view, trigger) == TruthOf(OrToks(e), view, trigger)
  {
    hide TruthOf, OrToks, OrOk;
    PrimTruth(Group(e), view, trigger);
    OrTruth(e, view, trigger);
  }

  /** Operands joined by `||`. */
  function OrChain(es: seq<AndExpr>): (ts: seq<Token>)
    requires es != []
  {
    if |es| == 1 then AndToks(es[0]) else OrChain(es[..|es| - 1]) + [OR] + AndToks(es[|es| - 1])
  }

  function OrTree(es: seq<AndExpr>): (e: OrExpr)
    requires es != []
    ensures OrToks(e) == OrChain(es)
    ensures (forall x :: x in es ==> AndOk(x)) ==> OrOk(e)
  {
    if |es| == 1 then OrOne(es[0]) else OrMore(OrTree(es[..|es| - 1]), es[|es| - 1])
  }

  /** Operands joined by `&&`. */
  function AndChain(es: seq<NotExpr>): (ts: seq<Token>)
    requires es != []
  {
    if |es| == 1 then NotToks(es[0]) else AndChain(es[..|es| - 1]) + [AND] + NotToks(es[|es| - 1])
  }

  function AndTree(es: seq<NotExpr>): (e: AndExpr)
    requires es != []
    ensures AndToks(e) == AndChain(es)
    ensures (forall x :: x in es ==> NotOk(x)) ==> AndOk(e)
  {
    if |es| == 1 then AndOne(es[0]) else AndMore(AndTree(es[..|es| - 1]), es[|es| - 1])
  }

  lemma {:induction false} OrChainIsProper(es: seq<AndExpr>)
    requires es != [] && forall x :: x in es ==> AllProper(AndToks(x))
    ensures AllProper(OrChain(es))
  {
    if |es| == 1 {
    } else {
      OrChainIsProper(es[..|es| - 1]);
    }
  }

  lemma {:induction false} AndChainIsProper(es: seq<NotExpr>)
    requires es != [] && forall x :: x in es ==> AllProper(NotToks(x))
    ensures AllProper(AndChain(es))
  {
    if |es| == 1 {
    } else {
      AndChainIsProper(es[..|es| - 1]);
    }
  }

  /** A chain of `||` evaluates if all its operands do, and is then true if one of them is. */
  lemma {:induction false} OrChainIsSome(es: seq<AndExpr>, view: Snapshot, trigger: string)
    requires es != [] && forall x :: x in es ==> AndOk(x) && AllProper(AndToks(x))
    ensures var r := TruthOf(OrChain(es), view, trigger);
      && (r.Some? <==> forall i :: 0 <= i < |es| ==> TruthOf(AndToks(es[i]), view, trigger).Some?)
      && (r == Some(true) <==>
          r.Some? && exists i :: 0 <= i < |es| && TruthOf(AndToks(es[i]), view, trigger) == Some(true))
  {
    hide TruthOf, AndOk, AllProper;
    if |es| == 1 {
    } else {
      var n := |es| - 1;
      OrChainIsSome(es[..n], view, trigger);
      OrChainIsProper(es[..n]);
      var l := OrTree(es[..n]);
      OrIsOr(l, es[n], view, trigger);
      assert forall i :: 0 <= i < n ==> es[..n][i] == es[i];
    }
  }

  /** A chain of `&&` evaluates if all its operands do, and is then true if all of them are. */
  lemma {:induction false} AndChainIsAll(es: seq<NotExpr>, view: Snapshot, trigger: string)
    requires es != [] && forall x :: x in es ==> NotOk(x) && AllProper(NotToks(x))
    ensures var r := TruthOf(AndChain(es), view, trigger);
      && (r.Some? <==> forall i :: 0 <= i < |es| ==> TruthOf(NotToks(es[i]), view, trigger).Some?)
      && (r == Some(true) <==> forall i :: 0 <= i < |es| ==> TruthOf(NotToks(es[i]), view, trigger) == Some(true))
  {
    hide TruthOf, NotOk, AllProper;
    if |es| == 1 {
    } else {
      var n := |es| - 1;
      AndChainIsAll(es[..n], view, trigger);
      AndChainIsProper(es[..n]);
      var l := AndTree(es[..n]);
      AndIsAnd(l, es[n], view, trigger);
      assert forall i :: 0 <= i < n ==> es[..n][i] == es[i];
    }
  }

  // ------------------------------------------------------------------ comparisons

  /** A literal or a path, and the value it stands for. */
  predicate Denotes(p: Primary, v: Json, view: Snapshot, trigger: string) {
    match p
    case Literal(t) => v == LiteralValue(t)
    case Path(path) => ResolvePath(path, view, trigger) == Some(v)
    case _ => false
  }

  ghost predicate Written(p: Primary) {
    PrimOk(p) && AllProper(PrimToks(p))
  }

  /** The truth of `l op r`. */
  function Compared(l: Primary, op: string, r: Primary, view: Snapshot, trigger: string): Option<bool> {
    TruthOf(PrimToks(l) + [Token(OP, op)] + PrimToks(r), view, trigger)
  }

  lemma ComparisonTruth(l: Primary, op: string, r: Primary, x: Json, y: Json, view: Snapshot, trigger: string)
    requires Written(l) && Written(r) && op in COMPARISONS && Denotes(l, x, view, trigger)
      && Denotes(r, y, view, trigger)
    ensures Compared(l, op, r, view, trigger) == Verdict(Compare(op, x, y))
  {
    hide TruthOf, PrimOk, PrimToks, Compare;
    CmpTruth(CmpExpr.Compared(l, op, r), view, trigger);
  }

  /** Numbers, and booleans as 0 and 1, compare by value. */
  lemma NumbersCompare(l: Primary, r: Primary, x: Json, y: Json, view: Snapshot, trigger: string)
    requires Written(l) && Written(r) && Denotes(l, x, view, trigger) && Denotes(r, y, view, trigger)
    requires IsNumber(x) && IsNumber(y)
    ensures var a, b := NumberOf(x), NumberOf(y);
      && Compared(l, "<", r, view, trigger) == Some(a < b) && Compared(l, ">", r, view, trigger) == Some(a > b)
      && Compared(l, "<=", r, view, trigger) == Some(a <= b) && Compared(l, ">=", r, view, trigger) == Some(a >= b)
      && Compared(l, "==", r, view, trigger) == Some(a == b) && Compared(l, "!=", r, view, trigger) == Some(a != b)
  {
    hide Compared, Written, Denotes;
    forall op | op in COMPARISONS ensures Compared(l, op, r, view, trigger) == Verdict(Compare(op, x, y)) {
      ComparisonTruth(l, op, r, x, y, view, trigger);
    }
  }

  /** Strings compare by content and in dictionary order. */
  lemma StringsCompare(l: Primary, r: Primary, a: string, b: string, view: Snapshot, trigger: string)
    requires Written(l) && Written(r) && Denotes(l, Str(a), view, trigger) && Denotes(r, Str(b), view, trigger)
    ensures
      && Compared(l, "<", r, view, trigger) == Some(Precedes(a, b))
        && Compared(l, ">", r, view, trigger) == Some(Precedes(b, a))
      && Compared(l, "<=", r, view, trigger) == Some(!Precedes(b, a))
        && Compared(l, ">=", r, view, trigger) == Some(!Precedes(a, b))
      && Compared(l, "==", r, view, trigger) == Some(a == b) && Compared(l, "!=", r, view, trigger) == Some(a != b)
  {
    hide Compared, Written, Denotes;
    LessIsPrecedes(a, b);
    LessIsPrecedes(b, a);
    forall op | op in COMPARISONS ensures Compared(l, op, r, view, trigger) == Verdict(Compare(op, Str(a), Str(b))) {
      ComparisonTruth(l, op, r, Str(a), Str(b), view, trigger);
    }
  }

  /** Exactly one of `<`, `==` and `>` holds between two numbers or two strings. */
  lemma ComparisonsAreTrichotomous(l: Primary, r: Primary, x: Json, y: Json, view: Snapshot, trigger: string)
    requires Written(l) && Written(r) && Denotes(l, x, view, trigger) && Denotes(r, y, view, trigger)
    requires (IsNumber(x) && IsNumber(y)) || (x.Str? && y.Str?)
    ensures var lt, eq, gt := Compared(l, "<", r, view, trigger) == Some(true), Compared(l, "==", r, view, trigger)
      == Some(true),
                              Compared(l, ">", r, view, trigger) == Some(true);
      (lt && !eq && !gt) || (!lt && eq && !gt) || (!lt && !eq && gt)
  {
    hide Compared, Written, Denotes;
    if IsNumber(x) {
      NumbersCompare(l, r, x, y, view, trigger);
    } else {
      hide Precedes;
      StringsCompare(l, r, x.s, y.s, view, trigger);
      LessIsPrecedes(x.s, y.s);
      LessIsPrecedes(y.s, x.s);
      LessIsTotal(x.s, y.s);
      LessIsTotal(y.s, x.s);
    }
  }

  /** Values of different kinds are unequal, and ordering them is an error; null equals null only. */
  lemma KindsDoNotMix(l: Primary, r: Primary, x: Json, y: Json, view: Snapshot, trigger: string)
    requires Written(l) && Written(r) && Denotes(l, x, view, trigger) && Denotes(r, y, view, trigger)
    requires (IsNumber(x) && y.Str?) || (x.Str? && IsNumber(y)) || x.Null? || y.Null?
    ensures Compared(l, "==", r, view, trigger) == Some(x == Null && y == Null)
    ensures Compared(l, "!=", r, view, trigger) == Some(!(x == Null && y == Null))
    ensures forall op :: op in {"<", ">", "<=", ">="} ==> Compared(l, op, r, view, trigger) == None
  {
    hide Compared, Written, Denotes;
    forall op | op in COMPARISONS ensures Compared(l, op, r, view, trigger) == Verdict(Compare(op, x, y)) {
      ComparisonTruth(l, op, r, x, y, view, trigger);
    }
  }

  /** Any two values are equal if and only if they are the same once booleans are taken for numbers. */
  lemma EqualityMeans(l: Primary, r: Primary, x: Json, y: Json, view: Snapshot, trigger: string)
    requires Written(l) && Written(r) && Denotes(l, x, view, trigger) && Denotes(r, y, view, trigger)
    ensures Compared(l, "==", r, view, trigger) == Some(AsNumbers(x) == AsNumbers(y))
    ensures Compared(l, "!=", r, view, trigger) == Some(AsNumbers(x) != AsNumbers(y))
  {
    hide Compared, Written, Denotes, AsNumbers;
    PyEqIs(x, y);
    forall op | op in COMPARISONS ensures Compared(l, op, r, view, trigger) == Verdict(Compare(op, x, y)) {
      ComparisonTruth(l, op, r, x, y, view, trigger);
    }
  }

  /** The lists agree before position k. */
  ghost predicate AgreeBefore(x: seq<Json>, y: seq<Json>, k: nat) {
    k <= |x| && k <= |y| && forall i :: 0 <= i < k ==> AsNumbers(x[i]) == AsNumbers(y[i])
  }

  lemma {:induction false} SkipsAgreement(op: string, x: seq<Json>, y: seq<Json>, k: nat)
    requires AgreeBefore(x, y, k)
    ensures ListOrdering(op, x, y) == ListOrdering(op, x[k..], y[k..])
    decreases k
  {
    if k == 0 {
      assert x[0..] == x && y[0..] == y;
    } else {
      PyEqIs(x[0], y[0]);
      SkipsAgreement(op, x[1..], y[1..], k - 1);
      assert x[1..][k - 1..] == x[k..] && y[1..][k - 1..] == y[k..];
    }
  }

  /** Lists are ordered as their first differing items are. */
  lemma ListsCompareAt(l: Primary, r: Primary, x: seq<Json>, y: seq<Json>, k: nat, p: Primary, q: Primary, op: string,
                       view: Snapshot, trigger: string)
    requires Written(l) && Written(r) && Denotes(l, Arr(x), view, trigger) && Denotes(r, Arr(y), view, trigger)
    requires k < |x| && k < |y| && AgreeBefore(x, y, k) && AsNumbers(x[k]) != AsNumbers(y[k])
    requires Written(p) && Written(q) && Denotes(p, x[k], view, trigger) && Denotes(q, y[k], view, trigger)
    requires op in {"<", ">", "<=", ">="}
    ensures Compared(l, op, r, view, trigger) == Compared(p, op, q, view, trigger)
  {
    hide Compared, Written, Denotes, AsNumbers;
    SkipsAgreement(op, x, y, k);
    PyEqIs(x[k], y[k]);
    assert x[k..][0] == x[k] && y[k..][0] == y[k];
    ComparisonTruth(l, op, r, Arr(x), Arr(y), view, trigger);
    ComparisonTruth(p, op, q, x[k], y[k], view, trigger);
  }

  /** Where one list only goes on longer than the other, their lengths decide. */
  lemma ListsComparePrefix(l: Primary, r: Primary, x: seq<Json>, y: seq<Json>, view: Snapshot, trigger: string)
    requires Written(l) && Written(r) && Denotes(l, Arr(x), view, trigger) && Denotes(r, Arr(y), view, trigger)
    requires AgreeBefore(x, y, if |x| <= |y| then |x| else |y|)
    ensures Compared(l, "<", r, view, trigger) == Some(|x| < |y|)
    ensures Compared(l, ">", r, view, trigger) == Some(|x| > |y|)
    ensures Compared(l, "<=", r, view, trigger) == Some(|x| <= |y|)
    ensures Compared(l, ">=", r, view, trigger) == Some(|x| >= |y|)
  {
    hide Compared, Written, Denotes, AsNumbers;
    var k := if |x| <= |y| then |x| else |y|;
    forall op | op in COMPARISONS
      ensures Compared(l, op, r, view, trigger) == Verdict(Compare(op, Arr(x), Arr(y)))
      ensures ListOrdering(op, x, y) == Some(RealOrder(op, |x| as real, |y| as real))
    {
      ComparisonTruth(l, op, r, Arr(x), Arr(y), view, trigger);
      SkipsAgreement(op, x, y, k);
    }
  }

  // ------------------------------------------------------------------ functions

  lemma FunctionsTellNull(p: Primary, v: Json, view: Snapshot, trigger: string)
    requires Written(p) && Denotes(p, v, view, trigger)
    ensures TruthOf([Token(WORD, "is_null"), OPEN] + PrimToks(p) + [CLOSE], view, trigger) == Some(v == Null)
    ensures TruthOf([Token(WORD, "is_present"), OPEN] + PrimToks(p) + [CLOSE], view, trigger) == Some(v != Null)
  {
    KnownNamesAreProper();
    CallTruth("is_null", p, v, view, trigger);
    CallTruth("is_present", p, v, view, trigger);
  }

  lemma CallTruth(f: string, p: Primary, v: Json, view: Snapshot, trigger: string)
    requires Written(p) && Denotes(p, v, view, trigger) && f in FUNCTIONS && Proper(Token(WORD, f))
    ensures TruthOf([Token(WORD, f), OPEN] + PrimToks(p) + [CLOSE], view, trigger)
      == Some((v == Null) == (f == "is_null"))
  {
    CallIsWritten(f, p);
    CallValue(f, p, v, view, trigger);
    hide *;
    PrimTruth(Call(f, p), view, trigger);
    BoolVerdict((v == Null) == (f == "is_null"));
  }

  lemma CallValue(f: string, p: Primary, v: Json, view: Snapshot, trigger: string)
    requires Denotes(p, v, view, trigger)
    ensures PrimValue(Call(f, p), view, trigger) == Val(Bool((v == Null) == (f == "is_null")))
  {
    assert PrimValue(p, view, trigger) == Val(v);
  }

  lemma BoolVerdict(b: bool)
    ensures Verdict(Val(Bool(b))) == Some(b)
  {
  }

  lemma CallIsWritten(f: string, p: Primary)
    requires Written(p) && f in FUNCTIONS && Proper(Token(WORD, f))
    ensures PrimToks(Call(f, p)) == [Token(WORD, f), OPEN] + PrimToks(p) + [CLOSE]
    ensures PrimOk(Call(f, p)) && AllProper(PrimToks(Call(f, p)))
  {
    PunctuationIsProper();
    hide Proper;
    JoinedAreProper([Token(WORD, f), OPEN], PrimToks(p));
    JoinedAreProper([Token(WORD, f), OPEN] + PrimToks(p), [CLOSE]);
  }

  lemma PunctuationIsProper()
    ensures Proper(OPEN) && Proper(CLOSE) && Proper(BANG) && Proper(OR) && Proper(AND)
    ensures forall op :: op in COMPARISONS ==> Proper(Token(OP, op))
  {
  }

  lemma JoinedAreProper(a: seq<Token>, b: seq<Token>)
    requires AllProper(a) && AllProper(b)
    ensures AllProper(a + b)
  {
    hide Proper;
  }

  lemma LiteralIsWritten(t: Token)
    requires Proper(t) && IsLiteral(t)
    ensures Written(Literal(t))
  {
    hide Proper;
  }

  // ------------------------------------------------------------------ literals

  /** The keywords are their values, and a quoted text is the text between its quotes. */
  lemma LiteralsMean(text: string, quote: char, view: Snapshot, trigger: string)
    requires (quote == '"' || quote == '\'') && quote !in text
    ensures var t := Token(STRING, [quote] + text + [quote]);
      Written(Literal(t)) && Denotes(Literal(t), Str(text), view, trigger)
    ensures Written(Literal(Token(WORD, "true"))) && Denotes(Literal(Token(WORD, "true")), Bool(true), view, trigger)
    ensures Written(Literal(Token(WORD, "false"))) && Denotes(Literal(Token(WORD, "false")), Bool(false), view, trigger)
    ensures Written(Literal(Token(WORD, "null"))) && Denotes(Literal(Token(WORD, "null")), Null, view, trigger)
  {
    KnownNamesAreProper();
    QuotedIsProper(text, quote);
  }

  /** Digits are the number they spell. */
  lemma {:induction false} NatOfDecimal(n: nat)
    ensures NatOf(Decimal(n)) == n
  {
    var s := Decimal(n);
    assert IsDigit(s[|s| - 1]) && (s[|s| - 1] - '0') as nat == n % 10;
    if n < 10 {
      assert s[..|s| - 1] == [];
    } else {
      NatOfDecimal(n / 10);
      assert s[..|s| - 1] == Decimal(n / 10);
    }
  }

  lemma WholeNumbersMean(n: nat, view: Snapshot, trigger: string)
    ensures var t := Token(INT, Decimal(n)); Written(Literal(t)) && Denotes(Literal(t), Num(n as real), view, trigger)
  {
    RunAll(Decimal(n), IsDigit);
    NatOfDecimal(n);
  }

  predicate AreDigits(s: string) {
    s != [] && forall c :: c in s ==> IsDigit(c)
  }

  lemma {:induction false} NatOfJoined(a: string, b: string)
    ensures NatOf(a + b) == NatOf(a) * PowerOfTen(|b|) + NatOf(b)
    decreases |b|
  {
    if b == [] {
      assert a + b == a;
    } else {
      var n := |b| - 1;
      NatOfJoined(a, b[..n]);
      NextDigit(b);
      NextDigit(a + b);
      assert (a + b)[..|a| + n] == a + b[..n] && (a + b)[|a| + n] == b[n];
      hide NatOf, PowerOfTen;
      Distribute(NatOf(a), PowerOfTen(n), NatOf(b[..n]), NatOf(b) - 10 * NatOf(b[..n]));
    }
  }

  lemma NextDigit(s: string)
    requires s != []
    ensures NatOf(s) == 10 * NatOf(s[..|s| - 1]) + (if IsDigit(s[|s| - 1]) then (s[|s| - 1] - '0') as nat else 0)
    ensures PowerOfTen(|s|) == 10 * PowerOfTen(|s| - 1)
  {
  }

  lemma Distribute(x: int, p: int, y: int, d: int)
    ensures 10 * (x * p + y) + d == x * (10 * p) + (10 * y + d)
  {
  }

  lemma FractionShifts(x: nat, y: nat, p: nat)
    requires p > 0
    ensures (x as real + y as real / p as real) * p as real == (x * p + y) as real
  {
  }

  /** A decimal fraction is the number without the point, divided by ten for each digit behind it. */
  lemma FractionsMean(a: string, b: string, view: Snapshot, trigger: string) returns (r: real)
    requires AreDigits(a) && AreDigits(b)
    ensures var t := Token(FLOAT, a + "." + b); Written(Literal(t)) && Denotes(Literal(t), Num(r), view, trigger)
    ensures r * PowerOfTen(|b|) as real == NatOf(a + b) as real
  {
    hide *;
    PointedFacts(a, b);
    FloatIsLiteral(a + "." + b);
    LiteralIsWritten(Token(FLOAT, a + "." + b));
    r := RealOf(a + "." + b);
    NatOfJoined(a, b);
    Shifted(r, NatOf(a), NatOf(b), PowerOfTen(|b|));
    FloatDenotes(a + "." + b, view, trigger);
  }

  lemma FloatIsLiteral(text: string)
    ensures IsLiteral(Token(FLOAT, text))
  {
  }

  lemma FloatDenotes(text: string, view: Snapshot, trigger: string)
    ensures Denotes(Literal(Token(FLOAT, text)), Num(RealOf(text)), view, trigger)
  {
  }

  lemma Shifted(r: real, x: nat, y: nat, p: nat)
    requires p > 0 && r == x as real + y as real / p as real
    ensures r * p as real == (x * p + y) as real
  {
    FractionShifts(x, y, p);
  }

  lemma PointedFacts(a: string, b: string)
    requires AreDigits(a) && AreDigits(b)
    ensures FloatLength(a + "." + b) == |a + "." + b| && Proper(Token(FLOAT, a + "." + b))
    ensures RealOf(a + "." + b) == NatOf(a) as real + NatOf(b) as real / PowerOfTen(|b|) as real
  {
    hide NatOf, PowerOfTen;
    var s := a + "." + b;
    RunAll(a, IsDigit);
    RunAll(b, IsDigit);
    assert s == a + ("." + b);
    RunStops(a, "." + b, IsDigit);
    assert s[..|a|] == a && s[|a| + 1..] == b;
  }

  lemma {:induction false} PowerOfTenIs(n: nat)
    ensures PowerOfTen(n) == NatOf("1" + Zeros(n))
  {
    if n == 0 {
      assert "1" + Zeros(0) == "1" && "1"[..0] == [];
      assert NatOf("1"[..0]) == 0;
    } else {
      PowerOfTenIs(n - 1);
      var s := "1" + Zeros(n);
      assert s[..|s| - 1] == "1" + Zeros(n - 1);
    }
  }

  function Zeros(n: nat): (s: string)
    ensures |s| == n
  {
    seq(n, i => '0')
  }

  // ------------------------------------------------------------------ paths

  predicate NoDots(parts: seq<string>) {
    parts != [] && forall s :: s in parts ==> '.' !in s
  }

  lemma {:induction false} SplitDotted(parts: seq<string>)
    requires NoDots(parts)
    ensures Split(Dotted(parts)) == parts
  {
    hide Split;
    assert parts[0] in parts;
    if |parts| == 1 {
      SplitLast(parts[0]);
      assert parts == [parts[0]];
    } else {
      SplitFirst(parts[0], Dotted(parts[1..]));
      SplitDotted(parts[1..]);
      assert parts == [parts[0]] + parts[1..];
    }
  }

  lemma SplitLast(a: string)
    requires '.' !in a
    ensures Split(a) == [a]
  {
    RunAll(a, c => c != '.');
  }

  lemma SplitFirst(a: string, tail: string)
    requires '.' !in a
    ensures Split(a + "." + tail) == [a] + Split(tail)
  {
    var s := a + "." + tail;
    RunAll(a, c => c != '.');
    assert s == a + ("." + tail);
    RunStops(a, "." + tail, c => c != '.');
    assert s[..|a|] == a && s[|a| + 1..] == tail;
  }

  /** `node.out` is the node's output, and nothing when there is none yet. */
  lemma OutputPaths(node: string, view: Snapshot, trigger: string)
    requires '.' !in node && node != "trigger"
    ensures ResolvePath(Dotted([node, "out"]), view, trigger) ==
      if node in view.outputs then Some(view.outputs[node]) else None
  {
    RootPath([node, "out"], view, trigger);
  }

  /** `trigger.in` is the trigger input, and `trigger.out` the output of the node that is the trigger. */
  lemma TriggerPaths(view: Snapshot, trigger: string)
    ensures ResolvePath(Dotted(["trigger", "in"]), view, trigger) == Some(Obj(view.triggerInput))
    ensures ResolvePath(Dotted(["trigger", "out"]), view, trigger) ==
      if trigger in view.outputs then Some(view.outputs[trigger]) else None
  {
    hide Dotted, NoDots, ResolvePath;
    TriggerHasNoDots();
    RootPath(["trigger", "in"], view, trigger);
    RootPath(["trigger", "out"], view, trigger);
  }

  lemma TriggerHasNoDots()
    ensures NoDots(["trigger", "in"]) && NoDots(["trigger", "out"])
  {
  }

  lemma RootPath(parts: seq<string>, view: Snapshot, trigger: string)
    requires NoDots(parts) && |parts| == 2
    ensures ResolvePath(Dotted(parts), view, trigger) == Root(parts, view, trigger)
  {
    hide Dotted, NoDots, ResolvePath;
    ResolveParts(parts, view, trigger);
  }

  /** What a path resolves to, from its parts. */
  function FromParts(parts: seq<string>, view: Snapshot, trigger: string): Option<Json> {
    match Root(parts, view, trigger)
    case None => None
    case Some(v) => Follow(v, parts[2..])
  }

  function Root(parts: seq<string>, view: Snapshot, trigger: string): (r: Option<Json>)
    ensures r.Some? ==> |parts| >= 2
  {
    if |parts| < 2 then None
    else if parts[0] == "trigger" && parts[1] == "in" then Some(Obj(view.triggerInput))
    else
      var node := if parts[0] == "trigger" then trigger else parts[0];
      if parts[1] == "out" && node in view.outputs then Some(view.outputs[node]) else None
  }

  lemma ResolveParts(parts: seq<string>, view: Snapshot, trigger: string)
    requires NoDots(parts)
    ensures ResolvePath(Dotted(parts), view, trigger) == FromParts(parts, view, trigger)
  {
    SplitDotted(parts);
    hide Follow, Split, Dotted;
  }

  lemma {:induction false} FollowFurther(v: Json, fields: seq<string>, field: string)
    ensures Follow(v, fields + [field]) ==
      match Follow(v, fields)
      case Some(Obj(m)) => Some(if field in m then m[field] else Null)
      case _ => None
    decreases |fields|
  {
    if fields == [] {
      assert fields + [field] == [field] && [field][1..] == [];
    } else {
      assert (fields + [field])[1..] == fields[1..] + [field];
      if v.Obj? { FollowFurther(if fields[0] in v.fields then v.fields[fields[0]] else Null, fields[1..], field); }
    }
  }

  lemma LongerHasNoDots(parts: seq<string>, field: string)
    requires NoDots(parts) && '.' !in field
    ensures NoDots(parts + [field])
  {
  }

  lemma LongerRoot(parts: seq<string>, field: string, view: Snapshot, trigger: string)
    requires |parts| >= 2
    ensures Root(parts + [field], view, trigger) == Root(parts, view, trigger)
  {
  }

  /** One more field: a dictionary's value or null; anything else cannot be indexed. */
  lemma LongerPaths(parts: seq<string>, field: string, view: Snapshot, trigger: string)
    requires |parts| >= 2 && NoDots(parts) && '.' !in field
    ensures ResolvePath(Dotted(parts + [field]), view, trigger) ==
      match ResolvePath(Dotted(parts), view, trigger)
      case Some(Obj(m)) => Some(if field in m then m[field] else Null)
      case _ => None
  {
    LongerHasNoDots(parts, field);
    LongerRoot(parts, field, view, trigger);
    hide *;
    ResolveParts(parts, view, trigger);
    ResolveParts(parts + [field], view, trigger);
    LongerFromParts(parts, field, view, trigger);
  }

  lemma LongerFromParts(parts: seq<string>, field: string, view: Snapshot, trigger: string)
    requires |parts| >= 2 && Root(parts + [field], view, trigger) == Root(parts, view, trigger)
    ensures FromParts(parts + [field], view, trigger) ==
      match FromParts(parts, view, trigger)
      case Some(Obj(m)) => Some(if field in m then m[field] else Null)
      case _ => None
  {
    hide Follow, Root;
    assert (parts + [field])[2..] == parts[2..] + [field];
    if Root(parts, view, trigger).Some? { FollowFurther(Root(parts, view, trigger).value, parts[2..], field); }
  }

  /** No other path resolves. */
  lemma OtherPathsFail(parts: seq<string>, view: Snapshot, trigger: string)
    requires NoDots(parts)
    requires |parts| < 2 || (parts[1] != "out" && !(parts[0] == "trigger" && parts[1] == "in"))
    ensures ResolvePath(Dotted(parts), view, trigger) == None
  {
    ResolveParts(parts, view, trigger);
  }

  /** Every dotted path of names that is no keyword can be written as an operand. */
  lemma PathsAreWritten(parts: seq<string>)
    requires AreNames(parts) && Dotted(parts) !in KEYWORDS
    ensures Written(Path(Dotted(parts)))
  {
    NamesAreWord(parts);
  }

  /** A value by itself counts as true as Python has it. */
  lemma ValuesAreTruthy(p: Primary, v: Json, view: Snapshot, trigger: string)
    requires Written(p) && Denotes(p, v, view, trigger)
    ensures TruthOf(PrimToks(p), view, trigger) ==
      Some(v !in {Null, Bool(false), Num(0.0), Str(""), Arr([]), Obj(map[])})
  {
    hide TruthOf, PrimOk, PrimToks;
    PrimTruth(p, view, trigger);
  }
}
