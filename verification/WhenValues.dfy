/** What a `when` condition means: the value of its tree over the outputs recorded so far. */
module WhenValues {
  import opened Wrappers
  import opened Json
  import opened Strings
  import opened WhenSyntax
  import opened WhenLexer

  /** The part of the run state conditions and mappings read. */
  datatype Snapshot = Snapshot(triggerInput: map<string, Json>, outputs: map<string, Json>)

  datatype EvalError = Syntax | Unresolved(path: string) | Incomparable(op: string, left: Json, right: Json)

  datatype Outcome = Val(v: Json) | Fail(error: EvalError)

  /** path.split(".") */
  function Split(s: string): (parts: seq<string>)
    ensures parts != []
  {
    var n := Run(s, c => c != '.');
    if n == |s| then [s] else [s[..n]] + Split(s[n + 1..])
  }

  /** Walks into nested dictionaries; a missing key gives null, indexing anything else fails. */
  function Follow(v: Json, fields: seq<string>): Option<Json>
    decreases |fields|
  {
    if fields == [] then Some(v)
    else if !v.Obj? then None
    else Follow(if fields[0] in v.fields then v.fields[fields[0]] else Null, fields[1..])
  }

  /** The node a dotted reference reads, if it reads an output at all; `trigger` stands for the trigger node. */
  function NodeRead(path: string, trigger: string): Option<string> {
    var parts := Split(path);
    if |parts| < 2 then None
    else if parts[0] == "trigger" then (if parts[1] == "in" then None else Some(trigger))
    else Some(parts[0])
  }

  function ResolvePath(path: string, view: Snapshot, trigger: string): Option<Json> {
    var parts := Split(path);
    if |parts| < 2 then None
    else if parts[0] == "trigger" && parts[1] == "in" then Follow(Obj(view.triggerInput), parts[2..])
    else
      var node := if parts[0] == "trigger" then trigger else parts[0];
      if parts[1] == "out" && node in view.outputs then Follow(view.outputs[node], parts[2..]) else None
  }

  function NatOf(digits: string): nat {
    if digits == [] then 0
    else
      var c := digits[|digits| - 1];
      10 * NatOf(digits[..|digits| - 1]) + (if IsDigit(c) then (c - '0') as nat else 0)
  }

  function PowerOfTen(n: nat): (r: nat)
    ensures r > 0
  {
    if n == 0 then 1 else 10 * PowerOfTen(n - 1)
  }

  function RealOf(text: string): real {
    var n := Run(text, IsDigit);
    if n == |text| then NatOf(text) as real
    else
      var fraction := text[n + 1..];
      NatOf(text[..n]) as real + NatOf(fraction) as real / PowerOfTen(|fraction|) as real
  }

  function LiteralValue(t: Token): Json {
    match t.kind
    case STRING => if |t.value| >= 2 then Str(t.value[1..|t.value| - 1]) else Str("")
    case FLOAT => Num(RealOf(t.value))
    case INT => Num(NatOf(t.value) as real)
    case _ => if t.value == "true" then Bool(true) else if t.value == "false" then Bool(false) else Null
  }

  predicate RealOrder(op: string, x: real, y: real) {
    (op == ">" && x > y) || (op == "<" && x < y) || (op == ">=" && x >= y) || (op == "<=" && x <= y)
  }

  predicate StringOrder(op: string, x: string, y: string) {
    (op == ">" && Less(y, x)) || (op == "<" && Less(x, y))
    || (op == ">=" && !Less(x, y)) || (op == "<=" && !Less(y, x))
  }

  /** Order comparison; None where Python raises TypeError. Lists compare at the first difference. */
  function Ordering(op: string, a: Json, b: Json): Option<bool> {
    if IsNumber(a) && IsNumber(b) then Some(RealOrder(op, NumberOf(a), NumberOf(b)))
    else match (a, b)
      case (Str(x), Str(y)) => Some(StringOrder(op, x, y))
      case (Arr(x), Arr(y)) => ListOrdering(op, x, y)
      case _ => None
  }

  function ListOrdering(op: string, x: seq<Json>, y: seq<Json>): Option<bool> {
    if x == [] || y == [] then Some(RealOrder(op, |x| as real, |y| as real))
    else if PyEq(x[0], y[0]) then ListOrdering(op, x[1..], y[1..])
    else Ordering(op, x[0], y[0])
  }

  function Compare(op: string, a: Json, b: Json): Outcome {
    if op == "==" then Val(Bool(PyEq(a, b)))
    else if op == "!=" then Val(Bool(!PyEq(a, b)))
    else
      match Ordering(op, a, b)
      case Some(r) => Val(Bool(r))
      case None => Fail(Incomparable(op, a, b))
  }

  /** The value of a tree. Operands are evaluated left to right, all of them: `&&` and `||` do not
      stop early, and a chain of one operand keeps the operand's own value. */
  function OrValue(e: OrExpr, view: Snapshot, trigger: string): Outcome {
    match e
    case OrOne(a) => AndValue(a, view, trigger)
    case OrMore(l, r) =>
      var x := OrValue(l, view, trigger);
      if x.Fail? then x
      else
        var y := AndValue(r, view, trigger);
        if y.Fail? then y else Val(Bool(Truthy(x.v) || Truthy(y.v)))
  }

  function AndValue(e: AndExpr, view: Snapshot, trigger: string): Outcome {
    match e
    case AndOne(n) => NotValue(n, view, trigger)
    case AndMore(l, r) =>
      var x := AndValue(l, view, trigger);
      if x.Fail? then x
      else
        var y := NotValue(r, view, trigger);
        if y.Fail? then y else Val(Bool(Truthy(x.v) && Truthy(y.v)))
  }

  function NotValue(e: NotExpr, view: Snapshot, trigger: string): Outcome {
    match e
    case Negated(n) =>
      var x := NotValue(n, view, trigger);
      if x.Fail? then x else Val(Bool(!Truthy(x.v)))
    case Positive(c) => CmpValue(c, view, trigger)
  }

  function CmpValue(e: CmpExpr, view: Snapshot, trigger: string): Outcome {
    match e
    case Single(p) => PrimValue(p, view, trigger)
    case Compared(l, op, r) =>
      var x := PrimValue(l, view, trigger);
      if x.Fail? then x
      else
        var y := PrimValue(r, view, trigger);
        if y.Fail? then y else Compare(op, x.v, y.v)
  }

  function PrimValue(e: Primary, view: Snapshot, trigger: string): Outcome {
    match e
    case Group(inner) => OrValue(inner, view, trigger)
    case Literal(t) => Val(LiteralValue(t))
    case Path(p) =>
      (match ResolvePath(p, view, trigger)
       case Some(v) => Val(v)
       case None => Fail(Unresolved(p)))
    case Call(f, arg) =>
      var x := PrimValue(arg, view, trigger);
      if x.Fail? then x else Val(Bool(x.v.Null? == (f == "is_null")))
  }

  /** The truth of a condition text; None when evaluating it raises. */
  function Holds(text: string, view: Snapshot, trigger: string): Option<bool> {
    match Lex(text)
    case Err(_) => None
    case Ok(ts) =>
      match Parse(ts)
      case None => None
      case Some(e) =>
        match OrValue(e, view, trigger)
        case Fail(_) => None
        case Val(v) => Some(Truthy(v))
  }

  /** Accepted by the linter: tokens, at least one, forming one expression. */
  predicate Linted(text: string) {
    Lex(text).Ok? && Lex(text).value != [] && Parse(Lex(text).value).Some?
  }

  /** What evaluating an accepted text comes to: the truth of its tree's meaning, or that meaning's error. */
  function Evaluation(text: string, view: Snapshot, trigger: string): Outcome
    requires Linted(text)
  {
    Judged(OrValue(Parse(Lex(text).value).value, view, trigger))
  }

  function Judged(r: Outcome): Outcome {
    match r case Val(v) => Val(Bool(Truthy(v))) case Fail(e) => Fail(e)
  }

  // ------------------------------------------------------------------ at run time

  predicate RuntimeOnly(r: Outcome) {
    r.Fail? ==> r.error.Unresolved? || r.error.Incomparable?
  }

  lemma {:induction false} OrFailsAtRuntime(e: OrExpr, view: Snapshot, trigger: string)
    ensures RuntimeOnly(OrValue(e, view, trigger))
    decreases e, 1
  {
    match e
    case OrOne(a) => AndFailsAtRuntime(a, view, trigger);
    case OrMore(l, r) => OrFailsAtRuntime(l, view, trigger); AndFailsAtRuntime(r, view, trigger);
  }

  lemma {:induction false} AndFailsAtRuntime(e: AndExpr, view: Snapshot, trigger: string)
    ensures RuntimeOnly(AndValue(e, view, trigger))
    decreases e, 1
  {
    match e
    case AndOne(n) => NotFailsAtRuntime(n, view, trigger);
    case AndMore(l, r) => AndFailsAtRuntime(l, view, trigger); NotFailsAtRuntime(r, view, trigger);
  }

  lemma {:induction false} NotFailsAtRuntime(e: NotExpr, view: Snapshot, trigger: string)
    ensures RuntimeOnly(NotValue(e, view, trigger))
    decreases e, 1
  {
    match e
    case Negated(n) => NotFailsAtRuntime(n, view, trigger);
    case Positive(Single(p)) => PrimFailsAtRuntime(p, view, trigger);
    case Positive(Compared(l, op, r)) => PrimFailsAtRuntime(l, view, trigger); PrimFailsAtRuntime(r, view, trigger);
  }

  lemma {:induction false} PrimFailsAtRuntime(e: Primary, view: Snapshot, trigger: string)
    ensures RuntimeOnly(PrimValue(e, view, trigger))
    decreases e, 0
  {
    match e
    case Group(inner) => OrFailsAtRuntime(inner, view, trigger);
    case Call(f, arg) => PrimFailsAtRuntime(arg, view, trigger);
    case Literal(_) =>
    case Path(_) =>
  }

  /** Printing a tree and evaluating the text gives the truth of the tree's value, or the tree's own error. */
  lemma PrintedTreeHolds(e: OrExpr, view: Snapshot, trigger: string)
    requires OrOk(e) && forall t :: t in OrToks(e) ==> Proper(t)
    ensures Linted(Print(OrToks(e)))
    ensures Evaluation(Print(OrToks(e)), view, trigger) == Judged(OrValue(e, view, trigger))
    ensures Holds(Print(OrToks(e)), view, trigger) ==
      match OrValue(e, view, trigger) case Val(v) => Some(Truthy(v)) case Fail(_) => None
  {
    var ts := OrToks(e);
    LexPrint(ts);
    assert Lexed(Lex(Print(ts)).value);
    ParseRecovers(e);
  }

  /** The linted texts are exactly those whose tokens are the print of a tree, and the tree is unique. */
  lemma LintedIsPrinted(text: string)
    ensures Linted(text) <==> Lex(text).Ok? && exists e :: OrOk(e) && OrToks(e) == Lex(text).value
    ensures Lex(text).Ok? ==>
      forall e, f :: OrOk(e) && OrOk(f) && OrToks(e) == Lex(text).value && OrToks(f) == Lex(text).value ==> e == f
  {
    if Lex(text).Ok? {
      AcceptedIsPrinted(Lex(text).value);
    }
  }

  // ------------------------------------------------------------------ what a condition depends on

  /** The nodes whose outputs a list of tokens can read. */
  function Reads(ts: seq<Token>, trigger: string): set<string> {
    set t | t in ts && t.kind == WORD && NodeRead(t.value, trigger).Some? :: NodeRead(t.value, trigger).value
  }

  predicate Agree(a: Snapshot, b: Snapshot, nodes: set<string>) {
    a.triggerInput == b.triggerInput
    && forall n :: n in nodes ==>
      (n in a.outputs <==> n in b.outputs) && (n in a.outputs ==> a.outputs[n] == b.outputs[n])
  }

  lemma ResolveDepends(path: string, a: Snapshot, b: Snapshot, trigger: string)
    requires Agree(a, b, if NodeRead(path, trigger).Some? then {NodeRead(path, trigger).value} else {})
    ensures ResolvePath(path, a, trigger) == ResolvePath(path, b, trigger)
  {
    if NodeRead(path, trigger).Some? { assert NodeRead(path, trigger).value in {NodeRead(path, trigger).value}; }
  }

  lemma {:induction false} OrDepends(e: OrExpr, a: Snapshot, b: Snapshot, trigger: string)
    requires Agree(a, b, Reads(OrToks(e), trigger))
    ensures OrValue(e, a, trigger) == OrValue(e, b, trigger)
    decreases e, 1
  {
    match e
    case OrOne(x) => AndDepends(x, a, b, trigger);
    case OrMore(l, r) =>
      assert Reads(OrToks(l), trigger) <= Reads(OrToks(e), trigger)
        && Reads(AndToks(r), trigger) <= Reads(OrToks(e), trigger);
      OrDepends(l, a, b, trigger);
      AndDepends(r, a, b, trigger);
  }

  lemma {:induction false} AndDepends(e: AndExpr, a: Snapshot, b: Snapshot, trigger: string)
    requires Agree(a, b, Reads(AndToks(e), trigger))
    ensures AndValue(e, a, trigger) == AndValue(e, b, trigger)
    decreases e, 1
  {
    match e
    case AndOne(x) => NotDepends(x, a, b, trigger);
    case AndMore(l, r) =>
      assert Reads(AndToks(l), trigger) <= Reads(AndToks(e), trigger)
        && Reads(NotToks(r), trigger) <= Reads(AndToks(e), trigger);
      AndDepends(l, a, b, trigger);
      NotDepends(r, a, b, trigger);
  }

  lemma {:induction false} NotDepends(e: NotExpr, a: Snapshot, b: Snapshot, trigger: string)
    requires Agree(a, b, Reads(NotToks(e), trigger))
    ensures NotValue(e, a, trigger) == NotValue(e, b, trigger)
    decreases e, 1
  {
    match e
    case Negated(n) =>
      assert Reads(NotToks(n), trigger) <= Reads(NotToks(e), trigger);
      NotDepends(n, a, b, trigger);
    case Positive(Single(p)) =>
      assert NotToks(e) == PrimToks(p);
      PrimDepends(p, a, b, trigger);
    case Positive(Compared(l, op, r)) =>
      assert Reads(PrimToks(l), trigger) <= Reads(NotToks(e), trigger)
        && Reads(PrimToks(r), trigger) <= Reads(NotToks(e), trigger);
      PrimDepends(l, a, b, trigger);
      PrimDepends(r, a, b, trigger);
  }

  lemma {:induction false} PrimDepends(e: Primary, a: Snapshot, b: Snapshot, trigger: string)
    requires Agree(a, b, Reads(PrimToks(e), trigger))
    ensures PrimValue(e, a, trigger) == PrimValue(e, b, trigger)
    decreases e, 0
  {
    match e
    case Group(inner) =>
      assert Reads(OrToks(inner), trigger) <= Reads(PrimToks(e), trigger);
      OrDepends(inner, a, b, trigger);
    case Call(f, arg) =>
      assert Reads(PrimToks(arg), trigger) <= Reads(PrimToks(e), trigger);
      PrimDepends(arg, a, b, trigger);
    case Path(p) =>
      assert Token(WORD, p) in PrimToks(e);
      if NodeRead(p, trigger).Some? { assert NodeRead(p, trigger).value in Reads(PrimToks(e), trigger); }
      ResolveDepends(p, a, b, trigger);
    case Literal(_) =>
  }

  /** The nodes a condition text can read. */
  function ConditionReads(text: string, trigger: string): set<string> {
    if Lex(text).Ok? then Reads(Lex(text).value, trigger) else {}
  }

  /** A condition depends on nothing but the outputs of the nodes it names. */
  lemma HoldsDepends(text: string, a: Snapshot, b: Snapshot, trigger: string)
    requires Agree(a, b, ConditionReads(text, trigger))
    ensures Holds(text, a, trigger) == Holds(text, b, trigger)
  {
    if Lex(text).Ok? && Parse(Lex(text).value).Some? {
      OrDepends(Parse(Lex(text).value).value, a, b, trigger);
    }
  }

  // ------------------------------------------------------------------ more outputs

  /** b has every output a has. */
  ghost predicate Extends(a: Snapshot, b: Snapshot) {
    a.triggerInput == b.triggerInput && forall n :: n in a.outputs ==> n in b.outputs && b.outputs[n] == a.outputs[n]
  }

  lemma ResolveStays(path: string, a: Snapshot, b: Snapshot, trigger: string)
    requires Extends(a, b) && ResolvePath(path, a, trigger).Some?
    ensures ResolvePath(path, b, trigger) == ResolvePath(path, a, trigger)
  {
  }

  lemma {:induction false} OrStays(e: OrExpr, a: Snapshot, b: Snapshot, trigger: string)
    requires Extends(a, b) && OrValue(e, a, trigger).Val?
    ensures OrValue(e, b, trigger) == OrValue(e, a, trigger)
    decreases e, 1
  {
    hide Extends;
    match e
    case OrOne(x) => AndStays(x, a, b, trigger);
    case OrMore(l, r) => OrStays(l, a, b, trigger); AndStays(r, a, b, trigger);
  }

  lemma {:induction false} AndStays(e: AndExpr, a: Snapshot, b: Snapshot, trigger: string)
    requires Extends(a, b) && AndValue(e, a, trigger).Val?
    ensures AndValue(e, b, trigger) == AndValue(e, a, trigger)
    decreases e, 1
  {
    hide Extends;
    match e
    case AndOne(x) => NotStays(x, a, b, trigger);
    case AndMore(l, r) => AndStays(l, a, b, trigger); NotStays(r, a, b, trigger);
  }

  lemma {:induction false} NotStays(e: NotExpr, a: Snapshot, b: Snapshot, trigger: string)
    requires Extends(a, b) && NotValue(e, a, trigger).Val?
    ensures NotValue(e, b, trigger) == NotValue(e, a, trigger)
    decreases e, 1
  {
    hide Extends;
    match e
    case Negated(n) => NotStays(n, a, b, trigger);
    case Positive(Single(p)) => PrimStays(p, a, b, trigger);
    case Positive(Compared(l, op, r)) => PrimStays(l, a, b, trigger); PrimStays(r, a, b, trigger);
  }

  lemma {:induction false} PrimStays(e: Primary, a: Snapshot, b: Snapshot, trigger: string)
    requires Extends(a, b) && PrimValue(e, a, trigger).Val?
    ensures PrimValue(e, b, trigger) == PrimValue(e, a, trigger)
    decreases e, 0
  {
    hide Extends, ResolvePath;
    match e
    case Group(inner) => OrStays(inner, a, b, trigger);
    case Call(f, arg) => PrimStays(arg, a, b, trigger);
    case Path(p) => ResolveStays(p, a, b, trigger);
    case Literal(_) =>
  }

  /** A condition that has a truth keeps it when more nodes have outputs. */
  lemma HoldsStays(text: string, a: Snapshot, b: Snapshot, trigger: string)
    requires Extends(a, b) && Holds(text, a, trigger).Some?
    ensures Holds(text, b, trigger) == Holds(text, a, trigger)
  {
    hide OrValue, Extends;
    OrStays(Parse(Lex(text).value).value, a, b, trigger);
  }
}
