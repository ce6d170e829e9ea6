/** The tokenizers: the linter's, which matches at each position, and the evaluator's, which searches
    for the next match and then checks that it skipped nothing. Characters are ASCII. */
module WhenLexer {
  import opened Wrappers
  import opened WhenSyntax

  predicate IsDigit(c: char) { '0' <= c <= '9' }
  predicate IsLetter(c: char) { 'a' <= c <= 'z' || 'A' <= c <= 'Z' || c == '_' }
  predicate IsWordChar(c: char) { IsLetter(c) || IsDigit(c) }
  predicate IsSpace(c: char) { 9 as char <= c <= 13 as char || 28 as char <= c <= 32 as char }

  /** Length of the longest prefix of s made of characters of one class. */
  function Run(s: string, p: char -> bool): (n: nat)
    ensures n <= |s|
    ensures forall i :: 0 <= i < n ==> p(s[i])
    ensures n < |s| ==> !p(s[n])
  {
    if s == [] || !p(s[0]) then 0
    else
      var n := Run(s[1..], p);
      assert forall i :: 1 <= i <= n ==> s[i] == s[1..][i - 1];
      n + 1
  }

  /** Length of a quoted string starting at s[0], or 0. */
  function QuotedLength(s: string): (n: nat)
    ensures n <= |s|
  {
    if s == [] || (s[0] != '"' && s[0] != '\'') then 0
    else
      var n := Run(s[1..], c => c != s[0]);
      if n < |s| - 1 then n + 2 else 0
  }

  function FloatLength(s: string): (n: nat)
    ensures n <= |s|
  {
    var n := Run(s, IsDigit);
    if n == 0 || n == |s| || s[n] != '.' then 0
    else
      var m := Run(s[n + 1..], IsDigit);
      if m == 0 then 0 else n + 1 + m
  }

  function OpLength(s: string): (n: nat)
    ensures n <= |s|
  {
    if |s| >= 2 && s[..2] in {"==", "!=", ">=", "<=", "||", "&&"} then 2
    else if |s| >= 1 && (s[0] == '>' || s[0] == '<') then 1
    else 0
  }

  function IdentLength(s: string): (n: nat)
    ensures n <= |s|
  {
    if s == [] || !IsLetter(s[0]) then 0 else Run(s, IsWordChar)
  }

  /** A dotted word. */
  function WordLength(s: string): (n: nat)
    ensures n <= |s|
  {
    var n := IdentLength(s);
    if n == 0 || n == |s| || s[n] != '.' then n
    else
      var m := WordLength(s[n + 1..]);
      if m == 0 then n else n + 1 + m
  }

  /** One match of the token pattern at the start of s; the alternatives are tried in the pattern's order.
      White space is reported without a kind. */
  datatype Match = NoMatch | Match(kind: Option<Kind>, length: nat)

  function MatchHere(s: string): (m: Match)
    ensures m.Match? ==> 0 < m.length <= |s|
  {
    if Run(s, IsSpace) > 0 then Match(None, Run(s, IsSpace))
    else if QuotedLength(s) > 0 then Match(Some(STRING), QuotedLength(s))
    else if FloatLength(s) > 0 then Match(Some(FLOAT), FloatLength(s))
    else if Run(s, IsDigit) > 0 then Match(Some(INT), Run(s, IsDigit))
    else if OpLength(s) > 0 then Match(Some(OP), OpLength(s))
    else if s == [] then NoMatch
    else if s[0] == '!' then Match(Some(NOT), 1)
    else if s[0] == '(' then Match(Some(LPAREN), 1)
    else if s[0] == ')' then Match(Some(RPAREN), 1)
    else if s[0] == ',' then Match(Some(COMMA), 1)
    else if WordLength(s) > 0 then Match(Some(WORD), WordLength(s))
    else NoMatch
  }

  /** The tokens of a text, or the failure at the first character nothing matches. */
  function Lex(s: string): (r: Result<seq<Token>>)
    ensures r.Ok? ==> Lexed(r.value)
  {
    if s == [] then Ok([])
    else
      var m := MatchHere(s);
      if m.NoMatch? then Err("unexpected character")
      else
        match Lex(s[m.length..])
        case Err(e) => Err(e)
        case Ok(rest) =>
          if m.kind.None? then Ok(rest)
          else
            PunctuationText(s, m);
            Ok([Token(m.kind.value, s[..m.length])] + rest)
  }

  lemma PunctuationText(s: string, m: Match)
    requires m == MatchHere(s) && m.Match? && m.kind.Some?
    ensures Lexed([Token(m.kind.value, s[..m.length])])
  {
    if m.length == 1 && s != [] { assert s[..1] == [s[0]]; }
  }

  /** What is left of the text from pos on decides what is still missing from the tokens. */
  ghost predicate Lexing(expr: string, pos: nat, tokens: seq<Token>) {
    && pos <= |expr|
    && Lex(expr).Ok? == Lex(expr[pos..]).Ok?
    && (Lex(expr).Ok? ==> Lex(expr).value == tokens + Lex(expr[pos..]).value)
  }

  lemma LexStarts(expr: string)
    ensures Lexing(expr, 0, [])
  {
    assert expr[0..] == expr;
  }

  lemma LexNext(expr: string, pos: nat, tokens: seq<Token>, tokens': seq<Token>)
    requires Lexing(expr, pos, tokens) && pos < |expr| && MatchHere(expr[pos..]).Match?
    requires var m := MatchHere(expr[pos..]);
      tokens' == if m.kind.Some? then tokens + [Token(m.kind.value, expr[pos..][..m.length])] else tokens
    ensures Lexing(expr, pos + MatchHere(expr[pos..]).length, tokens')
  {
    hide MatchHere, Lexed;
    var m := MatchHere(expr[pos..]);
    assert expr[pos..][m.length..] == expr[pos + m.length..];
    assert Lex(expr[pos..]).Ok? == Lex(expr[pos + m.length..]).Ok?;
  }

  lemma LexFails(expr: string, pos: nat, tokens: seq<Token>)
    requires Lexing(expr, pos, tokens) && pos < |expr| && MatchHere(expr[pos..]).NoMatch?
    ensures Lex(expr).Err?
  {
  }

  lemma LexEnds(expr: string, tokens: seq<Token>)
    requires Lexing(expr, |expr|, tokens)
    ensures Lex(expr) == Ok(tokens)
  {
    hide MatchHere, Lexed;
    assert expr[|expr|..] == [] && Lex([]) == Ok([]);
    assert tokens + [] == tokens;
  }

  /** The linter's tokenizer. */
  method LintTokens(expr: string) returns (r: Result<seq<Token>>)
    ensures r.Ok? == Lex(expr).Ok? && (r.Ok? ==> r == Lex(expr))
  {
    hide *;
    var tokens: seq<Token> := [];
    var pos := 0;
    LexStarts(expr);
    while pos < |expr|
      invariant 0 <= pos <= |expr| && Lexing(expr, pos, tokens)
    {
      var m := MatchHere(expr[pos..]);
      if m.NoMatch? {
        LexFails(expr, pos, tokens);
        return Err("E_EXPR_TOKEN_UNEXPECTED_CHAR");
      }
      var tokens' := if m.kind.Some? then tokens + [Token(m.kind.value, expr[pos..][..m.length])] else tokens;
      LexNext(expr, pos, tokens, tokens');
      pos, tokens := pos + m.length, tokens';
    }
    LexEnds(expr, tokens);
    return Ok(tokens);
  }

  /** Pattern.finditer: the first position from pos on where the pattern matches. */
  method NextMatch(expr: string, pos: nat) returns (start: nat, m: Match)
    requires pos <= |expr|
    ensures pos <= start <= |expr|
    ensures forall i :: pos <= i < start ==> MatchHere(expr[i..]).NoMatch?
    ensures m == MatchHere(expr[start..]) && (m.NoMatch? ==> start == |expr|)
  {
    hide *;
    start := pos;
    m := MatchHere(expr[start..]);
    while m.NoMatch? && start < |expr|
      invariant pos <= start <= |expr|
      invariant forall i :: pos <= i < start ==> MatchHere(expr[i..]).NoMatch?
      invariant m == MatchHere(expr[start..])
      decreases |expr| - start
    {
      start := start + 1;
      m := MatchHere(expr[start..]);
    }
  }

  /** The evaluator's tokenizer agrees with the linter's on every text. */
  method EvalTokens(expr: string) returns (r: Result<seq<Token>>)
    ensures r.Ok? == Lex(expr).Ok? && (r.Ok? ==> r == Lex(expr))
  {
    hide *;
    var tokens: seq<Token> := [];
    var pos := 0;
    LexStarts(expr);
    var start, m := NextMatch(expr, pos);
    while m.Match?
      invariant 0 <= pos <= start <= |expr| && Lexing(expr, pos, tokens)
      invariant forall i :: pos <= i < start ==> MatchHere(expr[i..]).NoMatch?
      invariant m == MatchHere(expr[start..]) && (m.NoMatch? ==> start == |expr|)
      decreases |expr| - start, m.Match?
    {
      if start != pos {
        LexFails(expr, pos, tokens);
        return Err("unexpected character(s)");
      }
      var tokens' := if m.kind.Some? then tokens + [Token(m.kind.value, expr[pos..][..m.length])] else tokens;
      LexNext(expr, pos, tokens, tokens');
      pos, tokens := pos + m.length, tokens';
      start, m := NextMatch(expr, pos);
    }
    if pos != |expr| {
      LexFails(expr, pos, tokens);
      return Err("unexpected character(s)");
    }
    LexEnds(expr, tokens);
    return Ok(tokens);
  }

  // ------------------------------------------------------------------ printing

  /** The tokens the pattern can produce. */
  predicate Proper(t: Token) {
    match t.kind
    case STRING => |t.value| >= 2 && QuotedLength(t.value) == |t.value|
    case FLOAT => t.value != [] && FloatLength(t.value) == |t.value|
    case INT => t.value != [] && Run(t.value, IsDigit) == |t.value|
    case OP => t.value in {"==", "!=", ">=", "<=", "||", "&&", ">", "<"}
    case NOT => t.value == "!"
    case LPAREN => t.value == "("
    case RPAREN => t.value == ")"
    case COMMA => t.value == ","
    case WORD => t.value != [] && WordLength(t.value) == |t.value|
  }

  /** Tokens separated by single spaces. */
  function Print(ts: seq<Token>): string {
    if ts == [] then "" else ts[0].value + " " + Print(ts[1..])
  }

  lemma {:induction false} RunStops(a: string, rest: string, p: char -> bool)
    requires (Run(a, p) < |a|) || (rest != [] && !p(rest[0]))
    ensures Run(a + rest, p) == Run(a, p)
  {
    if a != [] && p(a[0]) {
      assert (a + rest)[1..] == a[1..] + rest;
      RunStops(a[1..], rest, p);
    } else if a == [] {
      assert a + rest == rest;
    }
  }

  lemma IdentStops(a: string, rest: string)
    requires a != [] && IdentLength(a) > 0 && rest != [] && !IsWordChar(rest[0])
    ensures IdentLength(a + rest) == IdentLength(a)
  {
    RunStops(a, rest, IsWordChar);
  }

  lemma {:induction false} WordStops(a: string, rest: string)
    requires a != [] && WordLength(a) == |a| && rest != [] && !IsWordChar(rest[0]) && rest[0] != '.'
    ensures WordLength(a + rest) == |a|
  {
    hide IdentLength, IsWordChar;
    var n := IdentLength(a);
    IdentStops(a, rest);
    if n == |a| {
    } else {
      assert (a + rest)[n + 1..] == a[n + 1..] + rest;
      WordStops(a[n + 1..], rest);
    }
  }

  /** Which characters the alternatives can start with. */
  lemma FirstCharacters(s: string)
    requires s != []
    ensures QuotedLength(s) > 0 ==> s[0] == '"' || s[0] == '\''
    ensures FloatLength(s) > 0 ==> IsDigit(s[0])
    ensures WordLength(s) > 0 <==> IsLetter(s[0])
    ensures OpLength(s) > 0 ==> s[0] in {'=', '!', '>', '<', '|', '&'}
  {
    if |s| >= 2 { assert s[..2][0] == s[0]; }
  }

  lemma NumberMatches(a: string, tail: string)
    requires a != [] && tail != [] && !IsDigit(tail[0]) && tail[0] != '.'
    ensures FloatLength(a) == |a| ==> FloatLength(a + tail) == |a|
    ensures Run(a, IsDigit) == |a| ==> FloatLength(a + tail) == 0 && Run(a + tail, IsDigit) == |a|
  {
    var s := a + tail;
    RunStops(a, tail, IsDigit);
    var n := Run(a, IsDigit);
    if FloatLength(a) == |a| {
      assert s[n + 1..] == a[n + 1..] + tail;
      RunStops(a[n + 1..], tail, IsDigit);
    }
  }

  /** Followed by a space, a proper token is matched whole, as itself. */
  lemma ProperMatches(t: Token, rest: string)
    requires Proper(t)
    ensures MatchHere(t.value + (" " + rest)) == Match(Some(t.kind), |t.value|)
  {
    hide Run, QuotedLength, FloatLength, WordLength, OpLength;
    var a, tail := t.value, " " + rest;
    var s := a + tail;
    assert s[0] == a[0];
    FirstCharacters(s);
    FirstCharacters(a);
    match t.kind
    case STRING => StringMatches(a, tail);
    case FLOAT => NumberMatches(a, tail);
    case INT => NumberMatches(a, tail);
    case OP => OpMatches(a, tail);
    case WORD => WordStops(a, tail);
    case _ => OpMatches(a, tail);
  }

  lemma OpMatches(a: string, tail: string)
    requires tail != [] && tail[0] == ' '
    requires a in {"==", "!=", ">=", "<=", "||", "&&", ">", "<", "!", "(", ")", ","}
    ensures OpLength(a + tail) == if a in {"!", "(", ")", ","} then 0 else |a|
  {
    var s := a + tail;
    if |a| == 2 { assert s[..2] == a; } else { assert s[..2] == a + [' '] && s[..2][1] == ' '; }
  }

  lemma StringMatches(a: string, tail: string)
    requires |a| >= 2 && QuotedLength(a) == |a|
    ensures QuotedLength(a + tail) == |a|
  {
    var s := a + tail;
    assert s[1..] == a[1..] + tail && s[0] == a[0];
    RunStops(a[1..], tail, c => c != a[0]);
    SameRun(s[1..], c => c != s[0], c => c != a[0]);
  }

  lemma {:induction false} SameRun(s: string, p: char -> bool, q: char -> bool)
    requires forall c :: p(c) == q(c)
    ensures Run(s, p) == Run(s, q)
  {
    if s == [] {
    } else {
      SameRun(s[1..], p, q);
    }
  }

  /** Tokenizing printed tokens gives them back. */
  lemma {:induction false} LexPrint(ts: seq<Token>)
    requires forall t :: t in ts ==> Proper(t)
    ensures Lex(Print(ts)) == Ok(ts)
  {
    if ts == [] {
    } else {
      var rest := Print(ts[1..]);
      var s := Print(ts);
      assert s == ts[0].value + (" " + rest);
      assert ts[0] in ts;
      ProperMatches(ts[0], rest);
      assert s[..|ts[0].value|] == ts[0].value;
      assert s[|ts[0].value|..] == " " + rest;
      LexPrint(ts[1..]);
      LexSkipsSpace(rest, ts[1..]);
      assert ts == [ts[0]] + ts[1..];
    }
  }

  lemma LexSkipsSpace(rest: string, ts: seq<Token>)
    requires Lex(rest) == Ok(ts)
    ensures Lex(" " + rest) == Ok(ts)
  {
    var s := " " + rest;
    assert s[1..] == rest;
    var n := Run(s, IsSpace);
    assert n == 1 + Run(rest, IsSpace);
    if n > 1 {
      assert s[n..] == rest[n - 1..];
    }
  }

  // ------------------------------------------------------------------ spacing

  /** The tokens of a text with what stands before, between and after them. */
  function Spread(gaps: seq<string>, ts: seq<Token>): string
    requires |gaps| == |ts| + 1
  {
    if ts == [] then gaps[0] else gaps[0] + (ts[0].value + Spread(gaps[1..], ts[1..]))
  }

  predicate Blank(s: string) {
    forall c :: c in s ==>
      c in {' ', '\t', '\n', '\r', 11 as char, 12 as char, 28 as char, 29 as char, 30 as char, 31 as char}
  }

  /** The text that follows does not go on with the token. */
  predicate Apart(t: Token, next: string) {
    next == []
    || match t.kind
       case WORD => !IsWordChar(next[0]) && next[0] != '.'
       case INT => !IsDigit(next[0]) && next[0] != '.'
       case FLOAT => !IsDigit(next[0])
       case OP => t.value in {">", "<"} ==> next[0] != '='
       case NOT => next[0] != '='
       case _ => true
  }

  lemma WordMatches(a: string, tail: string)
    requires a != [] && WordLength(a) == |a| && (tail == [] || (!IsWordChar(tail[0]) && tail[0] != '.'))
    ensures WordLength(a + tail) == |a|
  {
    if tail == [] {
      assert a + tail == a;
    } else {
      WordStops(a, tail);
    }
  }

  lemma IntMatches(a: string, tail: string)
    requires a != [] && Run(a, IsDigit) == |a| && (tail == [] || (!IsDigit(tail[0]) && tail[0] != '.'))
    ensures FloatLength(a + tail) == 0 && Run(a + tail, IsDigit) == |a|
  {
    if tail == [] {
      assert a + tail == a;
    } else {
      NumberMatches(a, tail);
    }
  }

  lemma FloatMatches(a: string, tail: string)
    requires a != [] && FloatLength(a) == |a| && (tail == [] || !IsDigit(tail[0]))
    ensures FloatLength(a + tail) == |a|
  {
    if tail == [] {
      assert a + tail == a;
    } else {
      var n := Run(a, IsDigit);
      RunStops(a, tail, IsDigit);
      assert (a + tail)[n + 1..] == a[n + 1..] + tail;
      RunStops(a[n + 1..], tail, IsDigit);
    }
  }

  lemma SignMatches(a: string, tail: string)
    requires a in {"==", "!=", ">=", "<=", "||", "&&", ">", "<", "!", "(", ")", ","}
    requires a in {">", "<", "!"} ==> tail == [] || tail[0] != '='
    ensures OpLength(a + tail) == if a in {"!", "(", ")", ","} then 0 else |a|
  {
    var s := a + tail;
    if |a| == 2 {
      assert s[..2] == a;
    } else if tail != [] {
      assert s[..2] == [a[0], tail[0]];
    }
  }

  /** Followed by something that does not go on with it, a proper token is matched whole, as itself. */
  lemma ApartMatches(t: Token, tail: string)
    requires Proper(t) && Apart(t, tail)
    ensures MatchHere(t.value + tail) == Match(Some(t.kind), |t.value|)
  {
    hide Run, QuotedLength, FloatLength, WordLength, OpLength;
    var a := t.value;
    var s := a + tail;
    assert s[0] == a[0];
    FirstCharacters(s);
    FirstCharacters(a);
    match t.kind
    case STRING => StringMatches(a, tail);
    case FLOAT => FloatMatches(a, tail);
    case INT => IntMatches(a, tail);
    case WORD => WordMatches(a, tail);
    case _ => SignMatches(a, tail);
  }

  lemma {:induction false} LexSkipsBlank(g: string, rest: string)
    requires Blank(g) && Lex(rest).Ok?
    ensures Lex(g + rest) == Lex(rest)
  {
    hide Lex, Blank;
    if g == [] {
      assert g + rest == rest;
    } else {
      BlankParts(g);
      LexSkipsBlank(g[1..], rest);
      assert g + rest == [g[0]] + (g[1..] + rest);
      LexSkipsOne(g[0], g[1..] + rest);
    }
  }

  lemma BlankParts(g: string)
    requires Blank(g) && g != []
    ensures Blank([g[0]]) && Blank(g[1..])
  {
    assert g[0] in g && forall c :: c in g[1..] ==> c in g;
  }

  lemma LexSkipsOne(c: char, rest: string)
    requires Blank([c]) && Lex(rest).Ok?
    ensures Lex([c] + rest) == Lex(rest)
  {
    var s := [c] + rest;
    assert c in [c] && IsSpace(c);
    assert s[1..] == rest;
    var n := Run(s, IsSpace);
    assert n == 1 + Run(rest, IsSpace);
    assert s[n..] == rest[n - 1..];
  }

  ghost predicate WellSpaced(gaps: seq<string>, ts: seq<Token>) {
    && |gaps| == |ts| + 1 && (forall g :: g in gaps ==> Blank(g))
    && forall i :: 0 <= i < |ts| ==> Proper(ts[i]) && Apart(ts[i], Spread(gaps[i + 1..], ts[i + 1..]))
  }

  /** Whatever white space stands around tokens, and none where they cannot be misread, a text has these tokens. */
  lemma {:induction false} LexSpread(gaps: seq<string>, ts: seq<Token>)
    requires WellSpaced(gaps, ts)
    ensures Lex(Spread(gaps, ts)) == Ok(ts)
  {
    hide MatchHere, Proper, Apart, Blank;
    if ts == [] {
      assert gaps[0] + [] == gaps[0];
      LexSkipsBlank(gaps[0], []);
    } else {
      WellSpacedRest(gaps, ts);
      var rest := Spread(gaps[1..], ts[1..]);
      LexSpread(gaps[1..], ts[1..]);
      ProperIsNotEmpty(ts[0]);
      LexToken(ts[0], rest, ts[1..]);
      LexSkipsBlank(gaps[0], ts[0].value + rest);
      assert [ts[0]] + ts[1..] == ts;
    }
  }

  lemma WellSpacedRest(gaps: seq<string>, ts: seq<Token>)
    requires WellSpaced(gaps, ts) && ts != []
    ensures WellSpaced(gaps[1..], ts[1..]) && Blank(gaps[0]) && Proper(ts[0])
    ensures Apart(ts[0], Spread(gaps[1..], ts[1..]))
  {
    hide Proper, Apart, Blank, Spread;
    forall i | 0 <= i < |ts[1..]|
      ensures Proper(ts[1..][i]) && Apart(ts[1..][i], Spread(gaps[1..][i + 1..], ts[1..][i + 1..]))
    {
      assert gaps[1..][i + 1..] == gaps[i + 2..] && ts[1..][i + 1..] == ts[i + 2..];
      assert Proper(ts[i + 1]) && Apart(ts[i + 1], Spread(gaps[(i + 1) + 1..], ts[(i + 1) + 1..]));
    }
  }

  lemma ProperIsNotEmpty(t: Token)
    requires Proper(t)
    ensures t.value != []
  {
  }

  lemma LexToken(t: Token, rest: string, ts: seq<Token>)
    requires Proper(t) && Apart(t, rest) && Lex(rest) == Ok(ts) && t.value != []
    ensures Lex(t.value + rest) == Ok([t] + ts)
  {
    hide MatchHere, Proper, Apart;
    ApartMatches(t, rest);
    var s := t.value + rest;
    assert s[..|t.value|] == t.value && s[|t.value|..] == rest;
  }

  /** And a text is nothing but its tokens and white space. */
  lemma {:induction false} LexIsSpread(s: string) returns (gaps: seq<string>)
    requires Lex(s).Ok?
    ensures |gaps| == |Lex(s).value| + 1 && (forall g :: g in gaps ==> Blank(g)) && s == Spread(gaps, Lex(s).value)
    decreases |s|
  {
    hide Blank, Lexed;
    if s == [] {
      gaps := [""];
      NothingIsBlank();
    } else {
      var m := MatchHere(s);
      hide MatchHere;
      var rest := s[m.length..];
      var after := LexIsSpread(rest);
      assert s == s[..m.length] + rest;
      if m.kind.None? {
        gaps := [s[..m.length] + after[0]] + after[1..];
        SpaceIsBlank(s);
        BlankJoins(s[..m.length], after[0]);
        MoreBefore(s[..m.length], after, Lex(rest).value);
      } else {
        gaps := [""] + after;
        NothingIsBlank();
        assert gaps[1..] == after;
        assert s == "" + (s[..m.length] + rest);
      }
    }
  }

  lemma NothingIsBlank()
    ensures Blank("")
  {
  }

  lemma BlankJoins(a: string, b: string)
    requires Blank(a) && Blank(b)
    ensures Blank(a + b)
  {
  }

  lemma SpaceIsBlank(s: string)
    requires MatchHere(s).Match? && MatchHere(s).kind.None?
    ensures Blank(s[..MatchHere(s).length])
  {
    var n := Run(s, IsSpace);
    forall c | c in s[..n] ensures c in s[..n] && IsSpace(c) {
      var i :| 0 <= i < n && s[..n][i] == c;
      assert IsSpace(s[i]);
    }
  }

  lemma MoreBefore(g: string, gaps: seq<string>, ts: seq<Token>)
    requires |gaps| == |ts| + 1
    ensures Spread([g + gaps[0]] + gaps[1..], ts) == g + Spread(gaps, ts)
  {
    var all := [g + gaps[0]] + gaps[1..];
    assert all[1..] == gaps[1..];
    if ts != [] {
      var rest := ts[0].value + Spread(gaps[1..], ts[1..]);
      assert g + gaps[0] + rest == g + (gaps[0] + rest);
    }
  }
}
