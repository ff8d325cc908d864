/**
 * Model of the `Parser` namespace of compiler.c++: the elements the parser
 * rewrites, the errors it records, `get_type`, and the fixed-point rewrite
 * engine `_parse` as a specification.
 *
 * One rule is applied at one index (`RuleAt`); a pass walks the sequence
 * left to right (`PassFrom`); passes repeat while one of them made progress
 * (`Reduce`).  `ParserEngine` holds the imperative loops of the source and
 * is proved to compute these functions.
 */
module Parser {
  import opened Wrappers
  import opened Lexer

  // ------------------------------------------------------------ get_type

  /** The non-structure value types. */
  datatype ValType = VoidType | NumType | StrType

  /** `get_type`: the three type names map to their type, anything else to void. */
  function GetType(name: string): (t: ValType)
    ensures t == NumType <==> name == "num"
    ensures t == StrType <==> name == "str"
    ensures t == VoidType <==> name != "num" && name != "str"
  {
    if name == "void" then VoidType
    else if name == "num" then NumType
    else if name == "str" then StrType
    else VoidType
  }

  /** The keyword spelling a type: `get_type` maps it back. */
  function TypeName(t: ValType): (name: string)
    ensures GetType(name) == t
  {
    match t
    case VoidType => "void"
    case NumType => "num"
    case StrType => "str"
  }

  // ------------------------------------------------------------ elements

  datatype LitValue = NumLit(num: int) | StrLit(str: string) | VoidLit

  /**
   * An element of the sequence `_parse` rewrites.  Every element has the
   * line and value fields of the source's `Element`; the rest is the part
   * of its `data` union that its type selects.  A token element keeps the
   * kind of the token it wraps (its value is the token's value).
   */
  datatype Element =
    | Tok(line: int, value: string, kind: TokenKind)
    | Literal(line: int, value: string, lit: LitValue)
    | Ref(line: int, value: string)
    | Operation(line: int, value: string, op: char, left: Option<Element>, right: Option<Element>)
    | Call(line: int, value: string, args: seq<Element>)
    | Error(line: int, value: string)

  const ErrorText: string := "<ERROR>"

  /** The error sites of the modelled rules. */
  datatype ErrorKind =
    | ExpectedClosingQuote
    | ExpectedClosingMultiline
    | ContinuationMissing
    | UnexpectedClosingMultiline
    | UnexpectedOperator
    | OperandBefore(tildeHint: bool)
    | LeftClash(neighbour: string)
    | EofOperands
    | OperandAfter
    | RightClash(minusHint: bool)
    | MissingBracket
    | UnexpectedComma
    | StaticGuard

  datatype ParserError = ParserError(line: int, kind: ErrorKind)

  const TildeHint: string := " (did you mean to use `~`?)"

  /**
   * The message recorded for an error.  The source's message for a right
   * clash also quotes the value of the element before the operator, which
   * need not be a token; that part is not modelled.
   */
  function Message(k: ErrorKind): string
  {
    match k
    case ExpectedClosingQuote => "Expected closing quote"
    case ExpectedClosingMultiline => "Expected closing multiline string"
    case ContinuationMissing => "Multiline string continuation missing"
    case UnexpectedClosingMultiline => "Unexpected closing multiline string"
    case UnexpectedOperator => "Unexpected operator"
    case OperandBefore(hint) =>
      "Unexpected operator (expected operand before operator)" + (if hint then TildeHint else "")
    case LeftClash(neighbour) => "Unexpected operator (" + neighbour + ")"
    case EofOperands => "EOF while looking for operands"
    case OperandAfter => "Unexpected operator (expected operand after operator)"
    case RightClash(hint) => "Unexpected operator" + (if hint then TildeHint else "")
    case MissingBracket => "Missing closing bracket"
    case UnexpectedComma => "Unexpected comma, expected expression"
    case StaticGuard =>
      "\"static\" keyword has to be followed by \"macro\", \"function\", \"structure\" or \"namespace\" keyword"
  }

  datatype ParseResult = ParseResult(elements: seq<Element>, errors: seq<ParserError>, successful: bool)

  predicate IsTokOf(e: Element, k: TokenKind)
  {
    e.Tok? && e.kind == k
  }

  /** The element types an operator accepts as an operand. */
  predicate IsExpression(e: Element)
  {
    e.Literal? || e.Call? || e.Ref? || e.Operation?
  }

  predicate IsStatic(e: Element)
  {
    IsTokOf(e, Keyword) && e.value == "static"
  }

  predicate IsMacroOrFunc(e: Element)
  {
    IsTokOf(e, Keyword) && (e.value == "macro" || e.value == "func")
  }

  // ------------------------------------------------------------- measures

  /** The number of `ELEMENT_TOKEN` elements: the termination measure. */
  function TokenCount(s: seq<Element>): nat
  {
    if s == [] then 0 else TokenCount(s[..|s| - 1]) + (if s[|s| - 1].Tok? then 1 else 0)
  }

  predicate NoTokens(mid: seq<Element>)
  {
    forall k :: 0 <= k < |mid| ==> !mid[k].Tok?
  }

  /**
   * The sequences the model accepts: no `macro` or `func` keyword token
   * comes anywhere after a `static` keyword token, adjacent or not, so the
   * two unmodelled declaration branches of the keyword rule are never
   * reached.  Adjacency alone would not do: erasures between the two can
   * make them neighbours in a later pass.
   */
  predicate Safe(s: seq<Element>)
  {
    forall p, q :: 0 <= p < q < |s| && IsStatic(s[p]) ==> !IsMacroOrFunc(s[q])
  }

  lemma {:induction false} TokenCountConcat(a: seq<Element>, b: seq<Element>)
    ensures TokenCount(a + b) == TokenCount(a) + TokenCount(b)
    decreases |b|
  {
    if b == [] {
      assert a + b == a;
    } else {
      assert (a + b)[..|a + b| - 1] == a + b[..|b| - 1];
      TokenCountConcat(a, b[..|b| - 1]);
    }
  }

  lemma {:induction false} NoTokensCount(mid: seq<Element>)
    requires NoTokens(mid)
    ensures TokenCount(mid) == 0
    decreases |mid|
  {
    if mid != [] {
      NoTokensCount(mid[..|mid| - 1]);
    }
  }

  lemma SpliceCount(s: seq<Element>, a: nat, b: nat, mid: seq<Element>)
    requires a <= b <= |s| && NoTokens(mid)
    ensures TokenCount(s[..a] + mid + s[b..]) + TokenCount(s[a..b]) == TokenCount(s)
  {
    assert s == s[..a] + s[a..b] + s[b..];
    TokenCountConcat(s[..a] + s[a..b], s[b..]);
    TokenCountConcat(s[..a], s[a..b]);
    TokenCountConcat(s[..a] + mid, s[b..]);
    TokenCountConcat(s[..a], mid);
    NoTokensCount(mid);
  }

  /** A range that starts with a token holds at least one. */
  lemma TokenFirst(s: seq<Element>, a: nat, b: nat)
    requires a < b <= |s| && s[a].Tok?
    ensures TokenCount(s[a..b]) >= 1
  {
    assert s[a..b] == [s[a]] + s[a + 1..b];
    TokenCountConcat([s[a]], s[a + 1..b]);
    assert [s[a]][..0] == [];
  }

  lemma SpliceSafe(s: seq<Element>, a: nat, b: nat, mid: seq<Element>)
    requires a <= b <= |s| && NoTokens(mid) && Safe(s)
    ensures Safe(s[..a] + mid + s[b..])
  {
    var t := s[..a] + mid + s[b..];
    forall p, q | 0 <= p < q < |t| && IsStatic(t[p])
      ensures !IsMacroOrFunc(t[q])
    {
      var p' := if p < a then p else p - |mid| + (b - a);
      assert p < a || a + |mid| <= p;
      assert t[p] == s[p'];
      if a + |mid| <= q || q < a {
        var q' := if q < a then q else q - |mid| + (b - a);
        assert t[q] == s[q'];
      }
    }
  }

  /**
   * `s` with `s[a..b]` replaced by `mid`, which holds no token: the shape of
   * every rewrite the parser makes.
   */
  function Splice(s: seq<Element>, a: nat, b: nat, mid: seq<Element>): seq<Element>
    requires a <= b <= |s| && NoTokens(mid)
  {
    s[..a] + mid + s[b..]
  }

  /** `erase(begin()+k)`, with erasing the end (no element there) changing nothing. */
  function EraseAt(s: seq<Element>, k: nat): seq<Element>
  {
    if k < |s| then Splice(s, k, k + 1, []) else s
  }

  // ------------------------------------------------------------- scanning

  /** The concatenated values of a run of elements. */
  function Values(s: seq<Element>): string
  {
    if s == [] then "" else Values(s[..|s| - 1]) + s[|s| - 1].value
  }

  /**
   * End of the single-line string scan from `j`: the first index that does
   * not hold a token other than a quote or a newline (the sequence's end
   * stands for a missing terminator).
   */
  function QuoteEnd(s: seq<Element>, j: nat): (e: nat)
    requires j <= |s|
    ensures j <= e <= |s|
    ensures forall k :: j <= k < e ==> s[k].Tok? && s[k].kind != Quote && s[k].kind != Newline
    ensures e < |s| ==> !s[e].Tok? || s[e].kind == Quote || s[e].kind == Newline
    decreases |s| - j
  {
    if j < |s| && s[j].Tok? && s[j].kind != Quote && s[j].kind != Newline then QuoteEnd(s, j + 1) else j
  }

  /** Where the multi-line scan stopped and the text it collected. */
  datatype Scan = Scan(end: nat, text: string)

  /**
   * The multi-line string scan from `j`: inside a line, token values are
   * collected and a newline ends the line with `"\n"`; after a newline the
   * next token must be a quote, which opens the next line, or the scan is
   * abandoned.  A `"*` token or a non-token ends the scan.
   */
  function MlScan(s: seq<Element>, j: nat, inString: bool): (r: Scan)
    requires j <= |s|
    ensures j <= r.end <= |s|
    ensures r.end < |s| && IsTokOf(s[r.end], MultilineStringEnd) ==>
      forall k :: j <= k < r.end ==> s[k].Tok? && s[k].kind != MultilineStringEnd
    decreases |s| - j
  {
    if !(j < |s| && s[j].Tok? && s[j].kind != MultilineStringEnd) then Scan(j, "")
    else if inString then
      if s[j].kind == Newline then
        var r := MlScan(s, j + 1, false); Scan(r.end, "\n" + r.text)
      else
        var r := MlScan(s, j + 1, true); Scan(r.end, s[j].value + r.text)
    else if s[j].kind != Quote then Scan(j, "")
    else MlScan(s, j + 1, true)
  }

  /** The first index from `k` holding a token of one of `kinds`, or the end. */
  function FirstOf(s: seq<Element>, k: nat, kinds: set<TokenKind>): (r: nat)
    ensures r <= |s|
    ensures r < |s| ==> k <= r && s[r].Tok? && s[r].kind in kinds
    ensures forall x :: k <= x < r ==> !(s[x].Tok? && s[x].kind in kinds)
    decreases |s| - k
  {
    if k >= |s| then |s|
    else if s[k].Tok? && s[k].kind in kinds then k
    else FirstOf(s, k + 1, kinds)
  }

  /**
   * The arguments of a call over `s[j..close]`: the first element of each
   * comma-separated slot.  A comma where an argument may start (the first
   * position, or right after a comma) is an error.
   */
  function CollectArgs(s: seq<Element>, j: nat, close: nat, canAdd: bool): Option<seq<Element>>
    requires j <= close <= |s|
    decreases close - j
  {
    if j == close then Some([])
    else if canAdd then
      if IsTokOf(s[j], Comma) then None
      else match CollectArgs(s, j + 1, close, false)
        case None => None
        case Some(rest) => Some([s[j]] + rest)
    else CollectArgs(s, j + 1, close, IsTokOf(s[j], Comma))
  }

  // ---------------------------------------------------------------- rules

  /**
   * The outcome of applying the rule at one index: the new sequence, the
   * index the pass continues at, the error recorded, whether `successful`
   * was cleared and whether `did_something` was set.
   */
  datatype RuleResult = RuleResult(elements: seq<Element>, next: nat, error: Option<ParserError>, clears: bool, progress: bool)

  /**
   * What every rule keeps: it never adds a token, removes one when it makes
   * progress, never lengthens the sequence, shrinks the distance to the end
   * of the pass, keeps the sequence safe, and clears `successful` exactly
   * when it records an error.
   */
  predicate Kept(s: seq<Element>, i: nat, r: RuleResult)
  {
    && TokenCount(r.elements) <= TokenCount(s)
    && (r.progress ==> TokenCount(r.elements) < TokenCount(s))
    && |r.elements| <= |s|
    && |r.elements| + i < |s| + r.next
    && (Safe(s) ==> Safe(r.elements))
    && (r.clears <==> r.error.Some?)
  }

  /** No change, continue at the next index. */
  function Skip(s: seq<Element>, i: nat): RuleResult
  {
    RuleResult(s, i + 1, None, false, false)
  }

  /** Record an error and change nothing. */
  function Fail(s: seq<Element>, i: nat, e: ParserError): RuleResult
  {
    RuleResult(s, i + 1, Some(e), true, false)
  }

  /** The value of the leading decimal digits of `v`: what `std::stoi` reads from a number lexeme. */
  function LeadingInt(v: string): nat
  {
    DigitsValue(v[..DigitPrefix(v)])
  }

  function DigitsValue(d: string): nat
  {
    if d == [] then 0
    else 10 * DigitsValue(d[..|d| - 1]) + (if IsDigit(d[|d| - 1]) then (d[|d| - 1] as int - '0' as int) else 0)
  }

  /** A number token becomes a numeric literal. */
  function NumberRule(s: seq<Element>, i: nat): RuleResult
    requires i < |s| && s[i].Tok?
  {
    RuleResult(Splice(s, i, i + 1, [Literal(s[i].line, s[i].value, NumLit(LeadingInt(s[i].value)))]), i + 1, None, false, true)
  }

  /** A null token becomes a literal of type void. */
  function NullRule(s: seq<Element>, i: nat): RuleResult
    requires i < |s| && s[i].Tok?
  {
    RuleResult(Splice(s, i, i + 1, [Literal(s[i].line, s[i].value, VoidLit)]), i + 1, None, false, true)
  }

  /**
   * A quote: the tokens up to the next quote or newline form a string
   * literal; without a closing quote an error is recorded and the quote is
   * erased together with everything up to and including the terminator.
   */
  function QuoteRule(s: seq<Element>, i: nat): RuleResult
    requires i < |s| && s[i].Tok?
  {
    var e := QuoteEnd(s, i + 1);
    var text := Values(s[i + 1..e]);
    if e < |s| && IsTokOf(s[e], Quote) then
      RuleResult(Splice(s, i, e + 1, [Literal(s[i].line, s[i].value + text + s[e].value, StrLit(text))]), i + 1, None, false, true)
    else
      TokenFirst(s, i, Min(e + 1, |s|));
      RuleResult(Splice(s, i, Min(e + 1, |s|), []), i + 1, Some(ParserError(s[i].line, ExpectedClosingQuote)), true, true)
  }

  /**
   * A multi-line string start: one newline right after it is skipped, then
   * the scan runs; a `"*` ending the scan closes the literal.  Otherwise the
   * error depends on whether a `"*` comes before any further `*"`, and an
   * error element replaces the start.  Neither error sets `did_something`.
   */
  function MultilineRule(s: seq<Element>, i: nat): RuleResult
    requires i < |s| && s[i].Tok?
  {
    var j := if i + 1 < |s| && IsTokOf(s[i + 1], Newline) then i + 2 else i + 1;
    var scan := MlScan(s, j, true);
    var e := scan.end;
    if e < |s| && IsTokOf(s[e], MultilineStringEnd) then
      RuleResult(Splice(s, i, e + 1, [Literal(s[i].line, s[i].value + scan.text + s[e].value, StrLit(scan.text))]), i + 1, None, false, true)
    else
      MultilineFailure(s, i, e)
  }

  /**
   * The line of the element that erasing `s[i + 1..b]` moves to index `e`,
   * which the error element of a failed multi-line string takes; when no
   * element lands there the source reads past the end, and the model takes
   * the line of the string's start.
   */
  function ShiftedLine(s: seq<Element>, i: nat, b: nat, e: nat): int
    requires i < |s| && i < e && b <= |s|
  {
    var m := b + (e - i - 1);
    if m < |s| then s[m].line else s[i].line
  }

  /**
   * The failed multi-line string whose scan stopped at `e`: a `"*` before
   * any further `*"` means a continuation line lacks its quote.
   */
  function MultilineFailure(s: seq<Element>, i: nat, e: nat): RuleResult
    requires i < e <= |s| && s[i].Tok?
  {
    var k := FirstOf(s, e + 1, {MultilineStringEnd, MultilineStringStart});
    var continuation := k < |s| && IsTokOf(s[k], MultilineStringEnd);
    var b := if continuation then k + 1 else Min(e + 1, |s|);
    var line := if e < |s| then s[e].line else s[i].line;
    RuleResult(Splice(s, i, b, [Error(ShiftedLine(s, i, b, e), ErrorText)]), i + 1,
               Some(ParserError(line, if continuation then ContinuationMissing else ExpectedClosingMultiline)), true, false)
  }

  /** A stray `"*` is an error and is erased. */
  function MultilineEndRule(s: seq<Element>, i: nat): RuleResult
    requires i < |s| && s[i].Tok?
  {
    RuleResult(Splice(s, i, i + 1, []), i + 1, Some(ParserError(s[i].line, UnexpectedClosingMultiline)), true, false)
  }

  /** The operator element built once the operands are ready. */
  function BuildOperation(s: seq<Element>, i: nat): RuleResult
    requires i < |s| && s[i].Tok?
    requires s[i].value != "~" ==> 0 < i && IsExpression(s[i - 1])
    requires s[i].value != "@" ==> i + 1 < |s| && IsExpression(s[i + 1])
  {
    var v := s[i].value;
    var start := if v != "~" then i - 1 else i;
    var stop := if v != "@" then i + 2 else i + 1;
    var value := (if v != "~" then s[i - 1].value else "") + v + (if v != "@" then s[i + 1].value else "");
    var op := Operation(s[i].line, value, if v == "" then '\0' else v[0],
                        if v != "~" then Some(s[i - 1]) else None,
                        if v != "@" then Some(s[i + 1]) else None);
    RuleResult(Splice(s, start, stop, [op]), start + 1, None, false, true)
  }

  /**
   * An operator.  Unless it is `~` it needs a ready left operand, unless it
   * is `@` a ready right one; a missing or newline neighbour is an error
   * that erases the operator, a clashing operator neighbour an error that
   * erases the element after it, and an operand not reduced yet defers.
   */
  function OperatorRule(s: seq<Element>, i: nat): RuleResult
    requires i < |s| && s[i].Tok?
  {
    var v := s[i].value;
    var line := s[i].line;
    if v != "~" && i == 0 then
      RuleResult(Splice(s, i, i + 1, []), i + 1, Some(ParserError(line, UnexpectedOperator)), true, false)
    else if v != "~" && IsTokOf(s[i - 1], Newline) then
      RuleResult(Splice(s, i, i + 1, []), i + 1, Some(ParserError(line, OperandBefore(v == "-"))), true, false)
    else if v != "~" && IsTokOf(s[i - 1], Operator) && s[i - 1].value != "@" then
      RuleResult(EraseAt(s, i + 1), i + 1, Some(ParserError(line, LeftClash(s[i - 1].value))), true, false)
    else if v != "~" && !IsExpression(s[i - 1]) then
      Skip(s, i)
    else if v != "@" && i == |s| - 1 then
      RuleResult(Splice(s, i, i + 1, []), i + 1, Some(ParserError(line, EofOperands)), true, false)
    else if v != "@" && IsTokOf(s[i + 1], Newline) then
      RuleResult(Splice(s, i, i + 1, []), i + 1, Some(ParserError(line, OperandAfter)), true, false)
    else if v != "@" && IsTokOf(s[i + 1], Operator) && s[i + 1].value != "~" then
      RuleResult(EraseAt(s, i + 1), i + 1, Some(ParserError(line, RightClash(s[i + 1].value == "-"))), true, false)
    else if v != "@" && !IsExpression(s[i + 1]) then
      Skip(s, i)
    else
      BuildOperation(s, i)
  }

  /**
   * An identifier followed by `(` spans to the first `)` and becomes a call
   * (or, on a misplaced comma, an error element); without a `)` an error
   * is recorded and nothing changes.  Any other identifier becomes a
   * reference.
   */
  function IdentifierRule(s: seq<Element>, i: nat): RuleResult
    requires i < |s| && s[i].Tok?
  {
    var line := s[i].line;
    if i + 1 < |s| && IsTokOf(s[i + 1], BracketOpen) then
      var close := FirstOf(s, i + 2, {BracketClose});
      if close == |s| then
        Fail(s, i, ParserError(line, MissingBracket))
      else
        CallRule(s, i, close)
    else
      RuleResult(Splice(s, i, i + 1, [Ref(line, s[i].value)]), i + 1, None, false, true)
  }

  /**
   * A call spanning `s[i..close + 1]`, `close` holding `)`: its arguments
   * are the heads of the comma-separated slots, or a misplaced comma turns
   * the whole span into an error element.
   */
  function CallRule(s: seq<Element>, i: nat, close: nat): RuleResult
    requires i + 2 <= close < |s| && s[i].Tok?
  {
    match CollectArgs(s, i + 2, close, true)
    case None =>
      RuleResult(Splice(s, i, close + 1, [Error(s[close].line, ErrorText)]), i + 1,
                 Some(ParserError(s[i].line, UnexpectedComma)), true, false)
    case Some(args) =>
      RuleResult(Splice(s, i, close + 1, [Call(s[i].line, s[i].value, args)]), i + 1, None, false, true)
  }

  /**
   * The keyword rule is modelled except at a `static` followed by a `macro`
   * or `func` keyword token: the declaration branches there are not.
   */
  predicate Admissible(s: seq<Element>, i: nat)
  {
    !(i + 1 < |s| && IsStatic(s[i]) && IsMacroOrFunc(s[i + 1]))
  }

  /** `static` must be followed by a keyword token; other keywords are left alone. */
  function KeywordRule(s: seq<Element>, i: nat): RuleResult
    requires i < |s| && s[i].Tok? && Admissible(s, i)
  {
    if s[i].value == "static" && (i == |s| - 1 || !IsTokOf(s[i + 1], Keyword)) then
      Fail(s, i, ParserError(s[i].line, StaticGuard))
    else
      Skip(s, i)
  }

  /** The rule `_parse` applies at index `i`: only token elements are rewritten. */
  function RuleAt(s: seq<Element>, i: nat): RuleResult
    requires i < |s| && Admissible(s, i)
  {
    if !s[i].Tok? then Skip(s, i)
    else
      match s[i].kind
      case Number => NumberRule(s, i)
      case Null => NullRule(s, i)
      case Quote => QuoteRule(s, i)
      case MultilineStringStart => MultilineRule(s, i)
      case MultilineStringEnd => MultilineEndRule(s, i)
      case Operator => OperatorRule(s, i)
      case Identifier => IdentifierRule(s, i)
      case Keyword => KeywordRule(s, i)
      case _ => Skip(s, i)
  }

  // ------------------------------------------------------ what rules keep

  /** A range holding a token somewhere holds at least one. */
  lemma TokenWithin(s: seq<Element>, a: nat, i: nat, b: nat)
    requires a <= i < b <= |s| && s[i].Tok?
    ensures TokenCount(s[a..b]) >= 1
  {
    assert s[a..b] == s[a..i] + s[i..b];
    TokenCountConcat(s[a..i], s[i..b]);
    TokenFirst(s, i, b);
  }

  /** A rewrite of a span around the token at `i` into at most one element. */
  lemma SpliceKept(s: seq<Element>, i: nat, a: nat, b: nat, mid: seq<Element>, r: RuleResult)
    requires a <= i < b <= |s| && s[i].Tok? && NoTokens(mid) && |mid| <= 1
    requires r.elements == Splice(s, a, b, mid) && r.next == a + 1
    requires r.clears <==> r.error.Some?
    ensures Kept(s, i, r)
  {
    SpliceCount(s, a, b, mid);
    TokenWithin(s, a, i, b);
    if Safe(s) {
      SpliceSafe(s, a, b, mid);
    }
  }

  /** An error that erases the element at `k`, or nothing past the end. */
  lemma EraseKept(s: seq<Element>, i: nat, k: nat, r: RuleResult)
    requires r.elements == EraseAt(s, k) && r.next == i + 1 && !r.progress
    requires r.clears <==> r.error.Some?
    ensures Kept(s, i, r)
  {
    if k < |s| {
      SpliceCount(s, k, k + 1, []);
      if Safe(s) {
        SpliceSafe(s, k, k + 1, []);
      }
    }
  }

  lemma QuoteKept(s: seq<Element>, i: nat)
    requires i < |s| && s[i].Tok?
    ensures Kept(s, i, QuoteRule(s, i))
  {
    var e := QuoteEnd(s, i + 1);
    var text := Values(s[i + 1..e]);
    if e < |s| && IsTokOf(s[e], Quote) {
      SpliceKept(s, i, i, e + 1, [Literal(s[i].line, s[i].value + text + s[e].value, StrLit(text))], QuoteRule(s, i));
    } else {
      SpliceKept(s, i, i, Min(e + 1, |s|), [], QuoteRule(s, i));
    }
  }

  lemma MultilineFailureKept(s: seq<Element>, i: nat, e: nat)
    requires i < e <= |s| && s[i].Tok?
    ensures Kept(s, i, MultilineFailure(s, i, e))
  {
    var k := FirstOf(s, e + 1, {MultilineStringEnd, MultilineStringStart});
    var b := if k < |s| && IsTokOf(s[k], MultilineStringEnd) then k + 1 else Min(e + 1, |s|);
    SpliceKept(s, i, i, b, [Error(ShiftedLine(s, i, b, e), ErrorText)], MultilineFailure(s, i, e));
  }

  lemma MultilineKept(s: seq<Element>, i: nat)
    requires i < |s| && s[i].Tok?
    ensures Kept(s, i, MultilineRule(s, i))
  {
    var j := if i + 1 < |s| && IsTokOf(s[i + 1], Newline) then i + 2 else i + 1;
    var scan := MlScan(s, j, true);
    var e := scan.end;
    if e < |s| && IsTokOf(s[e], MultilineStringEnd) {
      SpliceKept(s, i, i, e + 1, [Literal(s[i].line, s[i].value + scan.text + s[e].value, StrLit(scan.text))], MultilineRule(s, i));
    } else {
      MultilineFailureKept(s, i, e);
    }
  }

  lemma BuildKept(s: seq<Element>, i: nat)
    requires i < |s| && s[i].Tok?
    requires s[i].value != "~" ==> 0 < i && IsExpression(s[i - 1])
    requires s[i].value != "@" ==> i + 1 < |s| && IsExpression(s[i + 1])
    ensures Kept(s, i, BuildOperation(s, i))
  {
    var v := s[i].value;
    var start := if v != "~" then i - 1 else i;
    var stop := if v != "@" then i + 2 else i + 1;
    var r := BuildOperation(s, i);
    SpliceKept(s, i, start, stop, r.elements[start..start + 1], r);
  }

  lemma OperatorKept(s: seq<Element>, i: nat)
    requires i < |s| && s[i].Tok?
    ensures Kept(s, i, OperatorRule(s, i))
  {
    var v := s[i].value;
    var r := OperatorRule(s, i);
    if v != "~" && i == 0 {
      SpliceKept(s, i, i, i + 1, [], r);
    } else if v != "~" && IsTokOf(s[i - 1], Newline) {
      SpliceKept(s, i, i, i + 1, [], r);
    } else if v != "~" && IsTokOf(s[i - 1], Operator) && s[i - 1].value != "@" {
      EraseKept(s, i, i + 1, r);
    } else if v != "~" && !IsExpression(s[i - 1]) {
    } else if v != "@" && i == |s| - 1 {
      SpliceKept(s, i, i, i + 1, [], r);
    } else if v != "@" && IsTokOf(s[i + 1], Newline) {
      SpliceKept(s, i, i, i + 1, [], r);
    } else if v != "@" && IsTokOf(s[i + 1], Operator) && s[i + 1].value != "~" {
      EraseKept(s, i, i + 1, r);
    } else if v != "@" && !IsExpression(s[i + 1]) {
    } else {
      BuildKept(s, i);
    }
  }

  lemma CallKept(s: seq<Element>, i: nat, close: nat)
    requires i + 2 <= close < |s| && s[i].Tok?
    ensures Kept(s, i, CallRule(s, i, close))
  {
    var r := CallRule(s, i, close);
    SpliceKept(s, i, i, close + 1, r.elements[i..i + 1], r);
  }

  lemma IdentifierKept(s: seq<Element>, i: nat)
    requires i < |s| && s[i].Tok?
    ensures Kept(s, i, IdentifierRule(s, i))
  {
    if i + 1 < |s| && IsTokOf(s[i + 1], BracketOpen) {
      var close := FirstOf(s, i + 2, {BracketClose});
      if close < |s| {
        CallKept(s, i, close);
      }
    } else {
      SpliceKept(s, i, i, i + 1, [Ref(s[i].line, s[i].value)], IdentifierRule(s, i));
    }
  }

  /** Every rule keeps what the termination of `_parse` rests on. */
  lemma RuleKept(s: seq<Element>, i: nat)
    requires i < |s| && Admissible(s, i)
    ensures Kept(s, i, RuleAt(s, i))
  {
    if s[i].Tok? {
      match s[i].kind
      case Number => SpliceKept(s, i, i, i + 1, [Literal(s[i].line, s[i].value, NumLit(LeadingInt(s[i].value)))], RuleAt(s, i));
      case Null => SpliceKept(s, i, i, i + 1, [Literal(s[i].line, s[i].value, VoidLit)], RuleAt(s, i));
      case Quote => QuoteKept(s, i);
      case MultilineStringStart => MultilineKept(s, i);
      case MultilineStringEnd => SpliceKept(s, i, i, i + 1, [], RuleAt(s, i));
      case Operator => OperatorKept(s, i);
      case Identifier => IdentifierKept(s, i);
      case _ =>
    }
  }

  // --------------------------------------------------------------- passes

  lemma PrefixTrans(a: seq<ParserError>, b: seq<ParserError>, c: seq<ParserError>)
    requires a <= b && b <= c
    ensures a <= c
  {
    assert b[..|a|] == a;
    assert c[..|b|] == b;
    assert c[..|a|] == b[..|a|];
  }

  /** The variables of `_parse`. */
  datatype ParseState = ParseState(elements: seq<Element>, errors: seq<ParserError>, successful: bool, did: bool)

  /** The effect of a rule's outcome on the variables. */
  function Apply(st: ParseState, r: RuleResult): ParseState
  {
    ParseState(r.elements,
               st.errors + (if r.error.Some? then [r.error.value] else []),
               st.successful && !r.clears,
               st.did || r.progress)
  }

  /**
   * The rest of a pass from index `i`.  It never adds a token, removes one
   * if it makes progress, keeps the sequence safe, only appends errors, and
   * leaves `successful` set exactly when it was set and no error was added.
   */
  function PassFrom(st: ParseState, i: nat): (r: ParseState)
    requires Safe(st.elements)
    ensures Safe(r.elements)
    ensures |r.elements| <= |st.elements|
    ensures TokenCount(r.elements) <= TokenCount(st.elements)
    ensures r.did ==> st.did || TokenCount(r.elements) < TokenCount(st.elements)
    ensures st.did ==> r.did
    ensures st.errors <= r.errors
    ensures r.successful == (st.successful && |r.errors| == |st.errors|)
    decreases |st.elements| + 1 - i
  {
    if i >= |st.elements| then st
    else
      assert Admissible(st.elements, i) by {
        if i + 1 < |st.elements| && IsStatic(st.elements[i]) {
          assert !IsMacroOrFunc(st.elements[i + 1]);
        }
      }
      var r := RuleAt(st.elements, i);
      RuleKept(st.elements, i);
      var next := Apply(st, r);
      var res := PassFrom(next, r.next);
      PrefixTrans(st.errors, next.errors, res.errors);
      res
  }

  /** `do { did_something = false; <pass> } while (did_something)`. */
  function Reduce(st: ParseState): (r: ParseState)
    requires Safe(st.elements)
    ensures Safe(r.elements)
    ensures |r.elements| <= |st.elements|
    ensures TokenCount(r.elements) <= TokenCount(st.elements)
    ensures st.errors <= r.errors
    ensures r.successful == (st.successful && |r.errors| == |st.errors|)
    decreases TokenCount(st.elements)
  {
    var p := PassFrom(st.(did := false), 0);
    if p.did then Reduce(p) else p
  }

  /**
   * `_parse` on a sequence of elements: `successful` is reported exactly
   * when no error was recorded, and the result is no longer and holds no
   * more tokens than the input.
   */
  function Parse(s: seq<Element>): (r: ParseResult)
    requires Safe(s)
    ensures r.successful <==> r.errors == []
    ensures |r.elements| <= |s|
    ensures TokenCount(r.elements) <= TokenCount(s)
  {
    var r := Reduce(ParseState(s, [], true, false));
    ParseResult(r.elements, r.errors, r.successful)
  }

  /** Each token wrapped as a token element. */
  function Wrap(tokens: seq<Token>): (s: seq<Element>)
    ensures |s| == |tokens|
    ensures forall k :: 0 <= k < |s| ==> s[k] == Tok(tokens[k].line, tokens[k].value, tokens[k].kind)
  {
    if tokens == [] then []
    else Wrap(tokens[..|tokens| - 1]) + [Tok(tokens[|tokens| - 1].line, tokens[|tokens| - 1].value, tokens[|tokens| - 1].kind)]
  }

  /** `_parse` on the tokens of the lexer. */
  function ParseTokens(tokens: seq<Token>): ParseResult
    requires Safe(Wrap(tokens))
  {
    Parse(Wrap(tokens))
  }
}
