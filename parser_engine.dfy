/**
 * The imperative `_parse` of compiler.c++: the do-while over passes, the
 * index loop of a pass, and the scanning loops of the string, call and
 * multi-line rules, each proved to compute its specification in `Parser`.
 * The element vector is a local sequence that the loops rewrite.
 */
module ParserEngine {
  import opened Wrappers
  import opened Lexer
  import opened Parser

  // -------------------------------------------------------------- scanning

  /** The lookahead loop of the single-line string rule, from `i + 1`. */
  method ScanQuote(s: seq<Element>, i: nat) returns (j: nat, value: string)
    requires i < |s|
    ensures j == QuoteEnd(s, i + 1)
    ensures value == Values(s[i + 1..j])
  {
    j := i + 1;
    value := "";
    while j < |s| && s[j].Tok? && s[j].kind != Quote && s[j].kind != Newline
      invariant i + 1 <= j <= |s|
      invariant QuoteEnd(s, j) == QuoteEnd(s, i + 1)
      invariant value == Values(s[i + 1..j])
      decreases |s| - j
    {
      assert s[i + 1..j + 1][..j - i - 1] == s[i + 1..j];
      value := value + s[j].value;
      j := j + 1;
    }
  }

  /** One step of the multi-line string scan at a token other than `"*`. */
  lemma MlScanUnfold(s: seq<Element>, j: nat, inString: bool)
    requires j < |s| && s[j].Tok? && s[j].kind != MultilineStringEnd
    ensures inString && s[j].kind == Newline ==>
      MlScan(s, j, inString) == Scan(MlScan(s, j + 1, false).end, "\n" + MlScan(s, j + 1, false).text)
    ensures inString && s[j].kind != Newline ==>
      MlScan(s, j, inString) == Scan(MlScan(s, j + 1, true).end, s[j].value + MlScan(s, j + 1, true).text)
    ensures !inString && s[j].kind == Quote ==> MlScan(s, j, inString) == MlScan(s, j + 1, true)
    ensures !inString && s[j].kind != Quote ==> MlScan(s, j, inString) == Scan(j, "")
  {
  }

  /** The scanning loop of the multi-line string rule, from `j0` inside a line. */
  method ScanMultiline(s: seq<Element>, j0: nat) returns (j: nat, value: string)
    requires j0 <= |s|
    ensures Scan(j, value) == MlScan(s, j0, true)
  {
    j := j0;
    value := "";
    var inString := true;
    while j < |s| && s[j].Tok? && s[j].kind != MultilineStringEnd
      invariant j0 <= j <= |s|
      invariant MlScan(s, j0, true) == Scan(MlScan(s, j, inString).end, value + MlScan(s, j, inString).text)
      decreases |s| - j
    {
      MlScanUnfold(s, j, inString);
      if inString {
        if s[j].kind == Newline {
          var rest := MlScan(s, j + 1, false);
          assert value + ("\n" + rest.text) == (value + "\n") + rest.text;
          value := value + "\n";
          inString := false;
        } else {
          var more := MlScan(s, j + 1, true);
          assert value + (s[j].value + more.text) == (value + s[j].value) + more.text;
          value := value + s[j].value;
        }
      } else {
        if s[j].kind != Quote {
          assert value + "" == value;
          break;
        }
        inString := true;
      }
      j := j + 1;
    }
    assert MlScan(s, j, inString).text == "";
  }

  /** The loops that look for the first token of one of `kinds` from `k`. */
  method FindFirst(s: seq<Element>, k: nat, kinds: set<TokenKind>) returns (r: nat)
    ensures r == FirstOf(s, k, kinds)
  {
    r := k;
    if r >= |s| {
      return |s|;
    }
    while r < |s|
      invariant k <= r <= |s|
      invariant FirstOf(s, r, kinds) == FirstOf(s, k, kinds)
      decreases |s| - r
    {
      if s[r].Tok? && s[r].kind in kinds {
        return;
      }
      r := r + 1;
    }
  }

  /** The argument loop of the call rule over `s[i + 2..close]`. */
  method CollectArguments(s: seq<Element>, i: nat, close: nat) returns (args: seq<Element>, error: bool)
    requires i + 2 <= close <= |s|
    ensures (if error then None else Some(args)) == CollectArgs(s, i + 2, close, true)
  {
    args := [];
    error := false;
    var canAdd := true;
    var j := i + 2;
    match CollectArgs(s, j, close, canAdd) {
      case None =>
      case Some(rest) => assert [] + rest == rest;
    }
    while j < close
      invariant i + 2 <= j <= close
      invariant CollectArgs(s, i + 2, close, true)
             == match CollectArgs(s, j, close, canAdd)
                case None => None
                case Some(rest) => Some(args + rest)
      decreases close - j
    {
      if canAdd {
        if IsTokOf(s[j], Comma) {
          error := true;
          assert CollectArgs(s, j, close, canAdd) == None;
          return;
        }
        match CollectArgs(s, j + 1, close, false) {
          case None =>
          case Some(rest) => assert args + ([s[j]] + rest) == (args + [s[j]]) + rest;
        }
        args := args + [s[j]];
        canAdd := false;
      } else if IsTokOf(s[j], Comma) {
        canAdd := true;
      }
      j := j + 1;
    }
    assert args + [] == args;
  }

  /** `for (j = i+1; j <= close; j++) elements.erase(elements.begin()+i);` */
  method EraseSpan(s: seq<Element>, i: nat, close: nat) returns (t: seq<Element>)
    requires i <= close < |s|
    ensures t == s[..i] + s[close..]
  {
    t := s;
    var j := i + 1;
    while j <= close
      invariant i + 1 <= j <= close + 1
      invariant t == s[..i] + s[j - 1..]
      decreases close + 1 - j
    {
      assert (s[..i] + s[j - 1..])[..i] + (s[..i] + s[j - 1..])[i + 1..] == s[..i] + s[j..];
      t := t[..i] + t[i + 1..];
      j := j + 1;
    }
  }

  // ----------------------------------------------------------------- rules

  /** `elements[i] = x; elements.erase(begin()+i+1, begin()+b)`. */
  lemma ReplaceThenErase(s: seq<Element>, i: nat, x: Element, b: nat)
    requires i < b <= |s|
    ensures s[i := x][..i + 1] + s[i := x][b..] == s[..i] + [x] + s[b..]
  {
    assert s[i := x][..i + 1] == s[..i] + [x];
  }

  /** Erasing `s[i..b-1]` and then setting `elements[i] = x`. */
  lemma EraseThenReplace(s: seq<Element>, i: nat, x: Element, b: nat)
    requires i < b <= |s|
    ensures (s[..i] + s[b - 1..])[i := x] == s[..i] + [x] + s[b..]
  {
    assert s[b - 1..] == [s[b - 1]] + s[b..];
  }

  /** The single-line string case of the switch. */
  method ReduceQuote(s: seq<Element>, i: nat) returns (t: seq<Element>, error: Option<ParserError>, progress: bool)
    requires i < |s| && s[i].Tok?
    ensures RuleResult(t, i + 1, error, error.Some?, progress) == QuoteRule(s, i)
  {
    var j, value := ScanQuote(s, i);
    progress := true;
    if !(j < |s| && IsTokOf(s[j], Quote)) {
      error := Some(ParserError(s[i].line, ExpectedClosingQuote));
      t := s[..i] + s[Min(j + 1, |s|)..];
      assert t == s[..i] + [] + s[Min(j + 1, |s|)..];
      assert t == Splice(s, i, Min(j + 1, |s|), []);
    } else {
      var element := Literal(s[i].line, s[i].value + value + s[j].value, StrLit(value));
      t := s[i := element];
      t := t[..i + 1] + t[j + 1..];
      ReplaceThenErase(s, i, element, j + 1);
      assert t == Splice(s, i, j + 1, [element]);
      error := None;
    }
  }

  /** Erasing `s[i + 1..b]` and then setting `elements[i] = x`. */
  lemma EraseAfterThenReplace(s: seq<Element>, i: nat, x: Element, b: nat)
    requires i < b <= |s|
    ensures (s[..i + 1] + s[b..])[i := x] == s[..i] + [x] + s[b..]
  {
    assert s[..i + 1] == s[..i] + [s[i]];
  }

  /** The element at `j` after erasing `s[i + 1..b]`. */
  lemma ShiftedLineAt(s: seq<Element>, i: nat, b: nat, j: nat)
    requires i < j && i < b <= |s|
    ensures var t := s[..i + 1] + s[b..];
      (if j < |t| then t[j].line else s[i].line) == ShiftedLine(s, i, b, j)
  {
  }

  /**
   * The error branch of the multi-line string case, the scan having stopped
   * at `j`: the span is erased first, and the error element then takes the
   * line of the element now at `j`.
   */
  method FailMultiline(s: seq<Element>, i: nat, j: nat) returns (t: seq<Element>, error: Option<ParserError>)
    requires i < j <= |s| && s[i].Tok?
    ensures RuleResult(t, i + 1, error, true, false) == MultilineFailure(s, i, j)
  {
    var k := FindFirst(s, j + 1, {MultilineStringEnd, MultilineStringStart});
    var line := if j < |s| then s[j].line else s[i].line;
    // the two branches of the source differ in the message and in where the erasure ends
    var unclosed := k == |s| || !IsTokOf(s[k], MultilineStringEnd);
    error := Some(ParserError(line, if unclosed then ExpectedClosingMultiline else ContinuationMissing));
    var b := if unclosed then Min(j + 1, |s|) else k + 1;
    t := s[..i + 1] + s[b..];
    ShiftedLineAt(s, i, b, j);
    var placeholder := Error(if j < |t| then t[j].line else s[i].line, ErrorText);
    EraseAfterThenReplace(s, i, placeholder, b);
    t := t[i := placeholder];
    assert t == Splice(s, i, b, [placeholder]);
  }

  /** The multi-line string case of the switch. */
  method ReduceMultiline(s: seq<Element>, i: nat) returns (t: seq<Element>, error: Option<ParserError>, progress: bool)
    requires i < |s| && s[i].Tok?
    ensures RuleResult(t, i + 1, error, error.Some?, progress) == MultilineRule(s, i)
  {
    var j := i + 1;
    if j < |s| && IsTokOf(s[j], Newline) {
      j := j + 1;
    }
    ghost var scan := MlScan(s, j, true);
    var value;
    j, value := ScanMultiline(s, j);
    assert j == scan.end && value == scan.text;
    if !(j < |s| && IsTokOf(s[j], MultilineStringEnd)) {
      t, error := FailMultiline(s, i, j);
      progress := false;
    } else {
      var element := Literal(s[i].line, s[i].value + value + s[j].value, StrLit(value));
      t := s[i := element];
      t := t[..i + 1] + t[j + 1..];
      ReplaceThenErase(s, i, element, j + 1);
      assert t == Splice(s, i, j + 1, [element]);
      error, progress := None, true;
    }
  }

  /** Erasing the element after `s[i]` once the elements `s[start..i]` are gone. */
  lemma EraseRight(s: seq<Element>, start: nat, i: nat)
    requires start <= i && i + 2 <= |s|
    ensures (s[..start] + s[i..])[..start + 1] + (s[..start] + s[i..])[start + 2..] == s[..start] + [s[i]] + s[i + 2..]
  {
    assert (s[..start] + s[i..])[..start + 1] == s[..start] + [s[i]];
    assert (s[..start] + s[i..])[start + 2..] == s[i + 2..];
  }

  /** Setting the element between two unchanged parts. */
  lemma ReplaceMiddle(p: seq<Element>, x: Element, y: Element, q: seq<Element>)
    ensures (p + [x] + q)[|p| := y] == p + [y] + q
  {
  }

  /**
   * The erasures of a ready operator's operands: the left one first (the
   * index steps back onto the operator), then the right one.
   */
  method EraseOperands(s: seq<Element>, i: nat) returns (t: seq<Element>, at: nat)
    requires i < |s|
    requires s[i].value != "~" ==> 0 < i
    requires s[i].value != "@" ==> i + 1 < |s|
    ensures at == (if s[i].value != "~" then i - 1 else i)
    ensures t == s[..at] + [s[i]] + s[(if s[i].value != "@" then i + 2 else i + 1)..]
  {
    var v := s[i].value;
    ghost var start := if v != "~" then i - 1 else i;
    t, at := s, i;
    if v != "~" {
      t := t[..at - 1] + t[at..];
      at := at - 1;
    } else {
      assert t == s[..i] + s[i..];
    }
    assert t == s[..start] + s[i..] && at == start;
    if v != "@" {
      EraseRight(s, start, i);
      t := t[..at + 1] + t[at + 2..];
    } else {
      assert s[i..] == [s[i]] + s[i + 1..];
      assert s[..start] + ([s[i]] + s[i + 1..]) == s[..start] + [s[i]] + s[i + 1..];
    }
  }

  /** The operator element replacing the operator and its operands. */
  method BuildOperator(s: seq<Element>, i: nat) returns (t: seq<Element>, at: nat)
    requires i < |s| && s[i].Tok?
    requires s[i].value != "~" ==> 0 < i && IsExpression(s[i - 1])
    requires s[i].value != "@" ==> i + 1 < |s| && IsExpression(s[i + 1])
    ensures RuleResult(t, at + 1, None, false, true) == BuildOperation(s, i)
  {
    var v := s[i].value;
    var left: Option<Element> := if v != "~" then Some(s[i - 1]) else None;
    var right: Option<Element> := if v != "@" then Some(s[i + 1]) else None;
    var value := (if v != "~" then s[i - 1].value else "") + v + (if v != "@" then s[i + 1].value else "");
    var element := Operation(s[i].line, value, if v == "" then '\0' else v[0], left, right);
    t, at := EraseOperands(s, i);
    ghost var stop := if v != "@" then i + 2 else i + 1;
    ReplaceMiddle(s[..at], s[i], element, s[stop..]);
    t := t[at := element];
  }

  /** The operator case of the switch; `at` is the index after the `i--` fix-up. */
  method ReduceOperator(s: seq<Element>, i: nat) returns (t: seq<Element>, at: nat, error: Option<ParserError>, progress: bool)
    requires i < |s| && s[i].Tok?
    ensures RuleResult(t, at + 1, error, error.Some?, progress) == OperatorRule(s, i)
  {
    t, at, error, progress := s, i, None, false;
    var v := s[i].value;
    var line := s[i].line;
    if v != "~" {
      if i == 0 {
        error := Some(ParserError(line, UnexpectedOperator));
        t := s[..i] + s[i + 1..];
        assert t == s[..i] + [] + s[i + 1..];
        assert t == Splice(s, i, i + 1, []);
        return;
      }
      if s[i - 1].Tok? {
        if s[i - 1].kind == Newline {
          error := Some(ParserError(line, OperandBefore(v == "-")));
          t := s[..i] + s[i + 1..];
          assert t == s[..i] + [] + s[i + 1..];
          assert t == Splice(s, i, i + 1, []);
          return;
        }
        if s[i - 1].kind == Operator && s[i - 1].value != "@" {
          error := Some(ParserError(line, LeftClash(s[i - 1].value)));
          if i + 1 < |s| {
            t := s[..i + 1] + s[i + 2..];
            assert t == s[..i + 1] + [] + s[i + 2..];
            assert t == Splice(s, i + 1, i + 2, []);
          }
          return;
        }
      }
      if !IsExpression(s[i - 1]) {
        return;
      }
    }
    if v != "@" {
      if i == |s| - 1 {
        error := Some(ParserError(line, EofOperands));
        t := s[..i] + s[i + 1..];
        assert t == s[..i] + [] + s[i + 1..];
        assert t == Splice(s, i, i + 1, []);
        return;
      }
      if s[i + 1].Tok? {
        if s[i + 1].kind == Newline {
          error := Some(ParserError(line, OperandAfter));
          t := s[..i] + s[i + 1..];
          assert t == s[..i] + [] + s[i + 1..];
          assert t == Splice(s, i, i + 1, []);
          return;
        }
        if s[i + 1].kind == Operator && s[i + 1].value != "~" {
          error := Some(ParserError(line, RightClash(s[i + 1].value == "-")));
          t := s[..i + 1] + s[i + 2..];
          assert t == s[..i + 1] + [] + s[i + 2..];
          assert t == Splice(s, i + 1, i + 2, []);
          return;
        }
      }
      if !IsExpression(s[i + 1]) {
        return;
      }
    }
    t, at := BuildOperator(s, i);
    progress := true;
  }

  /** The call branch of the identifier case, `close` holding the first `)`. */
  method ReduceCall(s: seq<Element>, i: nat, close: nat) returns (t: seq<Element>, error: Option<ParserError>, progress: bool)
    requires i + 2 <= close < |s| && s[i].Tok?
    ensures RuleResult(t, i + 1, error, error.Some?, progress) == CallRule(s, i, close)
  {
    var args, argError := CollectArguments(s, i, close);
    t := EraseSpan(s, i, close);
    if argError {
      var errorElement := Error(t[i].line, ErrorText);
      t := t[i := errorElement];
      EraseThenReplace(s, i, errorElement, close + 1);
      assert t == Splice(s, i, close + 1, [errorElement]);
      error, progress := Some(ParserError(s[i].line, UnexpectedComma)), false;
    } else {
      var element := Call(s[i].line, s[i].value, args);
      t := t[i := element];
      EraseThenReplace(s, i, element, close + 1);
      assert t == Splice(s, i, close + 1, [element]);
      error, progress := None, true;
    }
  }

  /** The identifier case of the switch. */
  method ReduceIdentifier(s: seq<Element>, i: nat) returns (t: seq<Element>, error: Option<ParserError>, progress: bool)
    requires i < |s| && s[i].Tok?
    ensures RuleResult(t, i + 1, error, error.Some?, progress) == IdentifierRule(s, i)
  {
    if i + 1 < |s| && IsTokOf(s[i + 1], BracketOpen) {
      var close := FindFirst(s, i + 2, {BracketClose});
      if close == |s| {
        t, error, progress := s, Some(ParserError(s[i].line, MissingBracket)), false;
      } else {
        t, error, progress := ReduceCall(s, i, close);
      }
    } else {
      var element := Ref(s[i].line, s[i].value);
      t := s[i := element];
      EraseThenReplace(s, i, element, i + 1);
      assert t == Splice(s, i, i + 1, [element]);
      error, progress := None, true;
    }
  }

  /** The body of the index loop at `i`: the switch on the token kind. */
  method ApplyRule(s: seq<Element>, i: nat) returns (t: seq<Element>, at: nat, error: Option<ParserError>, clears: bool, progress: bool)
    requires i < |s| && Admissible(s, i)
    ensures RuleResult(t, at + 1, error, clears, progress) == RuleAt(s, i)
  {
    t, at, error, clears, progress := s, i, None, false, false;
    if !s[i].Tok? {
      return;
    }
    match s[i].kind {
      case Number =>
        var element := Literal(s[i].line, s[i].value, NumLit(LeadingInt(s[i].value)));
        t := s[i := element];
        assert t == s[..i] + [element] + s[i + 1..];
        assert t == Splice(s, i, i + 1, [element]);
        progress := true;
      case Null =>
        var element := Literal(s[i].line, s[i].value, VoidLit);
        t := s[i := element];
        assert t == s[..i] + [element] + s[i + 1..];
        assert t == Splice(s, i, i + 1, [element]);
        progress := true;
      case Quote =>
        t, error, progress := ReduceQuote(s, i);
        clears := error.Some?;
      case MultilineStringStart =>
        t, error, progress := ReduceMultiline(s, i);
        clears := error.Some?;
      case MultilineStringEnd =>
        error := Some(ParserError(s[i].line, UnexpectedClosingMultiline));
        clears := true;
        t := s[..i] + s[i + 1..];
        assert t == s[..i] + [] + s[i + 1..];
        assert t == Splice(s, i, i + 1, []);
      case Operator =>
        t, at, error, progress := ReduceOperator(s, i);
        clears := error.Some?;
      case Identifier =>
        t, error, progress := ReduceIdentifier(s, i);
        clears := error.Some?;
      case Keyword =>
        if s[i].value == "static" && (i == |s| - 1 || !IsTokOf(s[i + 1], Keyword)) {
          error := Some(ParserError(s[i].line, StaticGuard));
          clears := true;
        }
      case _ =>
    }
  }

  // ---------------------------------------------------------------- passes

  lemma PassUnfold(st: ParseState, i: nat)
    requires Safe(st.elements) && i < |st.elements|
    ensures Admissible(st.elements, i)
    ensures Kept(st.elements, i, RuleAt(st.elements, i))
    ensures PassFrom(st, i) == PassFrom(Apply(st, RuleAt(st.elements, i)), RuleAt(st.elements, i).next)
  {
    if i + 1 < |st.elements| && IsStatic(st.elements[i]) {
      assert !IsMacroOrFunc(st.elements[i + 1]);
    }
    RuleKept(st.elements, i);
  }

  /** One iteration of the index loop: the rule at `i`, its error and flags recorded. */
  method StepAt(elements0: seq<Element>, errors0: seq<ParserError>, successful0: bool, did0: bool, i0: nat)
    returns (elements: seq<Element>, errors: seq<ParserError>, successful: bool, didSomething: bool, i: nat)
    requires i0 < |elements0| && Admissible(elements0, i0)
    ensures ParseState(elements, errors, successful, didSomething)
         == Apply(ParseState(elements0, errors0, successful0, did0), RuleAt(elements0, i0))
    ensures i == RuleAt(elements0, i0).next
  {
    errors, successful, didSomething := errors0, successful0, did0;
    var error: Option<ParserError>;
    var clears, progress;
    elements, i, error, clears, progress := ApplyRule(elements0, i0);
    if error.Some? {
      errors := errors + [error.value];
    } else {
      assert errors + [] == errors;
    }
    if clears {
      successful := false;
    }
    if progress {
      didSomething := true;
    }
    i := i + 1;
  }

  /** One pass of the `for` loop over the elements, `did_something` cleared first. */
  method RunPass(elements0: seq<Element>, errors0: seq<ParserError>, successful0: bool)
    returns (elements: seq<Element>, errors: seq<ParserError>, successful: bool, didSomething: bool)
    requires Safe(elements0)
    ensures ParseState(elements, errors, successful, didSomething) == PassFrom(ParseState(elements0, errors0, successful0, false), 0)
  {
    elements, errors, successful, didSomething := elements0, errors0, successful0, false;
    ghost var pass := PassFrom(ParseState(elements0, errors0, successful0, false), 0);
    var i: nat := 0;
    while i < |elements|
      invariant Safe(elements)
      invariant PassFrom(ParseState(elements, errors, successful, didSomething), i) == pass
      decreases |elements| + 1 - i
    {
      PassUnfold(ParseState(elements, errors, successful, didSomething), i);
      elements, errors, successful, didSomething, i := StepAt(elements, errors, successful, didSomething, i);
    }
  }

  /** `_parse(std::vector<Element>)`: passes repeat while one made progress. */
  method ParseElements(input: seq<Element>) returns (result: ParseResult)
    requires Safe(input)
    ensures result == Parse(input)
  {
    var elements := input;
    var errors: seq<ParserError> := [];
    var successful := true;
    var didSomething := false;
    ghost var final := Reduce(ParseState(input, [], true, false));
    var first := true;
    while first || didSomething
      invariant Safe(elements)
      invariant first ==> elements == input && errors == [] && successful
      invariant first || didSomething ==> Reduce(ParseState(elements, errors, successful, false)) == final
      invariant !(first || didSomething) ==> ParseState(elements, errors, successful, didSomething) == final
      decreases if first || didSomething then TokenCount(elements) + 1 else 0
    {
      first := false;
      elements, errors, successful, didSomething := RunPass(elements, errors, successful);
    }
    result := ParseResult(elements, errors, successful);
  }

  /** The wrapping loop of `_parse(std::vector<Lexer::Token>)`. */
  method WrapTokens(tokens: seq<Token>) returns (elements: seq<Element>)
    ensures elements == Wrap(tokens)
  {
    elements := [];
    var i := 0;
    while i < |tokens|
      invariant 0 <= i <= |tokens|
      invariant elements == Wrap(tokens[..i])
      decreases |tokens| - i
    {
      assert tokens[..i + 1][..i] == tokens[..i];
      elements := elements + [Tok(tokens[i].line, tokens[i].value, tokens[i].kind)];
      i := i + 1;
    }
    assert tokens[..i] == tokens;
  }

  /** `_parse(std::vector<Lexer::Token>)`. */
  method ParseTokenStream(tokens: seq<Token>) returns (result: ParseResult)
    requires Safe(Wrap(tokens))
    ensures result == ParseTokens(tokens)
  {
    var elements := WrapTokens(tokens);
    result := ParseElements(elements);
  }
}
