/**
 * What the rules of `_parse` in compiler.c++ promise, stated against the
 * functions of `Parser` with independent characterisations: which element
 * a rule builds, which error it records and what it erases.
 */
module ParserProperties {
  import opened Wrappers
  import opened Lexer
  import opened Parser

  // --------------------------------------------------------------- numbers

  /** The leading integer of `d + rest` is the value of `d` when `rest` does not start with a digit. */
  lemma LeadingIntOf(d: string, rest: string)
    requires forall k :: 0 <= k < |d| ==> IsDigit(d[k])
    requires rest == [] || !IsDigit(rest[0])
    ensures LeadingInt(d + rest) == DigitsValue(d)
  {
    var w := d + rest;
    assert forall k :: 0 <= k < |d| ==> w[k] == d[k];
    if rest != [] {
      assert w[|d|] == rest[0];
    }
    assert DigitPrefix(w) == |d|;
    assert w[..|d|] == d;
  }

  /** A number token becomes a numeric literal of its integer digits, in place. */
  lemma NumberLiteral(s: seq<Element>, i: nat, d: string, rest: string)
    requires i < |s| && IsTokOf(s[i], Number) && s[i].value == d + rest
    requires forall k :: 0 <= k < |d| ==> IsDigit(d[k])
    requires rest == [] || rest[0] == '.'
    ensures RuleAt(s, i)
         == RuleResult(s[..i] + [Literal(s[i].line, s[i].value, NumLit(DigitsValue(d)))] + s[i + 1..], i + 1, None, false, true)
  {
    LeadingIntOf(d, rest);
  }

  /** A null token becomes a void literal, in place. */
  lemma NullLiteral(s: seq<Element>, i: nat)
    requires i < |s| && IsTokOf(s[i], Null)
    ensures RuleAt(s, i) == RuleResult(s[..i] + [Literal(s[i].line, s[i].value, VoidLit)] + s[i + 1..], i + 1, None, false, true)
  {
  }

  /** A `"*` with no string open is an error, and is erased. */
  lemma StrayMultilineEnd(s: seq<Element>, i: nat)
    requires i < |s| && IsTokOf(s[i], MultilineStringEnd)
    ensures RuleAt(s, i) == RuleResult(s[..i] + s[i + 1..], i + 1, Some(ParserError(s[i].line, UnexpectedClosingMultiline)), true, false)
  {
    assert s[..i] + [] + s[i + 1..] == s[..i] + s[i + 1..];
  }

  /** Elements that are not tokens, and tokens of the kinds the switch has no case for, are left alone. */
  lemma Untouched(s: seq<Element>, i: nat)
    requires i < |s|
    requires !s[i].Tok? || s[i].kind in {Type, Newline, SqBracketOpen, SqBracketClose, BracketOpen, BracketClose, Comma, Unknown}
    ensures RuleAt(s, i) == RuleResult(s, i + 1, None, false, false)
  {
  }

  // ------------------------------------------------------ single-line strings

  lemma ValuesCons(x: Element, t: seq<Element>)
    ensures Values([x] + t) == x.value + Values(t)
    decreases |t|
  {
    if t != [] {
      assert ([x] + t)[..|[x] + t| - 1] == [x] + t[..|t| - 1];
      ValuesCons(x, t[..|t| - 1]);
    } else {
      assert [x] + t == [x];
      assert [x][..0] == [];
    }
  }

  /** The tokens a string literal may span: anything but a quote or a newline. */
  predicate StringBody(s: seq<Element>, a: nat, b: nat)
    requires a <= b <= |s|
  {
    forall k :: a <= k < b ==> s[k].Tok? && s[k].kind != Quote && s[k].kind != Newline
  }

  /**
   * A quote closed on its line becomes a string literal whose text is the
   * values of the tokens in between and whose value keeps both quotes.
   */
  lemma QuoteClosed(s: seq<Element>, i: nat, e: nat)
    requires i < e < |s| && IsTokOf(s[i], Quote) && IsTokOf(s[e], Quote)
    requires StringBody(s, i + 1, e)
    ensures var text := Values(s[i + 1..e]);
      QuoteRule(s, i)
      == RuleResult(s[..i] + [Literal(s[i].line, s[i].value + text + s[e].value, StrLit(text))] + s[e + 1..],
                    i + 1, None, false, true)
  {
    assert QuoteEnd(s, i + 1) == e;
  }

  /**
   * A quote whose line ends first (a newline or an element that is not a
   * token): an error at the quote's line, and the quote, the text and the
   * element that ended it are erased.
   */
  lemma QuoteUnclosed(s: seq<Element>, i: nat, e: nat)
    requires i < e < |s| && IsTokOf(s[i], Quote)
    requires StringBody(s, i + 1, e) && (!s[e].Tok? || s[e].kind == Newline)
    ensures QuoteRule(s, i)
         == RuleResult(s[..i] + s[e + 1..], i + 1, Some(ParserError(s[i].line, ExpectedClosingQuote)), true, true)
  {
    assert QuoteEnd(s, i + 1) == e;
  }

  /** A quote whose string runs to the end of the input: everything from the quote on is erased. */
  lemma QuoteAtEnd(s: seq<Element>, i: nat)
    requires i < |s| && IsTokOf(s[i], Quote) && StringBody(s, i + 1, |s|)
    ensures QuoteRule(s, i)
         == RuleResult(s[..i], i + 1, Some(ParserError(s[i].line, ExpectedClosingQuote)), true, true)
  {
    assert QuoteEnd(s, i + 1) == |s|;
    assert s[..i] + [] + s[|s|..] == s[..i];
  }

  // ------------------------------------------------------- multi-line strings

  /** The tokens a line of a multi-line string may hold. */
  predicate LineBody(s: seq<Element>, a: nat, b: nat)
    requires a <= b <= |s|
  {
    forall k :: a <= k < b ==> s[k].Tok? && s[k].kind != Newline && s[k].kind != MultilineStringEnd
  }

  /** A closed line of a multi-line string collects its token values. */
  lemma {:induction false} MlScanLine(s: seq<Element>, j: nat, e: nat)
    requires j <= e < |s| && LineBody(s, j, e) && IsTokOf(s[e], MultilineStringEnd)
    ensures MlScan(s, j, true) == Scan(e, Values(s[j..e]))
    decreases e - j
  {
    if j < e {
      MlScanLine(s, j + 1, e);
      assert s[j..e] == [s[j]] + s[j + 1..e];
      ValuesCons(s[j], s[j + 1..e]);
    } else {
      assert s[j..e] == [];
    }
  }

  /**
   * A continuation line: after a newline the next line must open with a
   * quote, which is dropped, and the newline contributes `"\n"`.
   */
  lemma MlScanContinuation(s: seq<Element>, j: nat)
    requires j + 1 < |s| && IsTokOf(s[j], Newline) && IsTokOf(s[j + 1], Quote)
    ensures MlScan(s, j, true) == Scan(MlScan(s, j + 2, true).end, "\n" + MlScan(s, j + 2, true).text)
  {
  }

  /** After a newline, anything but a quote abandons the scan. */
  lemma MlScanAbandoned(s: seq<Element>, j: nat)
    requires j + 1 < |s| && IsTokOf(s[j], Newline) && !IsTokOf(s[j + 1], Quote)
    ensures MlScan(s, j, true) == Scan(j + 1, "\n")
  {
    assert MlScan(s, j + 1, false) == Scan(j + 1, "");
  }

  /**
   * A one-line multi-line string `*" ... "*` becomes a string literal of
   * the values in between.
   */
  lemma MultilineOneLine(s: seq<Element>, i: nat, e: nat)
    requires i < e < |s| && IsTokOf(s[i], MultilineStringStart) && IsTokOf(s[e], MultilineStringEnd)
    requires LineBody(s, i + 1, e)
    ensures var text := Values(s[i + 1..e]);
      MultilineRule(s, i)
      == RuleResult(s[..i] + [Literal(s[i].line, s[i].value + text + s[e].value, StrLit(text))] + s[e + 1..],
                    i + 1, None, false, true)
  {
    if i + 1 < e {
      assert !IsTokOf(s[i + 1], Newline);
    }
    MlScanLine(s, i + 1, e);
  }

  /**
   * A multi-line string whose scan stops at a `*"` before any `"*`, or at
   * the end, is an error that replaces it, up to where the scan stopped,
   * with one error element; neither error counts as progress.
   */
  lemma MultilineUnclosed(s: seq<Element>, i: nat)
    requires i < |s| && IsTokOf(s[i], MultilineStringStart)
    requires var e := MultilineRule(s, i); e.error.Some?
    ensures var r := MultilineRule(s, i); var e := MultilineStop(s, i);
      && !r.progress && r.next == i + 1 && r.clears
      && |r.elements| <= |s|
      && r.elements[i].Error?
      && r.elements[..i] == s[..i]
      && !(e < |s| && IsTokOf(s[e], MultilineStringEnd))
      && r.error.value.line == (if e < |s| then s[e].line else s[i].line)
      && (r.error.value.kind == ContinuationMissing || r.error.value.kind == ExpectedClosingMultiline)
  {
  }

  /** Where the scan of the multi-line string starting at `i` stops (one newline after the start is skipped). */
  function MultilineStop(s: seq<Element>, i: nat): (e: nat)
    requires i < |s|
    ensures i < e <= |s|
  {
    MlScan(s, if i + 1 < |s| && IsTokOf(s[i + 1], Newline) then i + 2 else i + 1, true).end
  }

  /**
   * An unclosed multi-line string followed, past its stop `e`, by a `"*`
   * with no `*"` or `"*` in between lacks a continuation quote: the error
   * is at the stop's line, and the start, the scanned lines and everything
   * through that `"*` become one error element.
   */
  lemma MultilineContinuationMissing(s: seq<Element>, i: nat, k: nat)
    requires i < |s| && IsTokOf(s[i], MultilineStringStart)
    requires var e := MultilineStop(s, i); e < |s| && !IsTokOf(s[e], MultilineStringEnd)
    requires MultilineStop(s, i) < k < |s| && IsTokOf(s[k], MultilineStringEnd)
    requires forall m :: MultilineStop(s, i) < m < k ==> !IsTokOf(s[m], MultilineStringEnd) && !IsTokOf(s[m], MultilineStringStart)
    ensures var e := MultilineStop(s, i);
      MultilineRule(s, i)
      == RuleResult(s[..i] + [Error(ShiftedLine(s, i, k + 1, e), ErrorText)] + s[k + 1..], i + 1,
                    Some(ParserError(s[e].line, ContinuationMissing)), true, false)
  {
    var e := MultilineStop(s, i);
    var f := FirstOf(s, e + 1, {MultilineStringEnd, MultilineStringStart});
    assert f == k;
  }

  /**
   * An unclosed multi-line string after whose stop `e` every `"*` has a
   * `*"` before it expects a closing `"*`: the error is at the stop's line
   * (the start's, at the end of input), and the start through the stop
   * become one error element.
   */
  lemma MultilineExpectedClosing(s: seq<Element>, i: nat)
    requires i < |s| && IsTokOf(s[i], MultilineStringStart)
    requires var e := MultilineStop(s, i); !(e < |s| && IsTokOf(s[e], MultilineStringEnd))
    requires forall k :: MultilineStop(s, i) < k < |s| && IsTokOf(s[k], MultilineStringEnd) ==>
                exists m :: MultilineStop(s, i) < m < k && IsTokOf(s[m], MultilineStringStart)
    ensures var e := MultilineStop(s, i); var b := Min(e + 1, |s|);
      MultilineRule(s, i)
      == RuleResult(s[..i] + [Error(ShiftedLine(s, i, b, e), ErrorText)] + s[b..], i + 1,
                    Some(ParserError(if e < |s| then s[e].line else s[i].line, ExpectedClosingMultiline)), true, false)
  {
    var e := MultilineStop(s, i);
    var f := FirstOf(s, e + 1, {MultilineStringEnd, MultilineStringStart});
    if f < |s| && IsTokOf(s[f], MultilineStringEnd) {
      assert false;
    }
  }

  // ------------------------------------------------------------- operators

  /**
   * A binary operator with ready operands on both sides becomes an
   * operation holding both, valued as the three values concatenated; the
   * pass continues after it, at the index the left operand had.
   */
  lemma BinaryOperator(s: seq<Element>, i: nat)
    requires 0 < i && i + 1 < |s| && IsTokOf(s[i], Operator)
    requires s[i].value != "~" && s[i].value != "@" && s[i].value != ""
    requires IsExpression(s[i - 1]) && IsExpression(s[i + 1])
    ensures var v := s[i].value;
      OperatorRule(s, i)
      == RuleResult(s[..i - 1] + [Operation(s[i].line, s[i - 1].value + v + s[i + 1].value, v[0], Some(s[i - 1]), Some(s[i + 1]))] + s[i + 2..],
                    i, None, false, true)
  {
  }

  /** The prefix `~` takes only a right operand. */
  lemma PrefixTilde(s: seq<Element>, i: nat)
    requires i + 1 < |s| && IsTokOf(s[i], Operator) && s[i].value == "~" && IsExpression(s[i + 1])
    ensures OperatorRule(s, i)
         == RuleResult(s[..i] + [Operation(s[i].line, "~" + s[i + 1].value, '~', None, Some(s[i + 1]))] + s[i + 2..],
                       i + 1, None, false, true)
  {
    assert "" + "~" == "~";
  }

  /** The postfix `@` takes only a left operand, and may end the input. */
  lemma PostfixAt(s: seq<Element>, i: nat)
    requires 0 < i < |s| && IsTokOf(s[i], Operator) && s[i].value == "@" && IsExpression(s[i - 1])
    ensures OperatorRule(s, i)
         == RuleResult(s[..i - 1] + [Operation(s[i].line, s[i - 1].value + "@", '@', Some(s[i - 1]), None)] + s[i + 1..],
                       i, None, false, true)
  {
    assert s[i - 1].value + "@" + "" == s[i - 1].value + "@";
  }

  /**
   * A left operand that is neither ready nor an error case (a token other
   * than a newline or a clashing operator, or an error element) defers the
   * operator to a later pass: nothing changes and nothing is recorded.
   */
  lemma LeftOperandDefers(s: seq<Element>, i: nat)
    requires 0 < i < |s| && IsTokOf(s[i], Operator) && s[i].value != "~"
    requires !IsExpression(s[i - 1]) && !IsTokOf(s[i - 1], Newline)
    requires !(IsTokOf(s[i - 1], Operator) && s[i - 1].value != "@")
    ensures OperatorRule(s, i) == RuleResult(s, i + 1, None, false, false)
  {
  }

  /** The same for the right operand, once the left one (if needed) is ready. */
  lemma RightOperandDefers(s: seq<Element>, i: nat)
    requires i + 1 < |s| && IsTokOf(s[i], Operator) && s[i].value != "@"
    requires s[i].value != "~" ==> 0 < i && IsExpression(s[i - 1])
    requires !IsExpression(s[i + 1]) && !IsTokOf(s[i + 1], Newline)
    requires !(IsTokOf(s[i + 1], Operator) && s[i + 1].value != "~")
    ensures OperatorRule(s, i) == RuleResult(s, i + 1, None, false, false)
  {
  }

  /**
   * A newline beside an operator is a missing operand, and the operator is
   * erased: before it (unless it is `~`), with the `~` hint for a `-`; after
   * it (unless it is `@`), once the left operand is ready.
   */
  lemma OperatorNewlineNeighbour(s: seq<Element>, i: nat)
    requires i < |s| && IsTokOf(s[i], Operator)
    ensures var v := s[i].value;
      v != "~" && 0 < i && IsTokOf(s[i - 1], Newline) ==>
        OperatorRule(s, i) == RuleResult(s[..i] + s[i + 1..], i + 1, Some(ParserError(s[i].line, OperandBefore(v == "-"))), true, false)
    ensures var v := s[i].value;
      v != "@" && (v != "~" ==> 0 < i && IsExpression(s[i - 1])) && i + 1 < |s| && IsTokOf(s[i + 1], Newline) ==>
        OperatorRule(s, i) == RuleResult(s[..i] + s[i + 1..], i + 1, Some(ParserError(s[i].line, OperandAfter)), true, false)
  {
  }

  /**
   * An operator beside another operator that cannot be its operand is an
   * error naming the neighbour, and the element after the operator is
   * erased (nothing, when there is none): on the left any operator but
   * `@`, on the right (with the left operand ready) any operator but `~`,
   * with the `~` hint when the right neighbour is `-`.
   */
  lemma OperatorClash(s: seq<Element>, i: nat)
    requires i < |s| && IsTokOf(s[i], Operator)
    ensures var v := s[i].value;
      v != "~" && 0 < i && IsTokOf(s[i - 1], Operator) && s[i - 1].value != "@" ==>
        OperatorRule(s, i)
        == RuleResult(if i + 1 < |s| then s[..i + 1] + s[i + 2..] else s, i + 1,
                      Some(ParserError(s[i].line, LeftClash(s[i - 1].value))), true, false)
    ensures var v := s[i].value;
      v != "@" && (v != "~" ==> 0 < i && IsExpression(s[i - 1])) && i + 1 < |s| && IsTokOf(s[i + 1], Operator) && s[i + 1].value != "~" ==>
        OperatorRule(s, i)
        == RuleResult(s[..i + 1] + s[i + 2..], i + 1, Some(ParserError(s[i].line, RightClash(s[i + 1].value == "-"))), true, false)
  {
  }

  /**
   * Every error of the operator rule is recorded at the operator's line,
   * is no progress, and erases exactly one element: the operator itself,
   * or the element after it when a neighbour clashes (nothing when the left
   * clash happens at the end).
   */
  lemma OperatorErrorShape(s: seq<Element>, i: nat)
    requires i < |s| && IsTokOf(s[i], Operator) && OperatorRule(s, i).error.Some?
    ensures var r := OperatorRule(s, i);
      && r.error.value.line == s[i].line && !r.progress && r.next == i + 1
      && (r.elements == s[..i] + s[i + 1..]
          || (i + 1 < |s| && r.elements == s[..i + 1] + s[i + 2..])
          || (i + 1 == |s| && r.elements == s))
  {
  }

  /** The operator rule either builds, records an error, or changes nothing. */
  lemma OperatorOutcome(s: seq<Element>, i: nat)
    requires i < |s| && IsTokOf(s[i], Operator)
    ensures var r := OperatorRule(s, i);
      && (r.progress ==> r.error.None?)
      && (r.error.None? && !r.progress ==> r.elements == s)
      && (r.progress ==> exists k :: 0 <= k < |r.elements| && r.elements[k].Operation? && k + 1 == r.next)
  {
    var r := OperatorRule(s, i);
    if r.progress {
      var v := s[i].value;
      var start := if v != "~" then i - 1 else i;
      assert r == BuildOperation(s, i);
      assert r.elements[start].Operation? && start + 1 == r.next;
    }
  }

  /** An operator at the start needs a left operand (unless it is `~`). */
  lemma OperatorAtStart(s: seq<Element>)
    requires 0 < |s| && IsTokOf(s[0], Operator) && s[0].value != "~"
    ensures OperatorRule(s, 0) == RuleResult(s[1..], 1, Some(ParserError(s[0].line, UnexpectedOperator)), true, false)
  {
    assert s[..0] + [] + s[1..] == s[1..];
  }

  /** An operator ending the input needs a right operand (unless it is `@`). */
  lemma OperatorAtEnd(s: seq<Element>, i: nat)
    requires i + 1 == |s| && IsTokOf(s[i], Operator) && s[i].value != "@"
    requires s[i].value != "~" ==> 0 < i && IsExpression(s[i - 1])
    ensures OperatorRule(s, i) == RuleResult(s[..i], i + 1, Some(ParserError(s[i].line, EofOperands)), true, false)
  {
    assert s[..i] + [] + s[i + 1..] == s[..i];
  }

  // ------------------------------------------------ operand pointers as written

  /**
   * The vector slots `operation.l` and `operation.r` take the address of:
   * `l` is `&elements[i-1]` before the left erase, `r` is `&elements[i+1]`
   * after the `i--`.  A slot keeps its address while the erases shift the
   * contents under it.
   */
  function OperandSlots(s: seq<Element>, i: nat): (slots: (Option<nat>, Option<nat>))
    requires i < |s| && s[i].Tok?
    requires s[i].value != "~" ==> 0 < i
    ensures slots.0.Some? <==> s[i].value != "~"
    ensures slots.1.Some? <==> s[i].value != "@"
    ensures slots.0.Some? ==> slots.0.value + 1 == i
    ensures slots.1.Some? ==> slots.1.value == (if s[i].value != "~" then i else i + 1)
  {
    var v := s[i].value;
    var at := if v != "~" then i - 1 else i;
    (if v != "~" then Some(i - 1) else None, if v != "@" then Some(at + 1) else None)
  }

  /** What those slots hold once the operator case has finished; a slot past the end holds nothing. */
  function PointedOperands(s: seq<Element>, i: nat): (Option<Element>, Option<Element>)
    requires i < |s| && s[i].Tok?
    requires s[i].value != "~" ==> 0 < i && IsExpression(s[i - 1])
    requires s[i].value != "@" ==> i + 1 < |s| && IsExpression(s[i + 1])
  {
    var t := BuildOperation(s, i).elements;
    var (l, r) := OperandSlots(s, i);
    (if l.Some? && l.value < |t| then Some(t[l.value]) else None,
     if r.Some? && r.value < |t| then Some(t[r.value]) else None)
  }

  /**
   * As written, the left pointer designates the new operation itself and the
   * right pointer the element after the operation (nothing at the end of
   * the input), never the operands.
   */
  lemma PointedOperandsShifted(s: seq<Element>, i: nat)
    requires i < |s| && s[i].Tok?
    requires s[i].value != "~" ==> 0 < i && IsExpression(s[i - 1])
    requires s[i].value != "@" ==> i + 1 < |s| && IsExpression(s[i + 1])
    ensures var v := s[i].value;
      var start := if v != "~" then i - 1 else i;
      var stop := if v != "@" then i + 2 else i + 1;
      var t := BuildOperation(s, i).elements;
      && (v != "~" ==> PointedOperands(s, i).0 == Some(t[start]) && t[start].Operation?)
      && (v != "@" ==> PointedOperands(s, i).1 == (if stop < |s| then Some(s[stop]) else None))
  {
    var v := s[i].value;
    var start := if v != "~" then i - 1 else i;
    var stop := if v != "@" then i + 2 else i + 1;
    var t := BuildOperation(s, i).elements;
    assert |t| == |s| - (stop - start) + 1;
    if stop < |s| {
      assert t[start + 1] == s[stop];
    }
  }

  /**
   * The input `a + b c` shows it: the operation's pointers designate the
   * operation and `c`, where the operands are `a` and `b`.
   */
  lemma PointedOperandsExample()
    ensures var s := [Ref(1, "a"), Tok(1, "+", Operator), Ref(1, "b"), Ref(1, "c")];
      var op := BuildOperation(s, 1).elements[0];
      && op == Operation(1, "a+b", '+', Some(Ref(1, "a")), Some(Ref(1, "b")))
      && PointedOperands(s, 1) == (Some(op), Some(Ref(1, "c")))
  {
    var s := [Ref(1, "a"), Tok(1, "+", Operator), Ref(1, "b"), Ref(1, "c")];
    assert "a" + "+" + "b" == "a+b";
    assert s[..0] == [] && s[3..] == [Ref(1, "c")];
    assert BuildOperation(s, 1).elements == [Operation(1, "a+b", '+', Some(Ref(1, "a")), Some(Ref(1, "b"))), Ref(1, "c")];
  }

  // ----------------------------------------------------------------- calls

  /** A comma where an argument may start: the first slot, or right after a comma. */
  predicate MisplacedComma(s: seq<Element>, j: nat, k: nat, canAdd: bool)
    requires j <= k < |s|
  {
    IsTokOf(s[k], Comma) && (if k == j then canAdd else IsTokOf(s[k - 1], Comma))
  }

  /** A slot head: the first element of a comma-separated slot. */
  predicate SlotHead(s: seq<Element>, j: nat, k: nat, canAdd: bool)
    requires j <= k < |s|
  {
    !IsTokOf(s[k], Comma) && (if k == j then canAdd else IsTokOf(s[k - 1], Comma))
  }

  /**
   * The argument scan fails exactly when some comma sits where an argument
   * may start; a trailing comma after an argument is therefore accepted.
   */
  lemma {:induction false} ArgsErrorIff(s: seq<Element>, j: nat, close: nat, canAdd: bool)
    requires j <= close <= |s|
    ensures CollectArgs(s, j, close, canAdd).None? <==> exists k :: j <= k < close && MisplacedComma(s, j, k, canAdd)
    decreases close - j
  {
    if j < close && !(canAdd && IsTokOf(s[j], Comma)) {
      var next := IsTokOf(s[j], Comma);
      ArgsErrorIff(s, j + 1, close, next);
      assert CollectArgs(s, j, close, canAdd).None? <==> CollectArgs(s, j + 1, close, next).None?;
      assert !MisplacedComma(s, j, j, canAdd);
      if CollectArgs(s, j + 1, close, next).None? {
        var k :| j + 1 <= k < close && MisplacedComma(s, j + 1, k, next);
        assert MisplacedComma(s, j, k, canAdd);
      } else {
        forall k | j <= k < close
          ensures !MisplacedComma(s, j, k, canAdd)
        {
          if k > j {
            assert !MisplacedComma(s, j + 1, k, next);
          }
        }
      }
    } else if j < close {
      assert MisplacedComma(s, j, j, canAdd);
    }
  }

  /** The slot heads from `j + 1` are those from `j` past `j`. */
  lemma SlotHeadShift(s: seq<Element>, j: nat, close: nat, canAdd: bool)
    requires j < close <= |s|
    ensures forall k :: j + 1 <= k < close ==>
      (SlotHead(s, j + 1, k, IsTokOf(s[j], Comma)) <==> SlotHead(s, j, k, canAdd))
  {
  }

  /** A successful scan continues from `j + 1` with the rest of the arguments. */
  lemma ArgsStep(s: seq<Element>, j: nat, close: nat, canAdd: bool, args: seq<Element>)
    requires j < close <= |s| && CollectArgs(s, j, close, canAdd) == Some(args)
    ensures canAdd ==> |args| > 0 && args[0] == s[j] && SlotHead(s, j, j, canAdd)
    ensures !canAdd ==> !SlotHead(s, j, j, canAdd)
    ensures CollectArgs(s, j + 1, close, IsTokOf(s[j], Comma)) == Some(if canAdd then args[1..] else args)
  {
  }

  /** Each argument is a copy of a slot head. */
  lemma {:induction false} ArgsAreSlotHeads(s: seq<Element>, j: nat, close: nat, canAdd: bool, args: seq<Element>)
    requires j <= close <= |s| && CollectArgs(s, j, close, canAdd) == Some(args)
    ensures forall m :: 0 <= m < |args| ==> exists k :: j <= k < close && args[m] == s[k] && SlotHead(s, j, k, canAdd)
    decreases close - j
  {
    if j < close {
      var rest := if canAdd then args[1..] else args;
      ArgsStep(s, j, close, canAdd, args);
      ArgsAreSlotHeads(s, j + 1, close, IsTokOf(s[j], Comma), rest);
      SlotHeadShift(s, j, close, canAdd);
      forall m | 0 <= m < |args|
        ensures exists k :: j <= k < close && args[m] == s[k] && SlotHead(s, j, k, canAdd)
      {
        if canAdd && m == 0 {
          assert j <= j < close && args[m] == s[j] && SlotHead(s, j, j, canAdd);
        } else {
          var m' := if canAdd then m - 1 else m;
          assert 0 <= m' < |rest| && args[m] == rest[m'];
          var k :| j + 1 <= k < close && rest[m'] == s[k] && SlotHead(s, j + 1, k, IsTokOf(s[j], Comma));
          assert j <= k < close && args[m] == s[k] && SlotHead(s, j, k, canAdd);
        }
      }
    }
  }

  /** Every slot head is an argument. */
  lemma {:induction false} SlotHeadsAreArgs(s: seq<Element>, j: nat, close: nat, canAdd: bool, args: seq<Element>)
    requires j <= close <= |s| && CollectArgs(s, j, close, canAdd) == Some(args)
    ensures forall k :: j <= k < close && SlotHead(s, j, k, canAdd) ==> s[k] in args
    decreases close - j
  {
    if j < close {
      var rest := if canAdd then args[1..] else args;
      ArgsStep(s, j, close, canAdd, args);
      SlotHeadsAreArgs(s, j + 1, close, IsTokOf(s[j], Comma), rest);
      SlotHeadShift(s, j, close, canAdd);
      forall k | j + 1 <= k < close && SlotHead(s, j, k, canAdd)
        ensures s[k] in args
      {
        assert s[k] in rest;
      }
    }
  }

  /** A call spans from its name to the first `)` after its `(`. */
  lemma CallToFirstClose(s: seq<Element>, i: nat, close: nat)
    requires i + 2 <= close < |s| && IsTokOf(s[i + 1], BracketOpen) && IsTokOf(s[close], BracketClose)
    requires forall k :: i + 2 <= k < close ==> !IsTokOf(s[k], BracketClose)
    ensures FirstOf(s, i + 2, {BracketClose}) == close
  {
  }

  /**
   * A call with well-placed commas becomes one call element named by the
   * identifier; with a misplaced comma the whole span becomes an error
   * element at the line of the `)`.
   */
  lemma CallOutcome(s: seq<Element>, i: nat, close: nat)
    requires i + 2 <= close < |s| && IsTokOf(s[i], Identifier) && IsTokOf(s[i + 1], BracketOpen) && IsTokOf(s[close], BracketClose)
    requires forall k :: i + 2 <= k < close ==> !IsTokOf(s[k], BracketClose)
    ensures var r := IdentifierRule(s, i);
      match CollectArgs(s, i + 2, close, true)
      case Some(args) =>
        r == RuleResult(s[..i] + [Call(s[i].line, s[i].value, args)] + s[close + 1..], i + 1, None, false, true)
      case None =>
        r == RuleResult(s[..i] + [Error(s[close].line, ErrorText)] + s[close + 1..], i + 1,
                        Some(ParserError(s[i].line, UnexpectedComma)), true, false)
  {
    CallToFirstClose(s, i, close);
  }

  /** Without a `)` the call is an error and nothing changes. */
  lemma CallUnclosed(s: seq<Element>, i: nat)
    requires i + 1 < |s| && IsTokOf(s[i], Identifier) && IsTokOf(s[i + 1], BracketOpen)
    requires forall k :: i + 2 <= k < |s| ==> !IsTokOf(s[k], BracketClose)
    ensures IdentifierRule(s, i) == RuleResult(s, i + 1, Some(ParserError(s[i].line, MissingBracket)), true, false)
  {
    assert FirstOf(s, i + 2, {BracketClose}) == |s|;
  }

  /** An identifier not followed by `(` is a reference. */
  lemma Reference(s: seq<Element>, i: nat)
    requires i < |s| && IsTokOf(s[i], Identifier) && !(i + 1 < |s| && IsTokOf(s[i + 1], BracketOpen))
    ensures IdentifierRule(s, i) == RuleResult(s[..i] + [Ref(s[i].line, s[i].value)] + s[i + 1..], i + 1, None, false, true)
  {
  }

  // -------------------------------------------------------------- keywords

  /**
   * `static` must be followed by a keyword token; the keyword rule never
   * changes the sequence.
   */
  lemma KeywordStaticGuard(s: seq<Element>, i: nat)
    requires i < |s| && IsTokOf(s[i], Keyword) && Admissible(s, i)
    ensures KeywordRule(s, i).elements == s && !KeywordRule(s, i).progress
    ensures KeywordRule(s, i).error.Some?
        <==> s[i].value == "static" && (i + 1 == |s| || !IsTokOf(s[i + 1], Keyword))
    ensures KeywordRule(s, i).error.Some? ==> KeywordRule(s, i).error.value == ParserError(s[i].line, StaticGuard)
  {
  }

  // ---------------------------------------------------------------- wrapping

  lemma {:induction false} WrapCount(tokens: seq<Token>)
    ensures TokenCount(Wrap(tokens)) == |tokens|
    decreases |tokens|
  {
    if tokens != [] {
      WrapCount(tokens[..|tokens| - 1]);
      assert Wrap(tokens)[..|tokens| - 1] == Wrap(tokens[..|tokens| - 1]);
    }
  }

  /** Tokens with no `static` keyword are always accepted by the model. */
  lemma NoStaticIsSafe(tokens: seq<Token>)
    requires forall k :: 0 <= k < |tokens| ==> !(tokens[k].kind == Keyword && tokens[k].value == "static")
    ensures Safe(Wrap(tokens))
  {
    var s := Wrap(tokens);
    assert forall p :: 0 <= p < |s| ==> !IsStatic(s[p]);
  }

  /**
   * Parsing the lexer's tokens reports success exactly when no error was
   * recorded, and leaves at most as many token elements as there were
   * tokens.
   */
  lemma ParseTokensShape(tokens: seq<Token>)
    requires Safe(Wrap(tokens))
    ensures ParseTokens(tokens).successful <==> ParseTokens(tokens).errors == []
    ensures TokenCount(ParseTokens(tokens).elements) <= |tokens|
    ensures |ParseTokens(tokens).elements| <= |tokens|
  {
    WrapCount(tokens);
  }
}
