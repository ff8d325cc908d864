/**
 * Properties of `Lexer.Lex`: line numbering, the shape of every token,
 * newline accounting, raw-mode behaviour and the round trip of token values
 * for input without a double quote.
 */
module LexerProperties {
  import opened Wrappers
  import opened Lexer
  import opened LexerTables

  // ------------------------------------------------------------ measures

  /** The number of tokens whose value is a line feed. */
  function NewlineCount(ts: seq<Token>): nat
  {
    if ts == [] then 0
    else NewlineCount(ts[..|ts| - 1]) + (if ts[|ts| - 1].value == "\n" then 1 else 0)
  }

  /** The number of occurrences of `ch` in `s`. */
  function CharCount(s: string, ch: char): nat
  {
    if s == [] then 0
    else CharCount(s[..|s| - 1], ch) + (if s[|s| - 1] == ch then 1 else 0)
  }

  /** `s` with every space and tab removed. */
  function Strip(s: string): string
  {
    if s == [] then []
    else Strip(s[..|s| - 1]) + (if IsBlank(s[|s| - 1]) then [] else [s[|s| - 1]])
  }

  /** The concatenation of the values of `ts`. */
  function ConcatValues(ts: seq<Token>): string
  {
    if ts == [] then [] else ConcatValues(ts[..|ts| - 1]) + ts[|ts| - 1].value
  }

  // ------------------------------------------------------- token shapes

  /** A character the single-character table does not know: the only kind that can enter the buffer. */
  predicate BufferChar(ch: char)
  {
    SingleCharKind(ch) == Unknown
  }

  /** A token pushed from the symbol tables. */
  predicate IsSymbolToken(t: Token)
  {
    (t.value == "*\"" && t.kind == MultilineStringStart)
    || (t.value == "\"*" && t.kind == MultilineStringEnd)
    || (|t.value| == 1 && t.kind == SingleCharKind(t.value[0]) && t.kind != Unknown)
  }

  /** Every character of `s` is a buffer character. */
  predicate AllBufferChars(s: string)
  {
    s == [] || (AllBufferChars(s[..|s| - 1]) && BufferChar(s[|s| - 1]))
  }

  /** A token flushed from the buffer: non-empty, made of buffer characters, classified. */
  predicate IsWordToken(t: Token)
  {
    t.value != "" && AllBufferChars(t.value) && t.kind == Classify(t.value)
  }

  predicate WellFormed(t: Token)
  {
    IsSymbolToken(t) || IsWordToken(t)
  }

  predicate AllWellFormed(ts: seq<Token>)
  {
    ts == [] || (AllWellFormed(ts[..|ts| - 1]) && WellFormed(ts[|ts| - 1]))
  }

  /** Every token carries one more than the number of line feeds before it. */
  predicate WellNumbered(ts: seq<Token>)
  {
    ts == [] || (WellNumbered(ts[..|ts| - 1]) && ts[|ts| - 1].line == 1 + NewlineCount(ts[..|ts| - 1]))
  }

  /** The invariant of the state machine, independent of the input. */
  predicate Inv(st: LexState)
  {
    && st.line == 1 + NewlineCount(st.tokens)
    && WellNumbered(st.tokens)
    && AllWellFormed(st.tokens)
    && AllBufferChars(st.buffer)
  }

  /** The invariant after the loop has consumed `c[..i]`. */
  predicate Sound(c: string, i: nat, st: LexState)
  {
    i <= |c| && Inv(st) && NewlineCount(st.tokens) == CharCount(c[..i], '\n')
  }

  // ----------------------------------------------------- sequence lemmas

  lemma PushToken(ts: seq<Token>, t: Token)
    requires WellNumbered(ts) && t.line == 1 + NewlineCount(ts)
    ensures WellNumbered(ts + [t])
    ensures NewlineCount(ts + [t]) == NewlineCount(ts) + (if t.value == "\n" then 1 else 0)
  {
    assert (ts + [t])[..|ts|] == ts;
  }

  lemma PushWellFormed(ts: seq<Token>, t: Token)
    requires AllWellFormed(ts) && WellFormed(t)
    ensures AllWellFormed(ts + [t])
  {
    assert (ts + [t])[..|ts|] == ts;
  }

  lemma BufferSnoc(s: string, ch: char)
    requires AllBufferChars(s) && BufferChar(ch)
    ensures AllBufferChars(s + [ch])
  {
    assert (s + [ch])[..|s|] == s;
  }

  lemma {:induction false} WellNumberedAt(ts: seq<Token>, k: nat)
    requires WellNumbered(ts) && k < |ts|
    ensures ts[k].line == 1 + NewlineCount(ts[..k])
  {
    if k < |ts| - 1 {
      var init := ts[..|ts| - 1];
      WellNumberedAt(init, k);
      assert init[..k] == ts[..k];
    }
  }

  lemma {:induction false} WellFormedAt(ts: seq<Token>, k: nat)
    requires AllWellFormed(ts) && k < |ts|
    ensures WellFormed(ts[k])
  {
    if k < |ts| - 1 {
      WellFormedAt(ts[..|ts| - 1], k);
    }
  }

  lemma ConcatSnoc(ts: seq<Token>, t: Token)
    ensures ConcatValues(ts + [t]) == ConcatValues(ts) + t.value
  {
    assert (ts + [t])[..|ts|] == ts;
  }

  lemma CountSnoc(s: string, i: nat, ch: char)
    requires i < |s|
    ensures CharCount(s[..i + 1], ch) == CharCount(s[..i], ch) + (if s[i] == ch then 1 else 0)
    ensures Strip(s[..i + 1]) == Strip(s[..i]) + (if IsBlank(s[i]) then [] else [s[i]])
  {
    assert s[..i + 1][..i] == s[..i];
  }

  // ------------------------------------------------------ the invariant

  /** Flushing a non-empty buffer keeps the invariant and pushes no line feed. */
  lemma FlushInv(st: LexState)
    requires Inv(st) && st.buffer != ""
    ensures var tok := Token(Classify(st.buffer), st.buffer, st.line);
      && tok.value != "\n"
      && Inv(LexState(st.tokens + [tok], "", RawAfter(st.raw, tok.kind), st.line))
      && NewlineCount(st.tokens + [tok]) == NewlineCount(st.tokens)
  {
    var tok := Token(Classify(st.buffer), st.buffer, st.line);
    PushToken(st.tokens, tok);
    assert IsWordToken(tok);
    PushWellFormed(st.tokens, tok);
  }

  /** Pushing a symbol token with the current line keeps the invariant. */
  lemma EmitInv(st: LexState, sp: Token)
    requires Inv(st) && IsSymbolToken(sp) && sp.line == st.line
    ensures Inv(Emit(st, sp))
    ensures NewlineCount(Emit(st, sp).tokens) == NewlineCount(st.tokens) + (if sp.value == "\n" then 1 else 0)
  {
    PushToken(st.tokens, sp);
    PushWellFormed(st.tokens, sp);
  }

  /** One iteration keeps the invariant, and counts a line feed exactly when it pushes one. */
  lemma AdvanceInv(st: LexState, sp: Token, ch: char)
    requires Inv(st)
    requires sp.line == st.line
    requires sp.kind == Unknown || IsSymbolToken(sp)
    requires sp.kind == Unknown ==> BufferChar(ch)
    ensures Inv(Advance(st, sp, ch))
    ensures NewlineCount(Advance(st, sp, ch).tokens)
         == NewlineCount(st.tokens) + (if sp.kind != Unknown && sp.value == "\n" then 1 else 0)
  {
    if (IsBlank(ch) && !st.raw) || sp.kind != Unknown {
      if st.buffer == "" {
        if sp.kind != Unknown {
          EmitInv(st, sp);
        }
      } else {
        FlushInv(st);
        var tok := Token(Classify(st.buffer), st.buffer, st.line);
        var flushed := LexState(st.tokens + [tok], "", RawAfter(st.raw, tok.kind), st.line);
        if sp.kind != Unknown {
          EmitInv(flushed, sp);
        }
      }
    } else {
      BufferSnoc(st.buffer, ch);
    }
  }

  /** The line feeds the symbol at `i` consumes: one exactly when it is a newline token. */
  lemma SymbolNewlines(c: string, i: nat)
    requires i < |c|
    ensures var sym := SymbolAt(c, i);
      && (sym.0 == Unknown || IsSymbolToken(Token(sym.0, sym.1, 0)))
      && (sym.0 == Unknown ==> BufferChar(c[i]))
      && CharCount(c[..i + Width(c, i)], '\n')
         == CharCount(c[..i], '\n') + (if sym.0 != Unknown && sym.1 == "\n" then 1 else 0)
  {
    SymbolShape(c, i);
    CountSnoc(c, i, '\n');
    if Width(c, i) == 2 {
      CountSnoc(c, i + 1, '\n');
    }
  }

  lemma StepSound(c: string, i: nat, st: LexState)
    requires i < |c| && Sound(c, i, st)
    ensures Sound(c, i + Width(c, i), Step(c, i, st))
  {
    var sym := SymbolAt(c, i);
    var sp := Token(sym.0, sym.1, st.line);
    SymbolNewlines(c, i);
    assert sp.kind == Unknown || IsSymbolToken(sp);
    StepAdvance(c, i, st, sp, i);
    AdvanceInv(st, sp, c[i]);
  }

  lemma {:induction false} RunSound(c: string, i: nat, st: LexState)
    requires Sound(c, i, st)
    ensures Sound(c, |c|, Run(c, |c|, i, st))
    decreases |c| - i
  {
    if i < |c| {
      var next := Step(c, i, st);
      StepSound(c, i, st);
      RunUnfold(c, |c|, i, st);
      RunSound(c, i + Width(c, i), next);
    }
  }

  /**
   * Every token of `Lex(code)` is a symbol or a non-empty classified
   * buffer, carries one more than the number of line feeds before it, and
   * there is one newline token per line feed of the input.
   */
  lemma LexSound(code: string)
    ensures var ts := Lex(code);
      && (forall k :: 0 <= k < |ts| ==> ts[k].line == 1 + NewlineCount(ts[..k]) && WellFormed(ts[k]))
      && NewlineCount(ts) == CharCount(code, '\n')
  {
    var c := code + " ";
    assert c[..0] == [];
    RunSound(c, 0, Init);
    assert c[..|c|] == c;
    assert c[..|c| - 1] == code;
    var ts := Lex(code);
    forall k | 0 <= k < |ts|
      ensures ts[k].line == 1 + NewlineCount(ts[..k]) && WellFormed(ts[k])
    {
      WellNumberedAt(ts, k);
      WellFormedAt(ts, k);
    }
  }

  /** A token is a newline token exactly when its value is a line feed. */
  lemma NewlineKind(t: Token)
    requires WellFormed(t)
    ensures t.kind == Newline <==> t.value == "\n"
  {
  }

  /**
   * Lines start at 1, and each token's line is the previous token's line,
   * plus one exactly when the previous token is a newline token.
   */
  lemma LexLines(code: string)
    ensures var ts := Lex(code);
      && (|ts| > 0 ==> ts[0].line == 1)
      && forall k :: 0 <= k < |ts| - 1 ==>
           ts[k + 1].line == ts[k].line + (if ts[k].kind == Newline then 1 else 0)
  {
    var ts := Lex(code);
    LexSound(code);
    if |ts| > 0 {
      assert ts[..0] == [];
    }
    forall k | 0 <= k < |ts| - 1
      ensures ts[k + 1].line == ts[k].line + (if ts[k].kind == Newline then 1 else 0)
    {
      assert ts[..k + 1][..k] == ts[..k];
      NewlineKind(ts[k]);
    }
  }

  /** Each line feed of the input yields exactly one newline token, whose value is the line feed. */
  lemma LexNewlines(code: string)
    ensures var ts := Lex(code);
      && (forall k :: 0 <= k < |ts| ==> (ts[k].kind == Newline <==> ts[k].value == "\n"))
      && NewlineCount(ts) == CharCount(code, '\n')
  {
    var ts := Lex(code);
    LexSound(code);
    forall k | 0 <= k < |ts| ensures ts[k].kind == Newline <==> ts[k].value == "\n" {
      NewlineKind(ts[k]);
    }
  }

  // --------------------------------------------------------- raw mode

  /**
   * A space or tab is one character wide; in raw mode it joins the buffer,
   * otherwise it flushes a non-empty buffer and is dropped.
   */
  lemma BlankStep(c: string, i: nat, st: LexState)
    requires i < |c| && IsBlank(c[i])
    ensures Width(c, i) == 1
    ensures st.raw ==> Step(c, i, st) == st.(buffer := st.buffer + [c[i]])
    ensures !st.raw && st.buffer == "" ==> Step(c, i, st) == st
    ensures !st.raw && st.buffer != "" ==>
      Step(c, i, st) == LexState(st.tokens + [Token(Classify(st.buffer), st.buffer, st.line)], "", false, st.line)
  {
    SymbolShape(c, i);
  }

  /**
   * A table symbol is always a boundary, whatever the raw mode: the buffer
   * is flushed, the symbol token is pushed with the current line, raw mode
   * is updated by its kind, and the line advances after a line feed.
   */
  lemma SymbolStep(c: string, i: nat, st: LexState)
    requires i < |c| && SymbolAt(c, i).0 != Unknown
    ensures var next := Step(c, i, st);
      && next.buffer == ""
      && next.tokens == st.tokens
           + (if st.buffer == "" then [] else [Token(Classify(st.buffer), st.buffer, st.line)])
           + [Token(SymbolAt(c, i).0, SymbolAt(c, i).1, st.line)]
      && next.raw == RawAfter(st.raw, SymbolAt(c, i).0)
      && next.line == st.line + (if SymbolAt(c, i).1 == "\n" then 1 else 0)
  {
  }

  /** One turn of the loop below `n` is also one turn of the whole loop. */
  lemma RunTurn(c: string, n: nat, i: nat, st: LexState) returns (next: LexState)
    requires i < n < |c| && c[n] != '"' && c[n] != '*'
    ensures i + Width(c, i) <= n
    ensures Run(c, n, i, st) == Run(c, n, i + Width(c, i), next)
    ensures Run(c, |c|, i, st) == Run(c, |c|, i + Width(c, i), next)
  {
    if i + 1 == n {
      assert !PairAt(c, i, '*', '"') && !PairAt(c, i, '"', '*');
    }
    next := Step(c, i, st);
    RunUnfold(c, n, i, st);
    RunUnfold(c, |c|, i, st);
  }

  /** Running the whole loop from `i` is running it to `n`, then on from `n`. */
  predicate SplitsAt(c: string, n: nat, i: nat, st: LexState)
    requires i <= n <= |c|
  {
    Run(c, |c|, i, st) == Run(c, |c|, n, Run(c, n, i, st))
  }

  /** The loop stops exactly at `n` when no two-character symbol straddles it. */
  lemma {:induction false} RunSplit(c: string, n: nat, i: nat, st: LexState)
    requires i <= n < |c| && c[n] != '"' && c[n] != '*'
    ensures SplitsAt(c, n, i, st)
    decreases n - i
  {
    if i < n {
      var next := RunTurn(c, n, i, st);
      RunSplit(c, n, i + Width(c, i), next);
    } else {
      assert Run(c, n, i, st) == st;
    }
  }

  /**
   * The synthetic trailing space flushes a pending buffer only outside raw
   * mode: in raw mode it is absorbed and the buffer is never emitted.
   */
  lemma LexTail(code: string)
    ensures var mid := Run(code + " ", |code|, 0, Init);
      Lex(code) == if mid.raw || mid.buffer == "" then mid.tokens
                   else mid.tokens + [Token(Classify(mid.buffer), mid.buffer, mid.line)]
  {
    var c := code + " ";
    var mid := Run(c, |code|, 0, Init);
    RunSplit(c, |code|, 0, Init);
    assert Run(c, |c|, 0, Init) == Run(c, |c|, |code|, mid);
    BlankStep(c, |code|, mid);
    RunUnfold(c, |c|, |code|, mid);
    assert Run(c, |c|, |code|, mid) == Step(c, |code|, mid);
  }

  // --------------------------------------------------------- round trip

  /** The round-trip invariant for input without a double quote. */
  predicate Plain(c: string, i: nat, st: LexState)
  {
    && i <= |c|
    && !st.raw
    && ConcatValues(st.tokens) + st.buffer == Strip(c[..i])
    && (0 < i && IsBlank(c[i - 1]) ==> st.buffer == "")
  }

  /**
   * Outside raw mode, with a one-character symbol that is not a quote, an
   * iteration keeps raw mode off, and a blank leaves the buffer empty.
   */
  lemma PlainAdvanceRaw(st: LexState, sp: Token, ch: char)
    requires !st.raw && ch != '"' && sp.value == [ch] && sp.kind == SingleCharKind(ch)
    ensures !Advance(st, sp, ch).raw
    ensures IsBlank(ch) ==> Advance(st, sp, ch).buffer == ""
  {
    if IsBlank(ch) {
      BlankIsUnknown(ch);
    }
    if st.buffer != "" {
      FlushKeepsRaw(st.raw, st.buffer);
    }
  }

  /**
   * Outside raw mode, with a one-character symbol, an iteration moves the
   * character, unless blank, to the end of the tokens and buffer.
   */
  lemma PlainAdvance(st: LexState, sp: Token, ch: char)
    requires !st.raw && sp.value == [ch] && sp.kind == SingleCharKind(ch)
    ensures var next := Advance(st, sp, ch);
      ConcatValues(next.tokens) + next.buffer
      == ConcatValues(st.tokens) + st.buffer + (if IsBlank(ch) then [] else [ch])
  {
    if IsBlank(ch) {
      BlankIsUnknown(ch);
    }
    var before := ConcatValues(st.tokens) + st.buffer;
    if (IsBlank(ch) && !st.raw) || sp.kind != Unknown {
      var base := st;
      if st.buffer != "" {
        var tok := Token(Classify(st.buffer), st.buffer, st.line);
        base := LexState(st.tokens + [tok], "", RawAfter(st.raw, tok.kind), st.line);
        ConcatSnoc(st.tokens, tok);
      }
      assert ConcatValues(base.tokens) == before && base.buffer == "";
      if sp.kind != Unknown {
        assert Advance(st, sp, ch) == Emit(base, sp);
        ConcatSnoc(base.tokens, sp);
      } else {
        assert Advance(st, sp, ch) == base;
      }
    } else {
      assert Advance(st, sp, ch) == st.(buffer := st.buffer + [ch]);
    }
  }

  lemma PlainStep(c: string, i: nat, st: LexState)
    requires i < |c| && '"' !in c && Plain(c, i, st)
    ensures Width(c, i) == 1 && Plain(c, i + 1, Step(c, i, st))
  {
    SymbolShape(c, i);
    assert Width(c, i) == 1;
    CountSnoc(c, i, '\n');
    PlainAdvanceRaw(st, Token(SingleCharKind(c[i]), [c[i]], st.line), c[i]);
    PlainAdvance(st, Token(SingleCharKind(c[i]), [c[i]], st.line), c[i]);
  }

  lemma {:induction false} PlainRun(c: string, i: nat, st: LexState)
    requires '"' !in c && Plain(c, i, st)
    ensures Plain(c, |c|, Run(c, |c|, i, st))
    decreases |c| - i
  {
    if i < |c| {
      PlainStep(c, i, st);
      PlainRun(c, i + 1, Step(c, i, st));
    }
  }

  /**
   * Without a double quote raw mode never turns on: the token values,
   * concatenated, give back the input with every space and tab removed.
   */
  lemma LexRoundTrip(code: string)
    requires '"' !in code
    ensures ConcatValues(Lex(code)) == Strip(code)
  {
    var c := code + " ";
    assert c[..0] == [];
    PlainRun(c, 0, Init);
    var last := Run(c, |c|, 0, Init);
    assert c[..|c|] == c;
    assert c[..|c| - 1] == code;
    assert Strip(c) == Strip(code);
    assert last.buffer == "";
    assert ConcatValues(last.tokens) + last.buffer == ConcatValues(last.tokens);
  }
}
