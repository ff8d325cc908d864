/**
 * Model of the `Lexer` namespace of compiler.c++: the token kinds, the
 * fixed lookup tables, the two lexeme patterns and the character-level
 * state machine `tokenize`.
 *
 * The state machine is specified by `Step` (one loop iteration) and `Run`
 * (the loop); `Tokenize` is the imperative loop of the source and is proved
 * to compute `Lex`.
 */
module Lexer {
  import opened Wrappers

  /** The token kinds, in the order of the source's enumeration. */
  datatype TokenKind =
    | Operator
    | Null
    | Number
    | MultilineStringStart
    | Quote
    | MultilineStringEnd
    | Type
    | Identifier
    | Keyword
    | Newline
    | SqBracketOpen
    | SqBracketClose
    | BracketOpen
    | BracketClose
    | Comma
    | Unknown

  /** The enumeration value of a kind: the bit it occupies in the raw-mode masks. */
  function Ordinal(k: TokenKind): (n: nat)
    ensures n < 16
  {
    match k
    case Operator => 0
    case Null => 1
    case Number => 2
    case MultilineStringStart => 3
    case Quote => 4
    case MultilineStringEnd => 5
    case Type => 6
    case Identifier => 7
    case Keyword => 8
    case Newline => 9
    case SqBracketOpen => 10
    case SqBracketClose => 11
    case BracketOpen => 12
    case BracketClose => 13
    case Comma => 14
    case Unknown => 15
  }

  datatype Token = Token(kind: TokenKind, value: string, line: int)

  /** Bitmap of the kinds that switch raw mode on. */
  const StartWsIgnore: bv32 := ((1 as bv32) << 3) + ((1 as bv32) << 4)

  /** Bitmap of the kinds that switch raw mode off. */
  const StopWsIgnore: bv32 := ((1 as bv32) << 4) + ((1 as bv32) << 5) + ((1 as bv32) << 9)

  /** `1 << k`: the bit of kind `k` in the masks. */
  function KindBit(k: TokenKind): (b: bv32)
    ensures b == (1 as bv32) << Ordinal(k)
  {
    match k
    case Operator => 0x1
    case Null => 0x2
    case Number => 0x4
    case MultilineStringStart => 0x8
    case Quote => 0x10
    case MultilineStringEnd => 0x20
    case Type => 0x40
    case Identifier => 0x80
    case Keyword => 0x100
    case Newline => 0x200
    case SqBracketOpen => 0x400
    case SqBracketClose => 0x800
    case BracketOpen => 0x1000
    case BracketClose => 0x2000
    case Comma => 0x4000
    case Unknown => 0x8000
  }

  /**
   * Raw mode after a token of kind `k`: a quote flips it, the start of a
   * multi-line string turns it on, the end of one and a line feed turn it
   * off, every other kind leaves it alone.
   */
  function RawAfter(raw: bool, k: TokenKind): bool
  {
    if k == Quote then !raw
    else if k == MultilineStringStart then true
    else if k == MultilineStringEnd || k == Newline then false
    else raw
  }

  /**
   * The raw-mode update as `tokenize` computes it from the two masks: the
   * start mask is consulted only when raw mode is off, the stop mask only
   * when it is on.
   */
  function ToggleRaw(raw: bool, k: TokenKind): (r: bool)
    ensures r == RawAfter(raw, k)
  {
    if !raw && KindBit(k) & StartWsIgnore != 0 then true
    else if raw && KindBit(k) & StopWsIgnore != 0 then false
    else raw
  }

  // ---------------------------------------------------------------- tables

  /** The operator list, by index; only its first fifteen entries enter the single-character table. */
  function OperatorChar(j: nat): char
    requires j < 19
  {
    match j
    case 0 => '+' case 1 => '-' case 2 => '*' case 3 => ':' case 4 => ';'
    case 5 => '&' case 6 => '|' case 7 => '^' case 8 => '~' case 9 => '<'
    case 10 => '>' case 11 => '=' case 12 => '%' case 13 => '#' case 14 => '{'
    case 15 => '}' case 16 => '@' case 17 => '?' case _ => '\\'
  }

  const SingleCharCount: nat := 22

  /** Entry `j` of the single-character table: fifteen operators, then the punctuation. */
  function SingleCharSymbol(j: nat): char
    requires j < SingleCharCount
  {
    if j < 15 then OperatorChar(j)
    else
      match j
      case 15 => '\n' case 16 => '[' case 17 => ']' case 18 => '('
      case 19 => ')' case 20 => ',' case _ => '"'
  }

  /** The kind of entry `j` of the single-character table. */
  function SingleCharKindAt(j: nat): TokenKind
    requires j < SingleCharCount
  {
    if j < 15 then Operator
    else
      match j
      case 15 => Newline case 16 => SqBracketOpen case 17 => SqBracketClose
      case 18 => BracketOpen case 19 => BracketClose case 20 => Comma case _ => Quote
  }

  /** The number of multi-character lexemes consulted: the third one, `->`, never is. */
  const MultiCharCount: nat := 2

  function MultiCharLexeme(j: nat): string
    requires j < 3
  {
    match j case 0 => "*\"" case 1 => "\"*" case _ => "->"
  }

  function MultiCharKindAt(j: nat): TokenKind
    requires j < 3
  {
    match j case 0 => MultilineStringStart case 1 => MultilineStringEnd case _ => Operator
  }

  /** The number of keywords consulted: the last two, `serve` and `structure`, never are. */
  const KeywordCount: nat := 13

  function KeywordAt(j: nat): string
    requires j < 15
  {
    match j
    case 0 => "void" case 1 => "num" case 2 => "str" case 3 => "NULL" case 4 => "null"
    case 5 => "true" case 6 => "false" case 7 => "static" case 8 => "macro" case 9 => "func"
    case 10 => "namespace" case 11 => "merge" case 12 => "to" case 13 => "serve" case _ => "structure"
  }

  function KeywordKindAt(j: nat): TokenKind
    requires j < 14
  {
    if j < 3 then Type else if j < 5 then Null else if j < 7 then Number else Keyword
  }

  // ------------------------------------------------------ what they mean

  /** The operators that enter the single-character table. */
  predicate IsOperatorSymbol(ch: char)
  {
    ch == '+' || ch == '-' || ch == '*' || ch == ':' || ch == ';' || ch == '&' || ch == '|' || ch == '^'
    || ch == '~' || ch == '<' || ch == '>' || ch == '=' || ch == '%' || ch == '#' || ch == '{'
  }

  /** The kind the single-character table gives `ch`; `Unknown` when it is not in the table. */
  function SingleCharKind(ch: char): TokenKind
  {
    if IsOperatorSymbol(ch) then Operator
    else if ch == '\n' then Newline
    else if ch == '[' then SqBracketOpen
    else if ch == ']' then SqBracketClose
    else if ch == '(' then BracketOpen
    else if ch == ')' then BracketClose
    else if ch == ',' then Comma
    else if ch == '"' then Quote
    else Unknown
  }

  /** Whether the two characters at `i` are `a` then `b`. */
  predicate PairAt(c: string, i: nat, a: char, b: char)
  {
    i + 1 < |c| && c[i] == a && c[i + 1] == b
  }

  /**
   * The symbol token recognised at position `i`: `*"` or `"*`, else the
   * single-character table's kind for `c[i]` (`Unknown` when no symbol
   * starts there), with its text.
   */
  function SymbolAt(c: string, i: nat): (kv: (TokenKind, string))
    requires i < |c|
  {
    if PairAt(c, i, '*', '"') then (MultilineStringStart, "*\"")
    else if PairAt(c, i, '"', '*') then (MultilineStringEnd, "\"*")
    else (SingleCharKind(c[i]), [c[i]])
  }

  /** The number of characters the symbol at `i` spans. */
  function Width(c: string, i: nat): (w: nat)
    requires i < |c|
    ensures 1 <= w <= |c| - i
  {
    if PairAt(c, i, '*', '"') || PairAt(c, i, '"', '*') then 2 else 1
  }

  /**
   * The keyword table's kind for `s`, searching the consulted entries from
   * index `j` on; `None` when none of them is `s`.
   */
  function KeywordFrom(s: string, j: nat): (r: Option<TokenKind>)
    requires j <= KeywordCount
    ensures r.Some? ==> r.value == Type || r.value == Null || r.value == Number || r.value == Keyword
    decreases KeywordCount - j
  {
    if j == KeywordCount then None
    else if s == KeywordAt(j) then Some(KeywordKindAt(j))
    else KeywordFrom(s, j + 1)
  }

  // -------------------------------------------------------------- patterns

  predicate IsDigit(ch: char) { '0' <= ch <= '9' }

  predicate IsWordStart(ch: char) { 'a' <= ch <= 'z' || 'A' <= ch <= 'Z' || ch == '_' }

  predicate IsWordChar(ch: char) { IsWordStart(ch) || IsDigit(ch) }

  /** The characters the regular expression wildcard `.` does not match. */
  predicate IsLineTerminator(ch: char) { ch == '\n' || ch == '\r' }

  predicate AllDigits(s: string)
  {
    |s| > 0 && forall k :: 0 <= k < |s| ==> IsDigit(s[k])
  }

  /** Length of the longest prefix of `s` made of digits. */
  function DigitPrefix(s: string): (p: nat)
    ensures p <= |s|
    ensures forall k :: 0 <= k < p ==> IsDigit(s[k])
    ensures p < |s| ==> !IsDigit(s[p])
  {
    if s == [] || !IsDigit(s[0]) then 0 else 1 + DigitPrefix(s[1..])
  }

  /** The number pattern `\d+(\.\d+)?`, matched against the whole lexeme. */
  predicate IsNumberLexeme(s: string)
  {
    var p := DigitPrefix(s);
    p > 0 && (p == |s| || (s[p] == '.' && AllDigits(s[p + 1..])))
  }

  /**
   * The identifier pattern `[a-zA-Z_][a-zA-Z0-9_]*(\\.[a-zA-Z_][a-zA-Z0-9_]*)*`,
   * matched against the whole lexeme.  Its separator is a backslash followed
   * by any character but a line terminator (the `.` is a wildcard).
   */
  predicate IsIdentifierLexeme(s: string)
  {
    |s| > 0 && IsWordStart(s[0]) && IdentifierTail(s[1..])
  }

  /** What may follow the first character of an identifier. */
  predicate IdentifierTail(s: string)
    decreases |s|
  {
    s == []
    || (IsWordChar(s[0]) && IdentifierTail(s[1..]))
    || (|s| >= 3 && s[0] == '\\' && !IsLineTerminator(s[1]) && IsWordStart(s[2]) && IdentifierTail(s[3..]))
  }

  const PatternCount: nat := 2

  /** The pattern table: pattern 0 is the number pattern, pattern 1 the identifier pattern. */
  predicate PatternMatches(j: nat, s: string)
    requires j < PatternCount
  {
    if j == 0 then IsNumberLexeme(s) else IsIdentifierLexeme(s)
  }

  function PatternKindAt(j: nat): TokenKind
    requires j < PatternCount
  {
    if j == 0 then Number else Identifier
  }

  /** The kind given to a flushed buffer: keyword table first, then the patterns, else `Unknown`. */
  function Classify(s: string): (k: TokenKind)
    ensures k != Quote && k != MultilineStringStart && k != MultilineStringEnd && k != Newline
  {
    match KeywordFrom(s, 0)
    case Some(k) => k
    case None =>
      if IsNumberLexeme(s) then Number
      else if IsIdentifierLexeme(s) then Identifier
      else Unknown
  }

  // --------------------------------------------------------- state machine

  predicate IsBlank(ch: char) { ch == ' ' || ch == '\t' }

  /** The loop state of `tokenize`: emitted tokens, pending buffer, raw mode flag, line counter. */
  datatype LexState = LexState(tokens: seq<Token>, buffer: string, raw: bool, line: int)

  const Init: LexState := LexState([], "", false, 1)

  /** Push a symbol token, updating raw mode and the line counter. */
  function Emit(st: LexState, sp: Token): LexState
  {
    LexState(st.tokens + [sp], st.buffer, RawAfter(st.raw, sp.kind),
             if sp.value == "\n" then st.line + 1 else st.line)
  }

  /**
   * The effect of one iteration on the state, given the symbol token `sp`
   * recognised there and the character `ch` at the iteration's last index:
   * at a boundary the buffer is flushed and the symbol pushed, otherwise
   * `ch` joins the buffer.
   */
  function Advance(st: LexState, sp: Token, ch: char): LexState
  {
    if (IsBlank(ch) && !st.raw) || sp.kind != Unknown then
      if st.buffer == "" then
        if sp.kind != Unknown then Emit(st, sp) else st
      else
        var tok := Token(Classify(st.buffer), st.buffer, st.line);
        var flushed := LexState(st.tokens + [tok], "", RawAfter(st.raw, tok.kind), st.line);
        if sp.kind != Unknown then Emit(flushed, sp) else flushed
    else
      st.(buffer := st.buffer + [ch])
  }

  /** One iteration of the loop of `tokenize` at position `i`. */
  function Step(c: string, i: nat, st: LexState): LexState
    requires i < |c|
  {
    var sym := SymbolAt(c, i);
    Advance(st, Token(sym.0, sym.1, st.line), c[i])
  }

  /** The loop of `tokenize` from position `i` while the position is below `n`. */
  function Run(c: string, n: nat, i: nat, st: LexState): LexState
    requires n <= |c|
    decreases n - i
  {
    if i >= n then st else Run(c, n, i + Width(c, i), Step(c, i, st))
  }

  /**
   * An iteration is `Advance` applied to the recognised symbol and to the
   * character at its last index, which matters only when no symbol is there.
   */
  lemma StepAdvance(c: string, i: nat, st: LexState, special: Token, last: nat)
    requires i <= last < |c|
    requires special == Token(SymbolAt(c, i).0, SymbolAt(c, i).1, st.line)
    requires last != i ==> special.kind != Unknown
    ensures Step(c, i, st) == Advance(st, special, c[last])
  {
  }

  /** One turn of the loop. */
  lemma RunUnfold(c: string, n: nat, i: nat, st: LexState)
    requires i < n <= |c|
    ensures Run(c, n, i, st) == Run(c, n, i + Width(c, i), Step(c, i, st))
  {
  }

  /** The rest of the loop after an iteration that recognised `special` and ended at `last`. */
  lemma RunAdvance(c: string, i: nat, st: LexState, special: Token, last: nat)
    requires i <= last < |c|
    requires special == Token(SymbolAt(c, i).0, SymbolAt(c, i).1, st.line)
    requires last + 1 == i + Width(c, i)
    requires last != i ==> special.kind != Unknown
    ensures Run(c, |c|, i, st) == Run(c, |c|, last + 1, Advance(st, special, c[last]))
  {
    StepAdvance(c, i, st, special, last);
    RunUnfold(c, |c|, i, st);
  }

  /** `tokenize(code)`: the loop over `code` with a synthetic space appended. */
  function Lex(code: string): seq<Token>
  {
    var c := code + " ";
    Run(c, |c|, 0, Init).tokens
  }

  // ---------------------------------------------------------- imperative

  /** `code.substr(i, |lexeme|) == lexeme` for a two-character lexeme. */
  lemma LexemeAtPair(c: string, i: nat, lexeme: string)
    requires i < |c| && |lexeme| == 2
    ensures (c[i..Min(i + 2, |c|)] == lexeme) == PairAt(c, i, lexeme[0], lexeme[1])
  {
    if i + 2 <= |c| {
      var w := c[i..i + 2];
      assert w[0] == c[i] && w[1] == c[i + 1];
      if PairAt(c, i, lexeme[0], lexeme[1]) {
        assert w == lexeme;
      }
    }
  }

  /** The loop over the consulted multi-character lexemes. */
  method MatchMultiChar(code: string, i: nat) returns (m: nat)
    requires i < |code|
    ensures m <= MultiCharCount
    ensures m < MultiCharCount ==>
      SymbolAt(code, i) == (MultiCharKindAt(m), MultiCharLexeme(m)) && Width(code, i) == |MultiCharLexeme(m)|
    ensures m == MultiCharCount ==> SymbolAt(code, i) == (SingleCharKind(code[i]), [code[i]]) && Width(code, i) == 1
  {
    m := 0;
    while m < MultiCharCount
      invariant 0 <= m <= MultiCharCount
      invariant m > 0 ==> !PairAt(code, i, '*', '"')
      invariant m > 1 ==> !PairAt(code, i, '"', '*')
    {
      var lexeme := MultiCharLexeme(m);
      LexemeAtPair(code, i, lexeme);
      if code[i..Min(i + |lexeme|, |code|)] == lexeme {
        return;
      }
      m := m + 1;
    }
  }

  /** The loop over the single-character table. */
  method MatchSingleChar(ch: char) returns (kind: TokenKind)
    ensures kind == SingleCharKind(ch)
  {
    kind := Unknown;
    var j := 0;
    while j < SingleCharCount
      invariant 0 <= j <= SingleCharCount
      invariant forall k :: 0 <= k < j ==> SingleCharSymbol(k) != ch
    {
      if ch == SingleCharSymbol(j) {
        kind := SingleCharKindAt(j);
        return;
      }
      j := j + 1;
    }
    assert SingleCharSymbol(0) == '+' && SingleCharSymbol(1) == '-' && SingleCharSymbol(2) == '*'
      && SingleCharSymbol(3) == ':' && SingleCharSymbol(4) == ';' && SingleCharSymbol(5) == '&'
      && SingleCharSymbol(6) == '|' && SingleCharSymbol(7) == '^' && SingleCharSymbol(8) == '~'
      && SingleCharSymbol(9) == '<' && SingleCharSymbol(10) == '>' && SingleCharSymbol(11) == '='
      && SingleCharSymbol(12) == '%' && SingleCharSymbol(13) == '#' && SingleCharSymbol(14) == '{'
      && SingleCharSymbol(15) == '\n' && SingleCharSymbol(16) == '[' && SingleCharSymbol(17) == ']'
      && SingleCharSymbol(18) == '(' && SingleCharSymbol(19) == ')' && SingleCharSymbol(20) == ','
      && SingleCharSymbol(21) == '"';
  }

  /** The classification of a flushed buffer: the keyword loop, then the pattern loop. */
  method ClassifyBuffer(buffer: string) returns (kind: TokenKind)
    ensures kind == Classify(buffer)
  {
    kind := Unknown;
    var j := 0;
    while j < KeywordCount
      invariant 0 <= j <= KeywordCount
      invariant KeywordFrom(buffer, j) == KeywordFrom(buffer, 0)
    {
      if buffer == KeywordAt(j) {
        kind := KeywordKindAt(j);
        return;
      }
      j := j + 1;
    }
    j := 0;
    while j < PatternCount
      invariant 0 <= j <= PatternCount
      invariant j > 0 ==> !IsNumberLexeme(buffer)
      invariant j > 1 ==> !IsIdentifierLexeme(buffer)
      invariant kind == Unknown
    {
      if PatternMatches(j, buffer) {
        kind := PatternKindAt(j);
        return;
      }
      j := j + 1;
    }
  }

  /**
   * The two table lookups at the head of an iteration of `tokenize`: the
   * symbol token at `i` (with `line`), and the index of its last character.
   */
  method RecogniseSymbol(code: string, i: nat, line: int) returns (special: Token, last: nat)
    requires i < |code|
    ensures special == Token(SymbolAt(code, i).0, SymbolAt(code, i).1, line)
    ensures last + 1 == i + Width(code, i)
    ensures last != i ==> special.kind != Unknown
  {
    special := Token(Unknown, [code[i]], line);
    last := i;
    var m := MatchMultiChar(code, i);
    if m < MultiCharCount {
      special := Token(MultiCharKindAt(m), MultiCharLexeme(m), line);
      last := i + |MultiCharLexeme(m)| - 1;
    }
    if special.kind == Unknown {
      var kind := MatchSingleChar(code[last]);
      special := special.(kind := kind);
    }
  }

  /**
   * The body of the loop of `tokenize` once the symbol at the current
   * position is known: flush the buffer and push the symbol at a boundary,
   * otherwise append the character `ch` to the buffer.
   */
  method Absorb(tokens0: seq<Token>, current0: string, raw0: bool, line0: int, special: Token, ch: char)
    returns (tokens: seq<Token>, current: string, raw: bool, line: int)
    ensures LexState(tokens, current, raw, line) == Advance(LexState(tokens0, current0, raw0, line0), special, ch)
  {
    tokens, current, raw, line := tokens0, current0, raw0, line0;
    if (IsBlank(ch) && !raw) || special.kind != Unknown {
      if current == "" {
        if special.kind != Unknown {
          raw := ToggleRaw(raw, special.kind);
          tokens := tokens + [special];
          if special.value == "\n" {
            line := line + 1;
          }
        }
      } else {
        var kind := ClassifyBuffer(current);
        var token := Token(kind, current, line);
        raw := ToggleRaw(raw, token.kind);
        tokens := tokens + [token];
        if special.kind != Unknown {
          raw := ToggleRaw(raw, special.kind);
          if special.value == "\n" {
            line := line + 1;
          }
          tokens := tokens + [special];
        }
        current := "";
      }
    } else {
      current := current + [ch];
    }
  }

  /** `Lexer::tokenize`. */
  method Tokenize(source: string) returns (tokens: seq<Token>)
    ensures tokens == Lex(source)
  {
    var code := source + " ";
    tokens := [];
    var line := 1;
    var current := "";
    var raw := false;
    var i := 0;
    while i < |code|
      invariant 0 <= i <= |code|
      invariant Run(code, |code|, i, LexState(tokens, current, raw, line)).tokens == Lex(source)
      decreases |code| - i
    {
      ghost var i0 := i;
      ghost var st := LexState(tokens, current, raw, line);
      var special;
      special, i := RecogniseSymbol(code, i, line);
      RunAdvance(code, i0, st, special, i);
      tokens, current, raw, line := Absorb(tokens, current, raw, line, special, code[i]);
      i := i + 1;
    }
  }
}
