/**
 * Facts about the lexer's fixed tables: which entries are reachable, which
 * are shadowed, and the shape of what is recognised at one position.
 */
module LexerTables {
  import opened Wrappers
  import opened Lexer

  /**
   * The first fifteen entries of the operator list are operator symbols;
   * the last four, `}`, `@`, `?` and the backslash, are unknown to the
   * single-character table and so are ordinary buffer characters.
   */
  lemma OperatorList(j: nat)
    requires j < 19
    ensures j < 15 ==> SingleCharKind(OperatorChar(j)) == Operator
    ensures 15 <= j ==> SingleCharKind(OperatorChar(j)) == Unknown
  {
  }

  /** The consulted keywords, class by class; every other lexeme misses the keyword table. */
  lemma KeywordClasses(s: string)
    ensures KeywordFrom(s, 0) == Some(Type) <==> s in {"void", "num", "str"}
    ensures KeywordFrom(s, 0) == Some(Null) <==> s in {"NULL", "null"}
    ensures KeywordFrom(s, 0) == Some(Number) <==> s in {"true", "false"}
    ensures KeywordFrom(s, 0) == Some(Keyword) <==> s in {"static", "macro", "func", "namespace", "merge", "to"}
    ensures KeywordFrom(s, 0) == None <==> s !in {"void", "num", "str", "NULL", "null", "true", "false", "static", "macro", "func", "namespace", "merge", "to"}
  {
    assert KeywordAt(0) == "void" && KeywordAt(1) == "num" && KeywordAt(2) == "str"
      && KeywordAt(3) == "NULL" && KeywordAt(4) == "null" && KeywordAt(5) == "true"
      && KeywordAt(6) == "false" && KeywordAt(7) == "static" && KeywordAt(8) == "macro"
      && KeywordAt(9) == "func" && KeywordAt(10) == "namespace" && KeywordAt(11) == "merge"
      && KeywordAt(12) == "to";
  }

  /** Spaces and tabs are not in the single-character table. */
  lemma BlankIsUnknown(ch: char)
    requires IsBlank(ch)
    ensures SingleCharKind(ch) == Unknown
  {
  }

  /** `serve`, the keyword list's entry 13, lies past its consulted part: it is an identifier. */
  lemma ServeIsIdentifier()
    ensures KeywordAt(13) == "serve" && Classify("serve") == Identifier
  {
    assert KeywordAt(13) == "serve";
    assert KeywordFrom("serve", 0) == None by { KeywordClasses("serve"); }
    assert IdentifierTail("erve") by {
      assert IdentifierTail("rve") by { assert IdentifierTail("ve") by { assert IdentifierTail("e"); } }
    }
  }

  /** `structure`, the keyword list's entry 14, lies past its consulted part: it is an identifier. */
  lemma StructureIsIdentifier()
    ensures KeywordAt(14) == "structure" && Classify("structure") == Identifier
  {
    assert KeywordAt(14) == "structure";
    assert KeywordFrom("structure", 0) == None by { KeywordClasses("structure"); }
    assert IsIdentifierLexeme("structure");
  }

  /** `->` is not consulted: its `-` is an operator symbol of its own and `>` another. */
  lemma ArrowIsTwoSymbols(c: string, i: nat)
    requires i + 1 < |c| && c[i] == '-' && c[i + 1] == '>'
    ensures SymbolAt(c, i) == (Operator, "-") && Width(c, i) == 1
    ensures SymbolAt(c, i + 1) == (Operator, ">")
  {
  }

  /** A flushed buffer never switches raw mode, whatever it holds. */
  lemma FlushKeepsRaw(raw: bool, s: string)
    ensures RawAfter(raw, Classify(s)) == raw
  {
  }

  /**
   * What is recognised at `i`: `*"` or `"*` (two characters), otherwise the
   * single character with its table kind.
   */
  lemma SymbolShape(c: string, i: nat)
    requires i < |c|
    ensures Width(c, i) == 1 || Width(c, i) == 2
    ensures Width(c, i) == 1 ==> SymbolAt(c, i) == (SingleCharKind(c[i]), [c[i]])
    ensures Width(c, i) == 2 ==>
      i + 2 <= |c|
      && ((SymbolAt(c, i) == (MultilineStringStart, "*\"") && c[i] == '*' && c[i + 1] == '"')
          || (SymbolAt(c, i) == (MultilineStringEnd, "\"*") && c[i] == '"' && c[i + 1] == '*'))
  {
  }
}
