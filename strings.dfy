/**
 * The two string helpers at the top of compiler.c++: `escape`, which makes
 * a token value printable on one line, and `split_string`, which cuts a
 * string at each occurrence of a delimiter.
 */
module Strings {
  import opened Wrappers

  // ---------------------------------------------------------------- escape

  /**
   * The replacement of one character: newline, tab and double quote get a
   * two-character backslash form.  The replacement is printable on one line
   * and, unless `c` is a backslash, reads back as `c`.
   */
  function EscapedChar(c: char): (r: string)
    ensures |r| == (if IsSpecial(c) then 2 else 1)
    ensures '\n' !in r && '\t' !in r
    ensures c != '\\' ==> Unescape(r) == [c]
  {
    match c
    case '\n' => "\\n"
    case '\t' => "\\t"
    case '"' => "\\\""
    case _ => [c]
  }

  /** The escaped form of a whole string, character by character. */
  function Escape(s: string): string
  {
    if s == [] then [] else Escape(s[..|s| - 1]) + EscapedChar(s[|s| - 1])
  }

  /** `escape(str)`: the loop appends the replacement of each character in turn. */
  method EscapeString(str: string) returns (str2: string)
    ensures str2 == Escape(str)
  {
    str2 := "";
    var i := 0;
    while i < |str|
      invariant 0 <= i <= |str|
      invariant str2 == Escape(str[..i])
    {
      match str[i] {
        case '\n' =>
          str2 := str2 + "\\n";
        case '\t' =>
          str2 := str2 + "\\t";
        case '"' =>
          str2 := str2 + "\\\"";
        case _ =>
          str2 := str2 + [str[i]];
      }
      assert str[..i + 1][..i] == str[..i];
      i := i + 1;
    }
    assert str[..|str|] == str;
  }

  /** Escaping distributes over concatenation. */
  lemma {:induction false} EscapeConcat(a: string, b: string)
    ensures Escape(a + b) == Escape(a) + Escape(b)
    decreases |b|
  {
    if b == [] {
      assert a + b == a;
    } else {
      var b' := b[..|b| - 1];
      assert (a + b)[..|a + b| - 1] == a + b';
      assert (a + b)[|a + b| - 1] == b[|b| - 1];
      EscapeConcat(a, b');
      assert Escape(a + b) == Escape(a + b') + EscapedChar(b[|b| - 1]);
    }
  }

  /** The escaped string holds no newline and no tab, so it prints on one line. */
  lemma {:induction false} EscapeOneLine(s: string)
    ensures forall k :: 0 <= k < |Escape(s)| ==> Escape(s)[k] != '\n' && Escape(s)[k] != '\t'
    decreases |s|
  {
    if s != [] {
      EscapeOneLine(s[..|s| - 1]);
    }
  }

  /** Escaping never shortens: each special character grows by one. */
  lemma {:induction false} EscapeLength(s: string)
    ensures |Escape(s)| == |s| + |Specials(s)|
    decreases |s|
  {
    if s != [] {
      EscapeLength(s[..|s| - 1]);
      assert s[..|s| - 1] + [s[|s| - 1]] == s;
      SpecialsConcat(s[..|s| - 1], [s[|s| - 1]]);
    }
  }

  predicate IsSpecial(c: char) { c == '\n' || c == '\t' || c == '"' }

  /** The characters `escape` rewrites, in order. */
  function Specials(s: string): string
  {
    if s == [] then [] else Specials(s[..|s| - 1]) + (if IsSpecial(s[|s| - 1]) then [s[|s| - 1]] else [])
  }

  lemma {:induction false} SpecialsConcat(a: string, b: string)
    ensures Specials(a + b) == Specials(a) + Specials(b)
    decreases |b|
  {
    if b == [] {
      assert a + b == a;
    } else {
      var b' := b[..|b| - 1];
      assert (a + b)[..|a + b| - 1] == a + b';
      SpecialsConcat(a, b');
    }
  }

  /** Reading the escapes back: the inverse of `Escape` on strings without a backslash. */
  function Unescape(e: string): string
    decreases |e|
  {
    if e == [] then []
    else if e[0] == '\\' && |e| >= 2 && e[1] == 'n' then "\n" + Unescape(e[2..])
    else if e[0] == '\\' && |e| >= 2 && e[1] == 't' then "\t" + Unescape(e[2..])
    else if e[0] == '\\' && |e| >= 2 && e[1] == '"' then "\"" + Unescape(e[2..])
    else [e[0]] + Unescape(e[1..])
  }

  /** Reading back one escaped character. */
  lemma UnescapeStep(c: char, rest: string)
    requires c != '\\'
    ensures Unescape(EscapedChar(c) + rest) == [c] + Unescape(rest)
  {
    var e := EscapedChar(c) + rest;
    if IsSpecial(c) {
      assert e[2..] == rest;
    } else {
      assert e[1..] == rest;
    }
  }

  /** Without a backslash in the input the escaped form determines the input. */
  lemma {:induction false} UnescapeEscape(s: string)
    requires forall k :: 0 <= k < |s| ==> s[k] != '\\'
    ensures Unescape(Escape(s)) == s
    decreases |s|
  {
    if s != [] {
      var rest := s[1..];
      assert s == [s[0]] + rest;
      EscapeConcat([s[0]], rest);
      assert [s[0]][..0] == [];
      assert Escape([s[0]]) == EscapedChar(s[0]);
      UnescapeEscape(rest);
      UnescapeStep(s[0], Escape(rest));
    }
  }

  /** With a backslash it does not: a backslash followed by `n` and a newline print alike. */
  lemma EscapeCollision()
    ensures Escape("\\n") == Escape("\n")
  {
    assert "\\n"[..1] == "\\";
    assert "\\"[..0] == [];
  }

  // ---------------------------------------------------------- split_string

  /** `delimiter` occurs in `str` at position `p`. */
  predicate MatchesAt(str: string, delimiter: string, p: nat)
  {
    p + |delimiter| <= |str| && str[p..p + |delimiter|] == delimiter
  }

  /** `str.find(delimiter, from)`: the first occurrence at or after `from`, if any. */
  function Find(str: string, delimiter: string, from: nat): (pos: Option<nat>)
    requires from <= |str|
    ensures pos.Some? ==> from <= pos.value && MatchesAt(str, delimiter, pos.value)
    ensures pos.Some? ==> forall q :: from <= q < pos.value ==> !MatchesAt(str, delimiter, q)
    ensures pos.None? ==> forall q :: from <= q <= |str| ==> !MatchesAt(str, delimiter, q)
    decreases |str| - from
  {
    if MatchesAt(str, delimiter, from) then Some(from)
    else if from == |str| then None
    else Find(str, delimiter, from + 1)
  }

  /**
   * The pieces from `prev` on, the search resuming `step` characters after
   * each occurrence found.
   */
  function SplitFrom(str: string, delimiter: string, prev: nat, step: nat): (parts: seq<string>)
    requires prev <= |str| && 1 <= step <= |delimiter|
    ensures |parts| > 0
    decreases |str| - prev
  {
    match Find(str, delimiter, prev)
    case None => [str[prev..]]
    case Some(pos) => [str[prev..pos]] + SplitFrom(str, delimiter, pos + step, step)
  }

  /** The piece before an occurrence found at `pos`, then the pieces after it. */
  lemma SplitFromFound(str: string, delimiter: string, prev: nat, step: nat, pos: nat)
    requires prev <= |str| && 1 <= step <= |delimiter| && Find(str, delimiter, prev) == Some(pos)
    ensures pos + step <= |str|
    ensures SplitFrom(str, delimiter, prev, step) == [str[prev..pos]] + SplitFrom(str, delimiter, pos + step, step)
  {
  }

  /**
   * `split_string(str, delimiter)` as written: after an occurrence at `pos`
   * the search resumes at `pos + 1`.  An empty delimiter is found at every
   * position until `prev` passes the end, where `substr` throws: `None`.
   */
  function Split(str: string, delimiter: string): (r: Option<seq<string>>)
    ensures r.None? <==> delimiter == []
  {
    if delimiter == [] then None else Some(SplitFrom(str, delimiter, 0, 1))
  }

  /** The split the function's name promises: the search resumes past the whole delimiter. */
  function SplitFixed(str: string, delimiter: string): seq<string>
    requires delimiter != []
  {
    SplitFrom(str, delimiter, 0, |delimiter|)
  }

  /** `split_string`: the loop pushes the piece before each occurrence, then the rest. */
  method SplitString(str: string, delimiter: string) returns (strings: Option<seq<string>>)
    ensures strings == Split(str, delimiter)
  {
    if delimiter == [] {
      return None;
    }
    var pieces: seq<string> := [];
    var prev: nat := 0;
    var found := Find(str, delimiter, prev);
    while found.Some?
      invariant prev <= |str| && found == Find(str, delimiter, prev)
      invariant pieces + SplitFrom(str, delimiter, prev, 1) == SplitFrom(str, delimiter, 0, 1)
      decreases |str| - prev
    {
      var pos := found.value;
      SplitFromFound(str, delimiter, prev, 1, pos);
      assert pieces + ([str[prev..pos]] + SplitFrom(str, delimiter, pos + 1, 1))
          == (pieces + [str[prev..pos]]) + SplitFrom(str, delimiter, pos + 1, 1);
      pieces := pieces + [str[prev..pos]];
      prev := pos + 1;
      found := Find(str, delimiter, prev);
    }
    pieces := pieces + [str[prev..]];
    strings := Some(pieces);
  }

  /** The pieces joined back with the delimiter between them. */
  function Join(parts: seq<string>, delimiter: string): string
  {
    if parts == [] then [] else if |parts| == 1 then parts[0] else parts[0] + delimiter + Join(parts[1..], delimiter)
  }

  /** Joining the corrected pieces gives back the string, for every non-empty delimiter. */
  lemma {:induction false} JoinSplitFrom(str: string, delimiter: string, prev: nat)
    requires prev <= |str| && delimiter != []
    ensures Join(SplitFrom(str, delimiter, prev, |delimiter|), delimiter) == str[prev..]
    decreases |str| - prev
  {
    match Find(str, delimiter, prev)
    case None =>
    case Some(pos) =>
      var next := pos + |delimiter|;
      var rest := SplitFrom(str, delimiter, next, |delimiter|);
      var parts := [str[prev..pos]] + rest;
      JoinSplitFrom(str, delimiter, next);
      assert parts[0] == str[prev..pos] && parts[1..] == rest && |parts| > 1;
      assert Join(parts, delimiter) == str[prev..pos] + delimiter + str[next..];
      assert str[prev..] == str[prev..pos] + str[pos..next] + str[next..];
  }

  lemma SplitFixedJoin(str: string, delimiter: string)
    requires delimiter != []
    ensures Join(SplitFixed(str, delimiter), delimiter) == str
  {
    JoinSplitFrom(str, delimiter, 0);
    assert str[0..] == str;
  }

  /** An occurrence inside a slice is an occurrence in the whole string. */
  lemma MatchInSlice(str: string, delimiter: string, lo: nat, hi: nat, q: nat)
    requires lo <= hi <= |str| && MatchesAt(str[lo..hi], delimiter, q)
    ensures MatchesAt(str, delimiter, lo + q) && lo + q + |delimiter| <= hi
  {
    assert q + |delimiter| <= hi - lo;
    var inner, outer := str[lo..hi][q..q + |delimiter|], str[lo + q..lo + q + |delimiter|];
    forall t | 0 <= t < |delimiter|
      ensures inner[t] == outer[t]
    {
      assert inner[t] == str[lo..hi][q + t] == str[lo + q + t];
    }
    assert inner == outer;
  }

  /** No corrected piece contains the delimiter. */
  lemma {:induction false} SplitFromPieces(str: string, delimiter: string, prev: nat)
    requires prev <= |str| && delimiter != []
    ensures var parts := SplitFrom(str, delimiter, prev, |delimiter|);
      forall m, q :: 0 <= m < |parts| && 0 <= q ==> !MatchesAt(parts[m], delimiter, q)
    decreases |str| - prev
  {
    var parts := SplitFrom(str, delimiter, prev, |delimiter|);
    match Find(str, delimiter, prev)
    case None =>
      assert parts == [str[prev..]] && str[prev..] == str[prev..|str|];
      forall q | 0 <= q
        ensures !MatchesAt(str[prev..], delimiter, q)
      {
        if MatchesAt(str[prev..|str|], delimiter, q) {
          MatchInSlice(str, delimiter, prev, |str|, q);
        }
      }
    case Some(pos) =>
      SplitFromPieces(str, delimiter, pos + |delimiter|);
      forall q | 0 <= q
        ensures !MatchesAt(str[prev..pos], delimiter, q)
      {
        if MatchesAt(str[prev..pos], delimiter, q) {
          MatchInSlice(str, delimiter, prev, pos, q);
        }
      }
      assert parts == [str[prev..pos]] + SplitFrom(str, delimiter, pos + |delimiter|, |delimiter|);
      forall m, q | 0 <= m < |parts| && 0 <= q
        ensures !MatchesAt(parts[m], delimiter, q)
      {
        if m > 0 {
          assert parts[m] == SplitFrom(str, delimiter, pos + |delimiter|, |delimiter|)[m - 1];
        }
      }
  }

  /** With a one-character delimiter, the only one the compiler passes, the split is the corrected one. */
  lemma SplitOneChar(str: string, delimiter: string)
    requires |delimiter| == 1
    ensures Split(str, delimiter) == Some(SplitFixed(str, delimiter))
    ensures Join(Split(str, delimiter).value, delimiter) == str
  {
    SplitFixedJoin(str, delimiter);
  }

  /**
   * With a longer delimiter the search resumes inside the occurrence:
   * `"a::b"` cut at `"::"` gives `"a"` and `":b"`, which do not join back.
   */
  lemma SplitOverlapExample()
    ensures Split("a::b", "::") == Some(["a", ":b"])
    ensures SplitFixed("a::b", "::") == ["a", "b"]
    ensures Join(["a", ":b"], "::") != "a::b"
  {
    var str, d := "a::b", "::";
    assert str[1..3] == d && str[0..2][0] != d[0] && str[2..4][1] != d[1];
    assert Find(str, d, 4) == None;
    assert Find(str, d, 3) == None;
    assert Find(str, d, 2) == None;
    assert Find(str, d, 1) == Some(1);
    assert Find(str, d, 0) == Some(1);
    assert str[0..1] == "a" && str[2..] == ":b" && str[3..] == "b";
    assert SplitFrom(str, d, 2, 1) == [":b"];
    assert SplitFrom(str, d, 0, 1) == ["a"] + [":b"] == ["a", ":b"];
    assert SplitFrom(str, d, 3, 2) == ["b"];
    assert SplitFrom(str, d, 0, 2) == ["a"] + ["b"] == ["a", "b"];
    assert ["a", ":b"][1..] == [":b"];
    assert Join(["a", ":b"], "::") == "a" + "::" + ":b";
    assert |"a" + "::" + ":b"| == 5;
  }
}
