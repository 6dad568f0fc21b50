/**
 * The JavaScript string built-ins the pipeline uses, written out on
 * `seq<char>`: `trim`/`trimStart`/`trimEnd`, the `\s` character class,
 * `replace(/\s+/g, " ")`, `split(",")`, `split(/\n{4,}/)`, `join`,
 * `slice(0, n)`, `startsWith`/`endsWith`, and number-to-string rendering.
 * Lengths are counted in characters (Unicode scalar values), not in UTF-16
 * code units.
 */
module JsString {
  import opened JsValue

  /* ---------------------------------------------------------------------- */
  /* Whitespace and trimming                                                */
  /* ---------------------------------------------------------------------- */

  /**
   * The ECMAScript WhiteSpace and LineTerminator code points: the set matched
   * by the regular-expression class `\s` and removed by `String.prototype.trim`.
   */
  predicate IsSpace(c: char) {
    var n := c as int;
    || n == 0x09 || n == 0x0A || n == 0x0B || n == 0x0C || n == 0x0D
    || n == 0x20 || n == 0xA0 || n == 0x1680
    || (0x2000 <= n <= 0x200A)
    || n == 0x2028 || n == 0x2029 || n == 0x202F || n == 0x205F
    || n == 0x3000 || n == 0xFEFF
  }

  predicate AllSpace(s: string) {
    forall i :: 0 <= i < |s| ==> IsSpace(s[i])
  }

  /** Neither starts nor ends with whitespace. */
  predicate IsTrimmed(s: string) {
    s == [] || (!IsSpace(s[0]) && !IsSpace(s[|s| - 1]))
  }

  /** `s.trimStart()` */
  function TrimStart(s: string): (r: string)
    ensures |r| <= |s|
    ensures r != [] ==> !IsSpace(r[0])
  {
    if s != [] && IsSpace(s[0]) then TrimStart(s[1..]) else s
  }

  /** `s.trimStart()` drops a whitespace prefix and keeps the rest. */
  lemma {:induction false} TrimStartShape(s: string)
    ensures var r := TrimStart(s); r == s[|s| - |r|..] && AllSpace(s[..|s| - |r|])
  {
    if s != [] && IsSpace(s[0]) {
      TrimStartShape(s[1..]);
      var r := TrimStart(s[1..]);
      assert s[1..][|s| - 1 - |r|..] == s[|s| - |r|..];
      assert forall i :: 1 <= i < |s| - |r| ==> s[i] == s[1..][..|s| - 1 - |r|][i - 1];
    }
  }

  /** `s.trimEnd()` */
  function TrimEnd(s: string): (r: string)
    ensures |r| <= |s|
    ensures r != [] ==> !IsSpace(r[|r| - 1])
  {
    if s != [] && IsSpace(s[|s| - 1]) then TrimEnd(s[..|s| - 1]) else s
  }

  /** `s.trimEnd()` drops a whitespace suffix and keeps the rest. */
  lemma {:induction false} TrimEndShape(s: string)
    ensures var r := TrimEnd(s); r == s[..|r|] && AllSpace(s[|r|..])
  {
    if s != [] && IsSpace(s[|s| - 1]) {
      TrimEndShape(s[..|s| - 1]);
      var r := TrimEnd(s[..|s| - 1]);
      assert s[..|s| - 1][..|r|] == s[..|r|];
      assert forall i :: |r| <= i < |s| - 1 ==> s[i] == s[..|s| - 1][|r|..][i - |r|];
    }
  }

  /** `s.trim()`: the longest infix that starts and ends with non-whitespace. */
  function Trim(s: string): (r: string)
    ensures IsTrimmed(r) && |r| <= |s|
    ensures r == [] <==> AllSpace(s)
    ensures IsTrimmed(s) ==> r == s
  {
    TrimEmptyIff(s);
    TrimStartShape(s);
    TrimEndShape(TrimStart(s));
    TrimEnd(TrimStart(s))
  }

  lemma {:induction false} TrimEmptyIff(s: string)
    ensures TrimEnd(TrimStart(s)) == [] <==> AllSpace(s)
  {
    var t := TrimStart(s);
    var k := |s| - |t|;
    TrimStartShape(s);
    TrimEndShape(t);
    assert |t| > 0 ==> t[0] == s[k];
    assert AllSpace(s) ==> t == [];
    var r := TrimEnd(t);
    assert r == [] ==> t[|r|..] == t;
    assert r == [] ==> t == [];
    assert t == [] ==> s[..k] == s;
  }

  /** The characters of `s` that are not whitespace, in order. */
  function NonSpace(s: string): string {
    if s == [] then []
    else if IsSpace(s[0]) then NonSpace(s[1..])
    else [s[0]] + NonSpace(s[1..])
  }

  lemma {:induction false} NonSpaceAppend(a: string, b: string)
    ensures NonSpace(a + b) == NonSpace(a) + NonSpace(b)
  {
    if a == [] {
      assert a + b == b;
    } else {
      assert (a + b)[1..] == a[1..] + b;
      NonSpaceAppend(a[1..], b);
    }
  }

  lemma {:induction false} NonSpaceOfSpaces(s: string)
    requires AllSpace(s)
    ensures NonSpace(s) == []
  {
    if s != [] {
      NonSpaceOfSpaces(s[1..]);
    }
  }

  /** Trimming removes whitespace only. */
  lemma {:induction false} TrimStartKeepsNonSpace(s: string)
    ensures NonSpace(TrimStart(s)) == NonSpace(s)
  {
    if s != [] && IsSpace(s[0]) {
      TrimStartKeepsNonSpace(s[1..]);
    }
  }

  /* ---------------------------------------------------------------------- */
  /* replace(/\s+/g, " ")                                                   */
  /* ---------------------------------------------------------------------- */

  /** No two whitespace characters in a row. */
  ghost predicate NoAdjacentSpaces(s: string) {
    forall i, j :: 0 <= i < j < |s| && j == i + 1 ==> !IsSpace(s[i]) || !IsSpace(s[j])
  }

  /** `s.replace(/\s+/g, " ")`: every maximal whitespace run becomes one space. */
  function CollapseSpaces(s: string): (r: string)
    ensures (r == []) == (s == [])
    ensures r != [] ==> (IsSpace(r[0]) <==> IsSpace(s[0]))
    ensures forall i :: 0 <= i < |r| && IsSpace(r[i]) ==> r[i] == ' '
    ensures NoAdjacentSpaces(r)
    ensures NonSpace(r) == NonSpace(s)
    decreases |s|
  {
    if s == [] then []
    else if IsSpace(s[0]) then
      var t := TrimStart(s);
      TrimStartKeepsNonSpace(s);
      var rest := CollapseSpaces(t);
      CollapsedCons(' ', rest);
      " " + rest
    else
      var rest := CollapseSpaces(s[1..]);
      CollapsedCons(s[0], rest);
      [s[0]] + rest
  }

  /** Putting one character in front of collapsed text, as `CollapseSpaces` does. */
  lemma CollapsedCons(c: char, rest: string)
    requires IsSpace(c) ==> c == ' ' && (rest != [] ==> !IsSpace(rest[0]))
    requires forall i :: 0 <= i < |rest| && IsSpace(rest[i]) ==> rest[i] == ' '
    requires NoAdjacentSpaces(rest)
    ensures forall i :: 0 <= i < |[c] + rest| && IsSpace(([c] + rest)[i]) ==> ([c] + rest)[i] == ' '
    ensures NoAdjacentSpaces([c] + rest)
    ensures NonSpace([c] + rest) == if IsSpace(c) then NonSpace(rest) else [c] + NonSpace(rest)
  {
    var r := [c] + rest;
    assert r[1..] == rest;
    forall i | 0 < i < |r|
      ensures r[i] == rest[i - 1]
    {
    }
  }

  /** `trimStart` of a concatenation: the second part matters only when the first is blank. */
  lemma {:induction false} TrimStartAppend(a: string, b: string)
    ensures !AllSpace(a) ==> TrimStart(a + b) == TrimStart(a) + b
    ensures AllSpace(a) ==> TrimStart(a + b) == TrimStart(b)
  {
    if a == [] {
      assert a + b == b;
    } else if IsSpace(a[0]) {
      assert (a + b)[1..] == a[1..] + b;
      assert AllSpace(a) <==> AllSpace(a[1..]) by {
        assert forall i :: 1 <= i < |a| ==> a[i] == a[1..][i - 1];
      }
      TrimStartAppend(a[1..], b);
    }
  }

  /** A non-empty whitespace run is replaced by exactly one space. */
  lemma {:induction false} CollapseRun(w: string)
    requires w != [] && AllSpace(w)
    ensures CollapseSpaces(w) == " "
  {
    TrimStartShape(w);
    assert TrimStart(w) == [];
  }

  /**
   * Text splits where no whitespace run is cut in two: the replacement acts
   * on each part on its own, so each run keeps its place as one space.
   */
  lemma {:induction false} CollapseAppend(a: string, b: string)
    requires a == [] || b == [] || !IsSpace(a[|a| - 1]) || !IsSpace(b[0])
    ensures CollapseSpaces(a + b) == CollapseSpaces(a) + CollapseSpaces(b)
    decreases |a|
  {
    if a == [] {
      assert a + b == b;
    } else if IsSpace(a[0]) {
      CollapseAppendAtRun(a, b);
    } else {
      CollapseAppend(a[1..], b);
      CollapseAppendPastChar(a, b);
    }
  }

  /** `CollapseAppend` when the first part starts with whitespace. */
  lemma {:induction false} CollapseAppendAtRun(a: string, b: string)
    requires a != [] && IsSpace(a[0])
    requires b == [] || !IsSpace(a[|a| - 1]) || !IsSpace(b[0])
    ensures CollapseSpaces(a + b) == CollapseSpaces(a) + CollapseSpaces(b)
    decreases |a|, 0
  {
    if AllSpace(a) {
      CollapseAppendRun(a, b);
    } else {
      var t := TrimStartRest(a, b);
      CollapseAppend(t, b);
      CollapseAppendPastRun(a, b, t);
    }
  }

  /** `CollapseAppend` when the first part is one whole whitespace run. */
  lemma CollapseAppendRun(a: string, b: string)
    requires a != [] && AllSpace(a)
    requires b == [] || !IsSpace(b[0])
    ensures CollapseSpaces(a + b) == CollapseSpaces(a) + CollapseSpaces(b)
  {
    assert (a + b)[0] == a[0];
    CollapseAtSpace(a + b);
    TrimStartAppend(a, b);
    CollapseRun(a);
    assert TrimStart(b) == b;
  }

  /** The step of `CollapseAppendAtRun` past the leading run, given the result for the rest. */
  lemma CollapseAppendPastRun(a: string, b: string, t: string)
    requires a != [] && IsSpace(a[0])
    requires t == TrimStart(a) && TrimStart(a + b) == t + b
    requires CollapseSpaces(t + b) == CollapseSpaces(t) + CollapseSpaces(b)
    ensures CollapseSpaces(a + b) == CollapseSpaces(a) + CollapseSpaces(b)
  {
    AppendTail(a, b);
    CollapseAtSpace(a + b);
    CollapseAtSpace(a);
    AppendAssoc(" ", CollapseSpaces(t), CollapseSpaces(b));
  }

  /** The step of `CollapseAppend` past a leading non-whitespace character, given the result for the rest. */
  lemma CollapseAppendPastChar(a: string, b: string)
    requires a != [] && !IsSpace(a[0])
    requires CollapseSpaces(a[1..] + b) == CollapseSpaces(a[1..]) + CollapseSpaces(b)
    ensures CollapseSpaces(a + b) == CollapseSpaces(a) + CollapseSpaces(b)
  {
    AppendTail(a, b);
    CollapseAtChar(a + b);
    CollapseAtChar(a);
    AppendAssoc([a[0]], CollapseSpaces(a[1..]), CollapseSpaces(b));
  }

  /** Collapsing keeps a final non-whitespace character in place. */
  lemma CollapseKeepsLast(s: string)
    requires s != [] && !IsSpace(s[|s| - 1])
    ensures CollapseSpaces(s) != [] && CollapseSpaces(s)[|CollapseSpaces(s)| - 1] == s[|s| - 1]
  {
    var c := s[|s| - 1];
    assert s == s[..|s| - 1] + [c];
    CollapseAppend(s[..|s| - 1], [c]);
    CollapseAtChar([c]);
    assert [c][1..] == [];
  }

  /** A whitespace run between two words collapses to one space between their collapsed forms. */
  lemma CollapseWordGap(x: string, w: string, y: string)
    requires x != [] && !IsSpace(x[|x| - 1]) && y != [] && !IsSpace(y[0])
    requires w != [] && AllSpace(w)
    ensures CollapseSpaces(x + w + y) == CollapseSpaces(x) + " " + CollapseSpaces(y)
  {
    AppendAssoc(x, w, y);
    CollapseAppend(x, w + y);
    CollapseAppend(w, y);
    CollapseRun(w);
    AppendAssoc(CollapseSpaces(x), " ", CollapseSpaces(y));
  }

  /** Collapsing trimmed text keeps it trimmed. */
  lemma CollapseTrimmed(s: string)
    requires s != [] && IsTrimmed(s)
    ensures CollapseSpaces(s) != [] && IsTrimmed(CollapseSpaces(s))
  {
    CollapseKeepsLast(s);
  }

  lemma AppendTail(a: string, b: string)
    requires a != []
    ensures (a + b)[0] == a[0] && (a + b)[1..] == a[1..] + b
  {
  }

  lemma AppendAssoc(x: string, y: string, z: string)
    ensures x + (y + z) == (x + y) + z
  {
  }

  lemma CollapseAtChar(s: string)
    requires s != [] && !IsSpace(s[0])
    ensures CollapseSpaces(s) == [s[0]] + CollapseSpaces(s[1..])
  {
  }

  lemma CollapseAtSpace(s: string)
    requires s != [] && IsSpace(s[0])
    ensures CollapseSpaces(s) == " " + CollapseSpaces(TrimStart(s))
  {
  }

  /** What is left of a non-blank text after `trimStart`, followed by more text. */
  lemma {:induction false} TrimStartRest(a: string, b: string) returns (t: string)
    requires a != [] && IsSpace(a[0]) && !AllSpace(a)
    ensures t == TrimStart(a) && TrimStart(a + b) == t + b
    ensures t != [] && |t| < |a| && t[|t| - 1] == a[|a| - 1]
  {
    TrimStartAppend(a, b);
    TrimStartShape(a);
    t := TrimStart(a);
  }

  /* ---------------------------------------------------------------------- */
  /* join, split(",")                                                        */
  /* ---------------------------------------------------------------------- */

  /** `parts.join(sep)` */
  function Join(parts: seq<string>, sep: string): (r: string)
    ensures parts != [] ==> |parts[0]| <= |r| && r[..|parts[0]|] == parts[0]
    ensures parts != [] ==> |parts[|parts| - 1]| <= |r| && r[|r| - |parts[|parts| - 1]|..] == parts[|parts| - 1]
  {
    if |parts| == 0 then []
    else if |parts| == 1 then parts[0]
    else parts[0] + sep + Join(parts[1..], sep)
  }

  /** `s.split(sep)` for a one-character separator: `""` splits to `[""]`. */
  function Split(s: string, sep: char): (r: seq<string>)
    ensures |r| >= 1
    ensures forall i :: 0 <= i < |r| ==> sep !in r[i]
  {
    if s == [] then [[]]
    else
      var rest := Split(s[1..], sep);
      if s[0] == sep then [[]] + rest
      else [[s[0]] + rest[0]] + rest[1..]
  }

  /** Splitting and re-joining with the same separator gives the string back. */
  lemma {:induction false} SplitJoin(s: string, sep: char)
    ensures Join(Split(s, sep), [sep]) == s
  {
    if s != [] {
      var rest := Split(s[1..], sep);
      assert Join(rest, [sep]) == s[1..] by {
        SplitJoin(s[1..], sep);
      }
      if s[0] == sep {
        assert Split(s, sep) == [[]] + rest;
      } else {
        var r := Split(s, sep);
        assert r == [[s[0]] + rest[0]] + rest[1..];
        if |rest| == 1 {
          assert Join(r, [sep]) == [s[0]] + rest[0];
        } else {
          assert r[1..] == rest[1..];
          assert Join(rest, [sep]) == rest[0] + [sep] + Join(rest[1..], [sep]);
        }
        assert s == [s[0]] + s[1..];
      }
    }
  }

  /** A separator-free prefix followed by the separator splits off as one piece. */
  lemma {:induction false} SplitAfterPiece(a: string, sep: char, b: string)
    requires sep !in a
    ensures Split(a + [sep] + b, sep) == [a] + Split(b, sep)
  {
    if a == [] {
      assert a + [sep] + b == [sep] + b;
      assert ([sep] + b)[1..] == b;
    } else {
      assert (a + [sep] + b)[1..] == a[1..] + [sep] + b;
      SplitAfterPiece(a[1..], sep, b);
      assert [a[0]] + a[1..] == a;
    }
  }

  /** A separator-free string does not split. */
  lemma {:induction false} SplitWhole(a: string, sep: char)
    requires sep !in a
    ensures Split(a, sep) == [a]
  {
    if a != [] {
      SplitWhole(a[1..], sep);
      assert [a[0]] + a[1..] == a;
    }
  }

  /* ---------------------------------------------------------------------- */
  /* split(/\n{4,}/)                                                         */
  /* ---------------------------------------------------------------------- */

  /** The separator the pipeline joins stanzas with. */
  const Gap: string := "\n\n\n\n"

  predicate StartsWithGap(s: string) {
    |s| >= 4 && s[0] == '\n' && s[1] == '\n' && s[2] == '\n' && s[3] == '\n'
  }

  /** `s` contains a run of four or more newlines. */
  predicate HasGap(s: string)
    decreases |s|
  {
    |s| >= 4 && (StartsWithGap(s) || HasGap(s[1..]))
  }

  /** Drops the leading run of newlines. */
  function DropNewlines(s: string): (r: string)
    ensures |r| <= |s| && r == s[|s| - |r|..]
    ensures forall i :: 0 <= i < |s| - |r| ==> s[i] == '\n'
    ensures r != [] ==> r[0] != '\n'
  {
    if s != [] && s[0] == '\n' then DropNewlines(s[1..]) else s
  }

  /**
   * `s.split(/\n{4,}/)`: the regular expression matches leftmost-first and
   * greedily, so every maximal run of four or more newlines is one separator.
   */
  function SplitGaps(s: string): (r: seq<string>)
    ensures |r| >= 1
    decreases |s|
  {
    if s == [] then [[]]
    else if StartsWithGap(s) then [[]] + SplitGaps(DropNewlines(s))
    else
      var rest := SplitGaps(s[1..]);
      [[s[0]] + rest[0]] + rest[1..]
  }

  /** The first piece is a prefix of the text, and all of it when nothing splits. */
  lemma {:induction false} SplitGapsFirst(s: string)
    ensures SplitGaps(s)[0] <= s
    ensures |SplitGaps(s)| == 1 ==> SplitGaps(s)[0] == s
    decreases |s|
  {
    if s != [] && !StartsWithGap(s) {
      SplitGapsFirst(s[1..]);
    }
  }

  /** The last piece is a suffix of the text; it is empty only after a trailing newline. */
  lemma {:induction false} SplitGapsLast(s: string)
    ensures EndsWith(s, Last(SplitGaps(s)))
    ensures Last(SplitGaps(s)) == [] ==> s == [] || s[|s| - 1] == '\n'
    decreases |s|
  {
    if s == [] {
    } else if StartsWithGap(s) {
      var d := DropNewlines(s);
      SplitGapsLast(d);
      SplitGapsLastAtGap(s);
      SuffixOfSuffix(s, d, Last(SplitGaps(d)));
    } else {
      SplitGapsLast(s[1..]);
      SplitGapsFirst(s[1..]);
      SplitGapsLastInPiece(s);
      if |SplitGaps(s[1..])| > 1 {
        SuffixOfSuffix(s, s[1..], Last(SplitGaps(s[1..])));
      }
    }
  }

  lemma SplitGapsLastAtGap(s: string)
    requires StartsWithGap(s)
    ensures Last(SplitGaps(s)) == Last(SplitGaps(DropNewlines(s)))
  {
  }

  lemma SplitGapsLastInPiece(s: string)
    requires s != [] && !StartsWithGap(s)
    requires |SplitGaps(s[1..])| == 1 ==> SplitGaps(s[1..])[0] == s[1..]
    ensures |SplitGaps(s[1..])| == 1 ==> Last(SplitGaps(s)) == s
    ensures |SplitGaps(s[1..])| > 1 ==> Last(SplitGaps(s)) == Last(SplitGaps(s[1..]))
  {
    if |SplitGaps(s[1..])| == 1 {
      assert [s[0]] + s[1..] == s;
    }
  }

  lemma SuffixOfSuffix(s: string, d: string, e: string)
    requires EndsWith(s, d) && EndsWith(d, e)
    ensures EndsWith(s, e)
    ensures e == [] && d != [] ==> d[|d| - 1] == s[|s| - 1]
  {
    assert s[|s| - |d|..][|d| - |e|..] == s[|s| - |e|..];
  }

  function Last<T>(xs: seq<T>): T
    requires |xs| >= 1
  {
    xs[|xs| - 1]
  }

  /** A four-newline run always splits the text. */
  lemma {:induction false} SplitGapsSplits(s: string)
    requires HasGap(s)
    ensures |SplitGaps(s)| >= 2
    decreases |s|
  {
    if !StartsWithGap(s) {
      SplitGapsSplits(s[1..]);
    }
  }

  /** No piece contains a four-newline run. */
  lemma {:induction false} SplitGapsPiecesGapFree(s: string)
    ensures forall i :: 0 <= i < |SplitGaps(s)| ==> !HasGap(SplitGaps(s)[i])
    decreases |s|
  {
    if s == [] {
    } else if StartsWithGap(s) {
      SplitGapsPiecesGapFree(DropNewlines(s));
    } else {
      var rest := SplitGaps(s[1..]);
      SplitGapsPiecesGapFree(s[1..]);
      SplitGapsFirst(s[1..]);
      var first := [s[0]] + rest[0];
      assert !HasGap(first) by {
        assert HasGap(first) == (|first| >= 4 && (StartsWithGap(first) || HasGap(rest[0])));
        if |first| >= 4 {
          assert first[..4] == s[..4];
        }
      }
      assert SplitGaps(s) == [first] + rest[1..];
    }
  }

  /** Text without a four-newline run is not split. */
  lemma {:induction false} SplitGapsNoGap(s: string)
    requires !HasGap(s)
    ensures SplitGaps(s) == [s]
  {
    if s != [] {
      assert !HasGap(s[1..]);
      SplitGapsNoGap(s[1..]);
      assert [s[0]] + s[1..] == s;
    }
  }

  /**
   * A gap between a piece that does not end with a newline and a rest that
   * does not start with one is exactly one separator.
   */
  lemma {:induction false} SplitGapsAfterPiece(a: string, b: string)
    requires !HasGap(a)
    requires a != [] ==> a[|a| - 1] != '\n'
    requires b != [] ==> b[0] != '\n'
    ensures SplitGaps(a + Gap + b) == [a] + SplitGaps(b)
  {
    var s := a + Gap + b;
    if a == [] {
      assert s == Gap + b;
      assert StartsWithGap(s);
      var d := DropNewlines(s);
      assert d == b by {
        assert s[4..] == b;
        DropNewlinesGap(b);
      }
    } else {
      assert !StartsWithGap(s) by {
        if |a| >= 4 {
          assert s[..4] == a[..4];
          assert StartsWithGap(s) ==> StartsWithGap(a);
        } else {
          assert s[|a| - 1] == a[|a| - 1];
        }
      }
      assert s[1..] == a[1..] + Gap + b;
      assert !HasGap(a[1..]) by {
        if |a| >= 4 { assert HasGap(a) == (StartsWithGap(a) || HasGap(a[1..])); }
      }
      SplitGapsAfterPiece(a[1..], b);
      assert [a[0]] + a[1..] == a;
    }
  }

  lemma DropNewlinesGap(b: string)
    requires b != [] ==> b[0] != '\n'
    ensures DropNewlines(Gap + b) == b
  {
    var s := Gap + b;
    assert s[1..][1..][1..][1..] == b;
  }

  /**
   * Joining gap-free pieces that neither start nor end with a newline by the
   * four-newline separator and splitting again gives the pieces back.
   */
  lemma {:induction false} SplitGapsJoin(parts: seq<string>)
    requires |parts| >= 1
    requires forall i :: 0 <= i < |parts| ==> !HasGap(parts[i])
    requires forall i :: 0 <= i < |parts| ==> parts[i] != [] && parts[i][0] != '\n' && parts[i][|parts[i]| - 1] != '\n'
    ensures SplitGaps(Join(parts, Gap)) == parts
  {
    if |parts| == 1 {
      SplitGapsNoGap(parts[0]);
    } else {
      var tail := parts[1..];
      assert [parts[0]] + tail == parts;
      assert forall i :: 0 <= i < |tail| ==> tail[i] == parts[i + 1];
      SplitGapsJoin(tail);
      var b := Join(tail, Gap);
      assert b != [] && b[0] == tail[0][0] by {
        JoinStartsWithFirst(tail, Gap);
      }
      assert Join(parts, Gap) == parts[0] + Gap + b;
      SplitGapsAfterPiece(parts[0], b);
    }
  }

  lemma {:induction false} JoinStartsWithFirst(parts: seq<string>, sep: string)
    requires |parts| >= 1 && parts[0] != []
    ensures Join(parts, sep) != [] && Join(parts, sep)[0] == parts[0][0]
  {
  }

  /* ---------------------------------------------------------------------- */
  /* The two regular-expression replacements of slugify                     */
  /* ---------------------------------------------------------------------- */

  /** A character of the class `[a-z0-9]`. */
  predicate IsSlugChar(c: char) {
    'a' <= c <= 'z' || '0' <= c <= '9'
  }

  /** The `[a-z0-9]` characters of `s`, in order. */
  function SlugChars(s: string): string {
    if s == [] then []
    else if IsSlugChar(s[0]) then [s[0]] + SlugChars(s[1..])
    else SlugChars(s[1..])
  }

  lemma {:induction false} SlugCharsAppend(a: string, b: string)
    ensures SlugChars(a + b) == SlugChars(a) + SlugChars(b)
  {
    if a == [] {
      assert a + b == b;
    } else {
      assert (a + b)[1..] == a[1..] + b;
      SlugCharsAppend(a[1..], b);
    }
  }

  lemma {:induction false} SlugCharsNone(s: string)
    requires forall i :: 0 <= i < |s| ==> !IsSlugChar(s[i])
    ensures SlugChars(s) == []
  {
    if s != [] {
      SlugCharsNone(s[1..]);
    }
  }

  /** Only `[a-z0-9]` and single hyphens. */
  ghost predicate HyphenSeparated(s: string) {
    && (forall i :: 0 <= i < |s| ==> IsSlugChar(s[i]) || s[i] == '-')
    && (forall i, j :: 0 <= i < j < |s| && j == i + 1 ==> s[i] != '-' || s[j] != '-')
  }

  /** Drops the leading run of characters outside `[a-z0-9]`. */
  function DropNonSlug(s: string): (r: string)
    ensures |r| <= |s|
    ensures r != [] ==> IsSlugChar(r[0])
  {
    if s != [] && !IsSlugChar(s[0]) then DropNonSlug(s[1..]) else s
  }

  /** What `DropNonSlug` drops is a prefix outside `[a-z0-9]`. */
  lemma {:induction false} DropNonSlugShape(s: string)
    ensures var r := DropNonSlug(s);
      && r == s[|s| - |r|..]
      && forall i :: 0 <= i < |s| - |r| ==> !IsSlugChar(s[i])
  {
    if s != [] && !IsSlugChar(s[0]) {
      DropNonSlugShape(s[1..]);
      var r := DropNonSlug(s[1..]);
      assert s[1..][|s| - 1 - |r|..] == s[|s| - |r|..];
      assert forall i :: 1 <= i < |s| - |r| ==> s[i] == s[1..][i - 1];
    }
  }

  /** `s.replace(/[^a-z0-9]+/g, "-")`: every maximal run outside `[a-z0-9]` becomes one hyphen. */
  function HyphenateRuns(s: string): (r: string)
    ensures (r == []) == (s == [])
    ensures r != [] ==> (r[0] == '-' <==> !IsSlugChar(s[0]))
    ensures HyphenSeparated(r)
    ensures SlugChars(r) == SlugChars(s)
    decreases |s|
  {
    if s == [] then []
    else if IsSlugChar(s[0]) then
      var rest := HyphenateRuns(s[1..]);
      assert ([s[0]] + rest)[1..] == rest;
      [s[0]] + rest
    else
      var d := DropNonSlug(s);
      var rest := HyphenateRuns(d);
      assert SlugChars(d) == SlugChars(s) by {
        DropNonSlugShape(s);
        var k := |s| - |d|;
        assert s == s[..k] + d;
        SlugCharsAppend(s[..k], d);
        SlugCharsNone(s[..k]);
      }
      assert ("-" + rest)[1..] == rest;
      "-" + rest
  }

  /** No character of the class `[a-z0-9]`. */
  predicate NoSlugChars(s: string) {
    forall i :: 0 <= i < |s| ==> !IsSlugChar(s[i])
  }

  /** Dropping the leading non-slug run of a concatenation. */
  lemma {:induction false} DropNonSlugAppend(a: string, b: string)
    ensures !NoSlugChars(a) ==> DropNonSlug(a + b) == DropNonSlug(a) + b
    ensures NoSlugChars(a) ==> DropNonSlug(a + b) == DropNonSlug(b)
  {
    if a == [] {
      assert a + b == b;
    } else if !IsSlugChar(a[0]) {
      assert (a + b)[1..] == a[1..] + b;
      assert NoSlugChars(a) <==> NoSlugChars(a[1..]) by {
        assert forall i :: 1 <= i < |a| ==> a[i] == a[1..][i - 1];
      }
      DropNonSlugAppend(a[1..], b);
    }
  }

  /** A non-empty run outside `[a-z0-9]` is replaced by exactly one hyphen. */
  lemma {:induction false} HyphenateRun(w: string)
    requires w != [] && NoSlugChars(w)
    ensures HyphenateRuns(w) == "-"
  {
    DropNonSlugShape(w);
    assert DropNonSlug(w) == [];
  }

  /**
   * Text splits where no non-slug run is cut in two: the replacement acts on
   * each part on its own, so each run keeps its place as one hyphen.
   */
  lemma {:induction false} HyphenateAppend(a: string, b: string)
    requires a == [] || b == [] || IsSlugChar(a[|a| - 1]) || IsSlugChar(b[0])
    ensures HyphenateRuns(a + b) == HyphenateRuns(a) + HyphenateRuns(b)
    decreases |a|
  {
    if a == [] {
      assert a + b == b;
    } else if !IsSlugChar(a[0]) {
      HyphenateAppendAtRun(a, b);
    } else {
      HyphenateAppend(a[1..], b);
      HyphenateAppendPastChar(a, b);
    }
  }

  /** The step of `HyphenateAppend` past a leading `[a-z0-9]` character, given the result for the rest. */
  lemma HyphenateAppendPastChar(a: string, b: string)
    requires a != [] && IsSlugChar(a[0])
    requires HyphenateRuns(a[1..] + b) == HyphenateRuns(a[1..]) + HyphenateRuns(b)
    ensures HyphenateRuns(a + b) == HyphenateRuns(a) + HyphenateRuns(b)
  {
    AppendTail(a, b);
    HyphenateAtSlug(a + b);
    HyphenateAtSlug(a);
    AppendAssoc([a[0]], HyphenateRuns(a[1..]), HyphenateRuns(b));
  }

  /** `HyphenateAppend` when the first part starts outside `[a-z0-9]`. */
  lemma {:induction false} HyphenateAppendAtRun(a: string, b: string)
    requires a != [] && !IsSlugChar(a[0])
    requires b == [] || IsSlugChar(a[|a| - 1]) || IsSlugChar(b[0])
    ensures HyphenateRuns(a + b) == HyphenateRuns(a) + HyphenateRuns(b)
    decreases |a|, 0
  {
    if NoSlugChars(a) {
      HyphenateAppendRun(a, b);
    } else {
      var d := DropNonSlugRest(a, b);
      HyphenateAppend(d, b);
      HyphenateAppendPastRun(a, b, d);
    }
  }

  /** `HyphenateAppend` when the first part is one whole run outside `[a-z0-9]`. */
  lemma HyphenateAppendRun(a: string, b: string)
    requires a != [] && NoSlugChars(a)
    requires b == [] || IsSlugChar(b[0])
    ensures HyphenateRuns(a + b) == HyphenateRuns(a) + HyphenateRuns(b)
  {
    assert (a + b)[0] == a[0];
    HyphenateAtRun(a + b);
    DropNonSlugAppend(a, b);
    HyphenateRun(a);
    assert DropNonSlug(b) == b;
  }

  /** The step of `HyphenateAppendAtRun` past the leading run, given the result for the rest. */
  lemma HyphenateAppendPastRun(a: string, b: string, d: string)
    requires a != [] && !IsSlugChar(a[0])
    requires d == DropNonSlug(a) && DropNonSlug(a + b) == d + b
    requires HyphenateRuns(d + b) == HyphenateRuns(d) + HyphenateRuns(b)
    ensures HyphenateRuns(a + b) == HyphenateRuns(a) + HyphenateRuns(b)
  {
    AppendTail(a, b);
    HyphenateAtRun(a + b);
    HyphenateAtRun(a);
    AppendAssoc("-", HyphenateRuns(d), HyphenateRuns(b));
  }

  lemma HyphenateAtSlug(s: string)
    requires s != [] && IsSlugChar(s[0])
    ensures HyphenateRuns(s) == [s[0]] + HyphenateRuns(s[1..])
  {
  }

  lemma HyphenateAtRun(s: string)
    requires s != [] && !IsSlugChar(s[0])
    ensures HyphenateRuns(s) == "-" + HyphenateRuns(DropNonSlug(s))
  {
  }

  /** What is left of a text with a slug character after its leading non-slug run, followed by more text. */
  lemma {:induction false} DropNonSlugRest(a: string, b: string) returns (d: string)
    requires a != [] && !IsSlugChar(a[0]) && !NoSlugChars(a)
    ensures d == DropNonSlug(a) && DropNonSlug(a + b) == d + b
    ensures d != [] && |d| < |a| && d[|d| - 1] == a[|a| - 1]
  {
    DropNonSlugAppend(a, b);
    DropNonSlugShape(a);
    d := DropNonSlug(a);
  }

  /** A run outside `[a-z0-9]` between two words of `[a-z0-9]` becomes one hyphen between them. */
  lemma HyphenateWordRun(x: string, w: string, y: string)
    requires x != [] && y != []
    requires forall i :: 0 <= i < |x| ==> IsSlugChar(x[i])
    requires forall i :: 0 <= i < |y| ==> IsSlugChar(y[i])
    requires w != [] && NoSlugChars(w)
    ensures HyphenateRuns(x + w + y) == x + "-" + y
  {
    AppendAssoc(x, w, y);
    HyphenateAppend(x, w + y);
    HyphenateAppend(w, y);
    HyphenateRun(w);
    PlainSlug(x);
    PlainSlug(y);
    AppendAssoc(x, "-", y);
  }

  /** Text made only of `[a-z0-9]` has nothing to hyphenate. */
  lemma {:induction false} PlainSlug(s: string)
    requires forall i :: 0 <= i < |s| ==> IsSlugChar(s[i])
    ensures HyphenateRuns(s) == s
  {
    if s != [] {
      PlainSlug(s[1..]);
      HyphenateAtSlug(s);
      assert [s[0]] + s[1..] == s;
    }
  }

  /** Drops the leading run of hyphens. */
  function DropLeadingHyphens(s: string): (r: string)
    ensures |r| <= |s|
    ensures r != [] ==> r[0] != '-'
  {
    if s != [] && s[0] == '-' then DropLeadingHyphens(s[1..]) else s
  }

  /** What `DropLeadingHyphens` drops is a prefix of hyphens. */
  lemma {:induction false} DropLeadingShape(s: string)
    ensures var r := DropLeadingHyphens(s);
      && r == s[|s| - |r|..]
      && forall i :: 0 <= i < |s| - |r| ==> s[i] == '-'
  {
    if s != [] && s[0] == '-' {
      DropLeadingShape(s[1..]);
      var r := DropLeadingHyphens(s[1..]);
      assert s[1..][|s| - 1 - |r|..] == s[|s| - |r|..];
      assert forall i :: 1 <= i < |s| - |r| ==> s[i] == s[1..][i - 1];
    }
  }

  /** Drops the trailing run of hyphens. */
  function DropTrailingHyphens(s: string): (r: string)
    ensures |r| <= |s|
    ensures r != [] ==> r[|r| - 1] != '-'
  {
    if s != [] && s[|s| - 1] == '-' then DropTrailingHyphens(s[..|s| - 1]) else s
  }

  /** What `DropTrailingHyphens` drops is a suffix of hyphens. */
  lemma {:induction false} DropTrailingShape(s: string)
    ensures var r := DropTrailingHyphens(s);
      && r == s[..|r|]
      && forall i :: |r| <= i < |s| ==> s[i] == '-'
  {
    if s != [] && s[|s| - 1] == '-' {
      DropTrailingShape(s[..|s| - 1]);
      var r := DropTrailingHyphens(s[..|s| - 1]);
      assert s[..|s| - 1][..|r|] == s[..|r|];
      assert forall i :: |r| <= i < |s| - 1 ==> s[i] == s[..|s| - 1][i];
    }
  }

  /**
   * `s.replace(/^-+|-+$/g, "")`. On hyphen-separated text it keeps the text
   * hyphen-separated and all of its `[a-z0-9]` characters, and it is empty
   * exactly when there are none.
   */
  function StripHyphens(s: string): (r: string)
    ensures r == [] || (r[0] != '-' && r[|r| - 1] != '-')
    ensures HyphenSeparated(s) ==> HyphenSeparated(r)
    ensures SlugChars(r) == SlugChars(s)
    ensures HyphenSeparated(s) ==> (r == [] <==> SlugChars(s) == [])
  {
    StripHyphensFacts(s);
    DropTrailingShape(DropLeadingHyphens(s));
    DropTrailingHyphens(DropLeadingHyphens(s))
  }

  lemma {:induction false} StripHyphensFacts(s: string)
    ensures var r := DropTrailingHyphens(DropLeadingHyphens(s));
      && SlugChars(r) == SlugChars(s)
      && (HyphenSeparated(s) ==> HyphenSeparated(r) && (r == [] <==> SlugChars(s) == []))
  {
    var t := DropLeadingHyphens(s);
    var r := DropTrailingHyphens(t);
    DropLeadingKeepsSlugChars(s);
    DropTrailingKeepsSlugChars(t);
    DropLeadingShape(s);
    DropTrailingShape(t);
    if HyphenSeparated(s) {
      var k := |s| - |t|;
      InfixOfSuffix(s, t, r);
      HyphenSeparatedInfix(s, k, k + |r|);
      if r != [] {
        SlugCharsFirst(r);
      }
    }
  }

  lemma InfixOfSuffix(s: string, t: string, r: string)
    requires |t| <= |s| && t == s[|s| - |t|..]
    requires |r| <= |t| && r == t[..|r|]
    ensures r == s[|s| - |t|..|s| - |t| + |r|]
  {
  }

  lemma DropLeadingKeepsSlugChars(s: string)
    ensures SlugChars(DropLeadingHyphens(s)) == SlugChars(s)
  {
    var t := DropLeadingHyphens(s);
    var k := |s| - |t|;
    DropLeadingShape(s);
    assert s == s[..k] + t;
    SlugCharsAppend(s[..k], t);
    SlugCharsNone(s[..k]);
  }

  lemma DropTrailingKeepsSlugChars(s: string)
    ensures SlugChars(DropTrailingHyphens(s)) == SlugChars(s)
  {
    var t := DropTrailingHyphens(s);
    DropTrailingShape(s);
    assert s == t + s[|t|..];
    SlugCharsAppend(t, s[|t|..]);
    SlugCharsNone(s[|t|..]);
  }

  lemma HyphenSeparatedInfix(s: string, i: nat, j: nat)
    requires i <= j <= |s| && HyphenSeparated(s)
    ensures HyphenSeparated(s[i..j])
  {
    var t := s[i..j];
    assert forall m :: 0 <= m < |t| ==> t[m] == s[i + m];
  }

  lemma SlugCharsFirst(s: string)
    requires s != [] && HyphenSeparated(s) && s[0] != '-'
    ensures SlugChars(s) != []
  {
  }

  /* ---------------------------------------------------------------------- */
  /* slice, startsWith, endsWith, indexOf                                    */
  /* ---------------------------------------------------------------------- */

  /** `s.slice(0, end)`: a negative end counts from the end of the string. */
  function SliceTo(s: string, end: int): (r: string)
    ensures r <= s
    ensures 0 <= end ==> |r| == if end <= |s| then end else |s|
  {
    if end < 0 then (if |s| + end <= 0 then [] else s[..|s| + end])
    else if end <= |s| then s[..end]
    else s
  }

  predicate StartsWith(s: string, prefix: string) {
    prefix <= s
  }

  predicate EndsWith(s: string, suffix: string) {
    |suffix| <= |s| && s[|s| - |suffix|..] == suffix
  }

  /** `xs.indexOf(x)`: the first index holding `x`, or -1. */
  function IndexOf(xs: seq<string>, x: string): (r: int)
    ensures -1 <= r < |xs|
    ensures r >= 0 ==> xs[r] == x && x !in xs[..r]
    ensures r == -1 <==> x !in xs
  {
    if xs == [] then -1
    else if xs[0] == x then 0
    else
      var k := IndexOf(xs[1..], x);
      if k == -1 then -1 else k + 1
  }

  /* ---------------------------------------------------------------------- */
  /* Numbers: String(n) and parseInt(s, 10)                                  */
  /* ---------------------------------------------------------------------- */

  predicate IsDigit(c: char) {
    '0' <= c <= '9'
  }

  function DigitChar(d: nat): (c: char)
    requires d < 10
    ensures IsDigit(c)
  {
    ('0' as int + d) as char
  }

  /** `String(n)` for a non-negative integer: decimal digits, no leading zero. */
  function Decimal(n: nat): (r: string)
    ensures r != []
    ensures forall i :: 0 <= i < |r| ==> IsDigit(r[i])
    ensures |r| > 1 ==> r[0] != '0'
    ensures n < 10 <==> |r| == 1
  {
    if n < 10 then [DigitChar(n)] else Decimal(n / 10) + [DigitChar(n % 10)]
  }

  /** Distinct numbers have distinct decimal renderings. */
  lemma {:induction false} DecimalInjective(m: nat, n: nat)
    requires Decimal(m) == Decimal(n)
    ensures m == n
  {
    if m >= 10 && n >= 10 {
      var dm, dn := Decimal(m), Decimal(n);
      assert dm[..|dm| - 1] == Decimal(m / 10);
      assert dn[..|dn| - 1] == Decimal(n / 10);
      DecimalInjective(m / 10, n / 10);
      assert DigitChar(m % 10) == dm[|dm| - 1] == DigitChar(n % 10);
    }
  }

  /** The value of a string of decimal digits. */
  function DigitsValue(ds: string): nat
    requires forall i :: 0 <= i < |ds| ==> IsDigit(ds[i])
  {
    if ds == [] then 0
    else
      assert IsDigit(ds[|ds| - 1]);
      10 * DigitsValue(ds[..|ds| - 1]) + (ds[|ds| - 1] as int - '0' as int)
  }

  /** The longest prefix of decimal digits. */
  function LeadingDigits(s: string): (r: string)
    ensures r <= s
    ensures forall i :: 0 <= i < |r| ==> IsDigit(r[i])
    ensures |r| < |s| ==> !IsDigit(s[|r|])
  {
    if s != [] && IsDigit(s[0]) then [s[0]] + LeadingDigits(s[1..]) else []
  }

  /**
   * `parseInt(s, 10)`: skip leading whitespace, read an optional sign and the
   * longest run of decimal digits after it; `None` is NaN (no digits).
   */
  function ParseInt(s: string): (r: Option<int>)
    ensures r.None? <==> LeadingDigits(SignStripped(TrimStart(s))) == []
  {
    var t := TrimStart(s);
    var negative := t != [] && t[0] == '-';
    var ds := LeadingDigits(SignStripped(t));
    var magnitude: int := DigitsValue(ds);
    if ds == [] then None
    else if negative then Some(-magnitude)
    else Some(magnitude)
  }

  /** The value of a run of digits ending in `String(n)` is `n`. */
  lemma {:induction false} DigitsValueDecimal(n: nat)
    ensures DigitsValue(Decimal(n)) == n
  {
    if n >= 10 {
      var d := Decimal(n);
      assert d[..|d| - 1] == Decimal(n / 10);
      DigitsValueDecimal(n / 10);
    }
  }

  lemma {:induction false} LeadingDigitsAll(s: string)
    requires forall i :: 0 <= i < |s| ==> IsDigit(s[i])
    ensures LeadingDigits(s) == s
  {
    if s != [] {
      LeadingDigitsAll(s[1..]);
      assert [s[0]] + s[1..] == s;
    }
  }

  /** `parseInt` of a run of digits is its value. */
  lemma ParseIntDigits(d: string)
    requires d != [] && forall i :: 0 <= i < |d| ==> IsDigit(d[i])
    ensures ParseInt(d) == Some(DigitsValue(d))
  {
    assert !IsSpace(d[0]) && d[0] != '-' && d[0] != '+';
    assert TrimStart(d) == d;
    assert SignStripped(d) == d;
    LeadingDigitsAll(d);
  }

  /** `parseInt(String(n), 10) === n` for a non-negative integer. */
  lemma ParseIntDecimal(n: nat)
    ensures ParseInt(Decimal(n)) == Some(n)
  {
    ParseIntDigits(Decimal(n));
    DigitsValueDecimal(n);
  }

  function SignStripped(t: string): string {
    if t != [] && (t[0] == '-' || t[0] == '+') then t[1..] else t
  }

  /* ---------------------------------------------------------------------- */
  /* `(v || fallback).trim()` on an untyped value                           */
  /* ---------------------------------------------------------------------- */

  /**
   * `(v || fallback).trim()`: a falsy value gives the trimmed fallback, a
   * string is trimmed, and any other truthy value has no `trim` method, so
   * the call throws a TypeError.
   */
  function TrimOr(v: Value, fallback: string): (r: Completion<string>)
    ensures r.Thrown? <==> Truthy(v) && !v.Str?
    ensures r.Normal? ==> IsTrimmed(r.value)
    ensures !Truthy(v) ==> r == Normal(Trim(fallback))
    ensures v.Str? && v.s != "" ==> r == Normal(Trim(v.s))
  {
    if !Truthy(v) then Normal(Trim(fallback))
    else if v.Str? then Normal(Trim(v.s))
    else Thrown
  }

  /** A truthy value that is not a string: calling `trim` on it throws. */
  predicate NoTrim(v: Value) {
    Truthy(v) && !v.Str?
  }

  /** `(v || "").trim()` is empty. */
  predicate Blank(v: Value) {
    !Truthy(v) || (v.Str? && AllSpace(v.s))
  }

  /* ---------------------------------------------------------------------- */
  /* `.map((p) => p.trim()).filter(Boolean)`                                 */
  /* ---------------------------------------------------------------------- */

  /** Trims every piece and drops the pieces left empty. */
  function TrimmedNonEmpty(parts: seq<string>): (r: seq<string>)
    ensures |r| <= |parts|
    ensures forall i :: 0 <= i < |r| ==> r[i] != [] && IsTrimmed(r[i])
  {
    if parts == [] then []
    else
      var rest := TrimmedNonEmpty(parts[1..]);
      var head := Trim(parts[0]);
      if head == [] then rest
      else
        assert forall i :: 1 <= i <= |rest| ==> ([head] + rest)[i] == rest[i - 1];
        [head] + rest
  }

  /** A property every trimmed piece has, every kept piece has. */
  lemma {:induction false} TrimmedNonEmptyKeepsProperty(parts: seq<string>, p: string -> bool)
    requires forall i :: 0 <= i < |parts| ==> p(Trim(parts[i]))
    ensures forall i :: 0 <= i < |TrimmedNonEmpty(parts)| ==> p(TrimmedNonEmpty(parts)[i])
  {
    if parts != [] {
      TrimmedNonEmptyKeepsProperty(parts[1..], p);
      var r := TrimmedNonEmpty(parts);
      var rest := TrimmedNonEmpty(parts[1..]);
      if Trim(parts[0]) != [] {
        assert r == [Trim(parts[0])] + rest;
        forall i | 1 <= i < |r|
          ensures p(r[i])
        {
          assert r[i] == rest[i - 1];
        }
      }
    }
  }

  /** Pieces that are already trimmed and non-empty pass through unchanged. */
  lemma {:induction false} TrimmedNonEmptyKeeps(parts: seq<string>)
    requires forall i :: 0 <= i < |parts| ==> parts[i] != [] && IsTrimmed(parts[i])
    ensures TrimmedNonEmpty(parts) == parts
  {
    if parts != [] {
      TrimmedNonEmptyKeeps(parts[1..]);
      assert [parts[0]] + parts[1..] == parts;
    }
  }

  /** A non-blank last piece survives, so the result is not empty. */
  lemma {:induction false} TrimmedNonEmptyLast(parts: seq<string>)
    requires |parts| >= 1 && Trim(Last(parts)) != []
    ensures |TrimmedNonEmpty(parts)| >= 1
  {
    if |parts| > 1 {
      assert Last(parts[1..]) == Last(parts);
      TrimmedNonEmptyLast(parts[1..]);
    }
  }

  /** A non-blank first piece and a non-blank last piece give two results. */
  lemma TrimmedNonEmptyEnds(parts: seq<string>)
    requires |parts| >= 2 && Trim(parts[0]) != [] && Trim(Last(parts)) != []
    ensures |TrimmedNonEmpty(parts)| >= 2
  {
    assert Last(parts[1..]) == Last(parts);
    TrimmedNonEmptyLast(parts[1..]);
  }

  /** A leading blank does not change the trimmed text. */
  lemma TrimLeadingSpace(p: string)
    ensures Trim(" " + p) == Trim(p)
  {
    assert (" " + p)[1..] == p;
    assert TrimStart(" " + p) == TrimStart(p);
  }

  /** Trimming removes whitespace only. */
  lemma TrimKeepsNonSpace(s: string)
    ensures NonSpace(Trim(s)) == NonSpace(s)
  {
    var t := TrimStart(s);
    TrimStartKeepsNonSpace(s);
    var r := TrimEnd(t);
    TrimEndShape(t);
    assert t == r + t[|r|..];
    NonSpaceAppend(r, t[|r|..]);
    NonSpaceOfSpaces(t[|r|..]);
  }

  /** `Trim(s)` is the infix of `s` that starts at `k`. */
  lemma TrimInfix(s: string) returns (k: nat)
    ensures k + |Trim(s)| <= |s| && Trim(s) == s[k..k + |Trim(s)|]
  {
    var t := TrimStart(s);
    k := |s| - |t|;
    TrimStartShape(s);
    TrimEndShape(t);
    assert TrimEnd(t) == t[..|Trim(s)|];
  }

  /** A gap found at position `k`. */
  lemma {:induction false} HasGapAt(s: string, k: nat)
    requires k <= |s| && StartsWithGap(s[k..])
    ensures HasGap(s)
    decreases k
  {
    if k > 0 {
      assert s[1..][k - 1..] == s[k..];
      HasGapAt(s[1..], k - 1);
    }
  }

  /** The position of a gap. */
  lemma {:induction false} HasGapWitness(s: string) returns (k: nat)
    requires HasGap(s)
    ensures k <= |s| && StartsWithGap(s[k..])
    decreases |s|
  {
    if StartsWithGap(s) {
      k := 0;
    } else {
      var j := HasGapWitness(s[1..]);
      k := j + 1;
      assert s[1..][j..] == s[k..];
    }
  }

  /** A gap inside an infix is a gap of the whole text. */
  lemma HasGapInfixOf(s: string, t: string, i: nat)
    requires i + |t| <= |s| && t == s[i..i + |t|] && HasGap(t)
    ensures HasGap(s)
  {
    HasGapInfix(s, i, i + |t|);
  }

  lemma HasGapInfix(s: string, i: nat, j: nat)
    requires i <= j <= |s| && HasGap(s[i..j])
    ensures HasGap(s)
  {
    var k := HasGapWitness(s[i..j]);
    assert s[i..j][k..][..4] == s[i + k..][..4];
    HasGapAt(s, i + k);
  }

  /** Trimming never creates a gap. */
  lemma {:induction false} TrimGapFree(s: string)
    requires !HasGap(s)
    ensures !HasGap(Trim(s))
  {
    var k := TrimInfix(s);
    if HasGap(Trim(s)) {
      HasGapInfixOf(s, Trim(s), k);
    }
  }
}
