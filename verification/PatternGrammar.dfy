/** The patterns of the tool-schema subset by their text, and the proof that the compiler
    takes exactly these. */
module PatternGrammar {
  import opened Wrappers
  import opened Patterns

  // ---------------------------------------------------------------------------
  // The grammar
  // ---------------------------------------------------------------------------

  /** A character that stands for itself. */
  predicate IsPlain(c: char) {
    'A' <= c <= 'Z' || 'a' <= c <= 'z' || '0' <= c <= '9' || c in " _:@/-"
  }

  predicate IsCountText(s: string) {
    1 <= |s| <= 5 && AllDigits(s)
  }

  /** The body of a character class, one to 64 characters that split into the listed ranges
      and single characters. */
  ghost predicate IsClassBody(body: string) {
    && 1 <= |body| <= 64 && ']' !in body && '\\' !in body && '^' !in body
    && exists tokens :: Split(body, 0, tokens)
  }

  /** `{low}` or `{low,high}`, the counts in order and small. */
  predicate IsCounts(s: string, low: string, high: string) {
    && IsCountText(low) && IsCountText(high)
    && Numeral(low) <= Numeral(high) <= MAXIMUM_STRING_CODE_POINTS
    && ((low == high && s == "{" + low + "}") || s == "{" + low + "," + high + "}")
  }

  /** `[body]{low}` or `[body]{low,high}`. */
  ghost predicate IsClassText(s: string, body: string, low: string, high: string) {
    IsClassBody(body) && |s| >= |body| + 2 && s[..|body| + 2] == "[" + body + "]" && IsCounts(s[|body| + 2..], low, high)
  }

  /** A literal text with every full stop escaped. */
  function Escaped(prefix: string): string {
    if prefix == "" then "" else (if prefix[0] == '.' then "\\." else [prefix[0]]) + Escaped(prefix[1..])
  }

  predicate IsPrefix(prefix: string) {
    forall c :: c in prefix ==> IsPlain(c) || c == '.'
  }

  /** `^middle$`, at most 128 characters, with a plain text in the middle, or a class, or a
      class after a prefix of one to 96 characters. */
  ghost predicate IsPatternText(text: string) {
    && |text| <= 128
    && exists middle :: text == "^" + middle + "$" && IsMiddle(middle)
  }

  ghost predicate IsMiddle(middle: string) {
    || (forall c :: c in middle ==> IsPlain(c))
    || (exists body, low, high :: IsClassText(middle, body, low, high))
    || (exists prefix, tail, body, low, high ::
          middle == Escaped(prefix) + tail && 1 <= |prefix| <= 96 && IsPrefix(prefix) && IsClassText(tail, body, low, high))
  }

  // ---------------------------------------------------------------------------
  // Classes
  // ---------------------------------------------------------------------------

  lemma PlainIsLiteral(s: string)
    ensures IsLiteralBody(s) <==> forall c :: c in s ==> IsPlain(c)
  {
    assert forall c :: IsPlain(c) <==> IsLiteralChar(c);
    if IsLiteralBody(s) {
      forall c | c in s ensures IsPlain(c) {
        var i :| 0 <= i < |s| && s[i] == c;
      }
    }
  }

  lemma OneCountRead(low: string)
    requires IsCountText(low)
    ensures ReadCounts("{" + low + "}") == Some((Numeral(low), Numeral(low)))
  {
    hide Numeral, DigitCount, AllDigits;
    var s2 := low + "}";
    assert ("{" + low + "}")[1..] == s2;
    DigitCountOfRun(low, "}");
    assert s2[..|low|] == low && s2[|low|..] == "}";
  }

  lemma TwoCountsParts(low: string, high: string)
    ensures var s2 := ("{" + low + "," + high + "}")[1..];
            && s2 == low + ("," + high + "}")
            && s2[..|low|] == low && s2[|low|] == ',' && |s2[|low|..]| > 1 && s2[|low| + 1..] == high + "}"
    ensures (high + "}")[..|high|] == high && (high + "}")[|high|..] == "}"
  {
  }

  lemma TwoCountsRead(low: string, high: string)
    requires IsCountText(low) && IsCountText(high)
    ensures ReadCounts("{" + low + "," + high + "}") == Some((Numeral(low), Numeral(high)))
  {
    hide Numeral, DigitCount, AllDigits;
    TwoCountsParts(low, high);
    DigitCountOfRun(low, "," + high + "}");
    DigitCountOfRun(high, "}");
    var s := "{" + low + "," + high + "}";
    assert s[0] == '{' && DigitCount(s[1..]) == |low| && DigitCount(s[1..][|low| + 1..]) == |high|;
  }

  /** The reader finds the counts. */
  lemma CountsAreFound(s: string, low: string, high: string)
    requires IsCounts(s, low, high)
    ensures ReadCounts(s) == Some((Numeral(low), Numeral(high)))
  {
    hide Numeral, ReadCounts, AllDigits;
    OneCountRead(low);
    TwoCountsRead(low, high);
  }

  lemma OneCountFound(s: string, d: nat)
    requires s != "" && s[0] == '{' && d < |s| && s[1..][d..] == "}"
    ensures s == "{" + s[1..][..d] + "}"
  {
    assert s[1..] == s[1..][..d] + s[1..][d..];
  }

  lemma TwoCountsFound(s: string, d: nat, e: nat)
    requires s != "" && s[0] == '{' && d < |s| - 1 && s[1..][d] == ','
    requires e <= |s[1..][d + 1..]| && s[1..][d + 1..][e..] == "}"
    ensures s == "{" + s[1..][..d] + "," + s[1..][d + 1..][..e] + "}"
  {
    var s2 := s[1..];
    var s3 := s2[d + 1..];
    assert s3 == s3[..e] + s3[e..];
    assert s2 == s2[..d] + "," + s3;
  }

  /** And they are all there is. */
  lemma FoundAreCounts(s: string)
    requires ReadCounts(s).Some? && ReadCounts(s).value.0 <= ReadCounts(s).value.1 <= MAXIMUM_STRING_CODE_POINTS
    ensures exists low, high :: IsCounts(s, low, high)
  {
    hide Numeral, DigitCount, AllDigits;
    var s2 := s[1..];
    var d := DigitCount(s2);
    if s2[d..] == "}" {
      OneCountFound(s, d);
      assert IsCounts(s, s2[..d], s2[..d]);
    } else {
      var e := DigitCount(s2[d + 1..]);
      TwoCountsFound(s, d, e);
      assert IsCounts(s, s2[..d], s2[d + 1..][..e]);
    }
  }

  /** The reader finds the parts of a class text. */
  lemma ClassTextReads(s: string, body: string, low: string, high: string)
    requires IsClassText(s, body, low, high)
    ensures ReadClassTail(s) == Some(ClassTail(body, Numeral(low), Numeral(high)))
    ensures IsUsableTail(ReadClassTail(s).value) && s != "" && s[0] == '['
  {
    hide ReadCounts, IndexOf;
    var counts := s[|body| + 2..];
    assert s == s[..|body| + 2] + counts && s[0] == s[..|body| + 2][0];
    assert s[1..] == body + [']'] + counts;
    IndexOfRun(body, ']', counts);
    assert s[1..][..|body|] == body;
    CountsAreFound(counts, low, high);
    var tokens :| Split(body, 0, tokens);
    ScanFindsTheSplit(body, 0, tokens);
  }

  /** And reads nothing else. */
  lemma ReadsAreClassTexts(s: string)
    requires ReadClassTail(s).Some? && IsUsableTail(ReadClassTail(s).value)
    ensures exists body, low, high :: IsClassText(s, body, low, high)
  {
    hide Numeral, ReadCounts, IsCounts;
    var n := IndexOf(s[1..], ']');
    var body := s[1..][..n];
    assert s[n + 1] == s[1..][n] == ']';
    assert s[..n + 2] == "[" + body + "]";
    assert ']' !in body by {
      assert forall i :: 0 <= i < |body| ==> body[i] == s[1..][i];
    }
    ScanDecidesSplit(body);
    FoundAreCounts(s[n + 2..]);
    var low, high :| IsCounts(s[n + 2..], low, high);
    assert IsClassText(s, body, low, high);
  }

  // ---------------------------------------------------------------------------
  // Prefixes
  // ---------------------------------------------------------------------------

  lemma PrefixOfCons(c: char, prefix: string)
    ensures IsPrefix([c] + prefix) <==> (IsPlain(c) || c == '.') && IsPrefix(prefix)
    ensures Escaped([c] + prefix) == (if c == '.' then "\\." else [c]) + Escaped(prefix)
  {
    assert ([c] + prefix)[1..] == prefix;
    assert forall d :: d in [c] + prefix <==> d == c || d in prefix;
  }

  lemma PlainReads(c: char, s: string)
    requires IsPlain(c) && ReadPrefix(s).Some?
    ensures ReadPrefix([c] + s) == Some(([c] + ReadPrefix(s).value.0, ReadPrefix(s).value.1))
  {
    assert ([c] + s)[1..] == s;
  }

  lemma StopReads(s: string)
    requires ReadPrefix(s).Some?
    ensures ReadPrefix("\\." + s) == Some(("." + ReadPrefix(s).value.0, ReadPrefix(s).value.1))
  {
    assert ("\\." + s)[2..] == s;
  }

  lemma Associates(a: string, b: string, c: string)
    ensures (a + b) + c == a + (b + c)
  {
  }

  lemma NothingEscaped(tail: string)
    requires tail != "" && tail[0] == '['
    ensures ReadPrefix(Escaped("") + tail) == Some(("", tail))
  {
    assert Escaped("") + tail == tail;
  }

  lemma {:induction false} EscapedReads(prefix: string, tail: string)
    requires IsPrefix(prefix) && tail != "" && tail[0] == '['
    ensures ReadPrefix(Escaped(prefix) + tail) == Some((prefix, tail))
  {
    hide IsPrefix, ReadPrefix, Escaped;
    if prefix == "" {
      NothingEscaped(tail);
    } else {
      var c, rest := prefix[0], prefix[1..];
      assert prefix == [c] + rest;
      PrefixOfCons(c, rest);
      EscapedReads(rest, tail);
      Associates(if c == '.' then "\\." else [c], Escaped(rest), tail);
      if c == '.' {
        StopReads(Escaped(rest) + tail);
      } else {
        PlainReads(c, Escaped(rest) + tail);
      }
    }
  }

  lemma PrefixStarts(s: string)
    requires ReadPrefix(s).Some?
    ensures s != ""
    ensures s[0] == '[' ==> ReadPrefix(s).value == ("", s)
    ensures s[0] != '[' ==> IsLiteralChar(s[0]) || (s[0] == '\\' && |s| >= 2 && s[1] == '.')
  {
  }

  lemma {:induction false} ReadsAreEscaped(s: string)
    requires ReadPrefix(s).Some?
    ensures s == Escaped(ReadPrefix(s).value.0) + ReadPrefix(s).value.1 && IsPrefix(ReadPrefix(s).value.0)
    decreases |s|
  {
    hide ReadPrefix, Escaped, IsPrefix;
    PrefixStarts(s);
    if s[0] == '[' {
      NoPrefix();
      assert "" + s == s;
    } else {
      var width := if IsLiteralChar(s[0]) then 1 else 2;
      PrefixHeadReads(s, width);
      ReadsAreEscaped(s[width..]);
      var rest := ReadPrefix(s[width..]).value;
      PrefixOfCons(s[width - 1], rest.0);
      assert s == s[..width] + (Escaped(rest.0) + rest.1);
      assert s[..width] == if width == 1 then [s[0]] else "\\.";
      assert s == Escaped([s[width - 1]] + rest.0) + rest.1;
    }
  }

  lemma NoPrefix()
    ensures Escaped("") == "" && IsPrefix("")
  {
  }

  // ---------------------------------------------------------------------------
  // Patterns
  // ---------------------------------------------------------------------------

  /** A pattern compiles exactly when its text is of the grammar. */
  lemma CompilesExactly(text: string)
    ensures CompilePattern(text).Some? <==> IsPatternText(text)
  {
    hide ReadClassTail, ReadPrefix, IsLiteralBody, IsUsableTail, IsMiddle, Numeral;
    if 2 <= |text| <= 128 && text[0] == '^' && text[|text| - 1] == '$' {
      var middle := text[1..|text| - 1];
      assert text == "^" + middle + "$";
      forall m | text == "^" + m + "$" ensures m == middle {
        assert m == text[1..|text| - 1];
      }
      MiddleExactly(middle);
    } else {
      forall m | text == "^" + m + "$" ensures |text| >= 2 && text[0] == '^' && text[|text| - 1] == '$' {
      }
    }
  }

  /** What the compiler asks of the text between the anchors. */
  predicate IsReadable(middle: string) {
    || IsLiteralBody(middle)
    || (ReadClassTail(middle).Some? && IsUsableTail(ReadClassTail(middle).value))
    || (ReadClassTail(middle).None? && ReadPrefix(middle).Some? && 1 <= |ReadPrefix(middle).value.0| <= 96 &&
        ReadClassTail(ReadPrefix(middle).value.1).Some? &&
        IsUsableTail(ReadClassTail(ReadPrefix(middle).value.1).value))
  }

  lemma MiddleExactly(middle: string)
    ensures IsReadable(middle) <==> IsMiddle(middle)
  {
    hide ReadClassTail, ReadPrefix, IsLiteralBody, IsUsableTail, Numeral, IsClassText, IsPrefix, Escaped;
    PlainIsLiteral(middle);
    if IsReadable(middle) && !IsLiteralBody(middle) {
      if ReadClassTail(middle).Some? {
        ReadsAreClassTexts(middle);
      } else {
        ReadsAreEscaped(middle);
        ReadsAreClassTexts(ReadPrefix(middle).value.1);
      }
    }
    forall body, low, high | IsClassText(middle, body, low, high) ensures IsReadable(middle) {
      ClassTextReads(middle, body, low, high);
    }
    forall prefix, tail, body, low, high |
      middle == Escaped(prefix) + tail && 1 <= |prefix| <= 96 && IsPrefix(prefix) && IsClassText(tail, body, low, high)
      ensures IsReadable(middle)
    {
      ClassTextReads(tail, body, low, high);
      EscapedReads(prefix, tail);
      PrefixIsNoClass(prefix, tail);
    }
  }

  lemma PrefixIsNoClass(prefix: string, tail: string)
    requires prefix != "" && IsPrefix(prefix)
    ensures ReadClassTail(Escaped(prefix) + tail).None?
  {
    assert prefix[0] in prefix;
    assert (Escaped(prefix) + tail)[0] == Escaped(prefix)[0];
  }
}
