/** The pattern compiler of the tool-schema subset, against a general reading of
    anchored regular expressions. */
module Patterns {
  import opened Wrappers

  const MAXIMUM_PATTERN_LENGTH: nat := 128
  const MAXIMUM_STRING_CODE_POINTS: nat := 65536

  // ---------------------------------------------------------------------------
  // Characters and decimal numerals
  // ---------------------------------------------------------------------------

  predicate IsDigit(c: char) { '0' <= c <= '9' }

  predicate IsAsciiWord(c: char) {
    'A' <= c <= 'Z' || 'a' <= c <= 'z' || IsDigit(c)
  }

  /** A character the compiler accepts verbatim in a literal. */
  predicate IsLiteralChar(c: char) {
    IsAsciiWord(c) || c == ' ' || c == '_' || c == ':' || c == '@' || c == '/' || c == '-'
  }

  /** A character the compiler accepts as a member of a character class. */
  predicate IsClassLiteral(c: char) {
    IsLiteralChar(c) || c == '.'
  }

  predicate AllDigits(s: string) { forall i :: 0 <= i < |s| ==> IsDigit(s[i]) }

  function Numeral(s: string): nat
    requires AllDigits(s)
  {
    if s == "" then 0 else 10 * Numeral(s[..|s| - 1]) + (s[|s| - 1] as int - '0' as int)
  }

  function Decimal(n: nat): (s: string)
    ensures s != "" && AllDigits(s)
  {
    var digit := ('0' as int + n % 10) as char;
    if n < 10 then [digit] else Decimal(n / 10) + [digit]
  }

  lemma {:induction false} NumeralOfDecimal(n: nat)
    ensures Numeral(Decimal(n)) == n
  {
    var s := Decimal(n);
    if n >= 10 {
      NumeralOfDecimal(n / 10);
      assert s[..|s| - 1] == Decimal(n / 10);
    } else {
      assert s[..|s| - 1] == "";
    }
  }

  /** How many leading characters of `s` are digits. */
  function DigitCount(s: string): (n: nat)
    ensures n <= |s|
    ensures AllDigits(s[..n])
    ensures n < |s| ==> !IsDigit(s[n])
  {
    if s == "" || !IsDigit(s[0]) then 0
    else
      assert s == [s[0]] + s[1..];
      1 + DigitCount(s[1..])
  }

  /** Position of the first `c` in `s`, or `|s|`. */
  function IndexOf(s: string, c: char): (n: nat)
    ensures n <= |s|
    ensures forall i :: 0 <= i < n ==> s[i] != c
    ensures n < |s| ==> s[n] == c
  {
    if s == "" || s[0] == c then 0 else 1 + IndexOf(s[1..], c)
  }

  lemma {:induction false} DigitCountOfRun(digits: string, rest: string)
    requires AllDigits(digits)
    requires rest == "" || !IsDigit(rest[0])
    ensures DigitCount(digits + rest) == |digits|
  {
    var s := digits + rest;
    var n := DigitCount(s);
    assert forall i :: 0 <= i < |digits| ==> s[i] == digits[i];
    assert forall i :: 0 <= i < n ==> s[..n][i] == s[i];
    assert rest != "" ==> s[|digits|] == rest[0];
  }

  lemma IndexOfRun(body: string, c: char, rest: string)
    requires c !in body
    ensures IndexOf(body + [c] + rest, c) == |body|
  {
    var s := body + [c] + rest;
    var n := IndexOf(s, c);
    assert s[|body|] == c;
    assert forall i :: 0 <= i < |body| ==> s[i] == body[i];
  }

  // ---------------------------------------------------------------------------
  // A general reading of anchored regular expressions
  // ---------------------------------------------------------------------------

  datatype Atom = One(c: char) | ClassOf(body: string)

  datatype Term = Term(atom: Atom, least: nat, most: nat)

  /** ECMAScript's reading of a class body that holds no escape and no leading caret:
      a character followed by `-` and another character is a range. */
  predicate ClassContains(body: string, c: char) {
    body != "" &&
    if |body| >= 3 && body[1] == '-'
    then body[0] <= c <= body[2] || ClassContains(body[3..], c)
    else c == body[0] || ClassContains(body[1..], c)
  }

  predicate AtomAccepts(atom: Atom, c: char) {
    match atom
    case One(d) => c == d
    case ClassOf(body) => ClassContains(body, c)
  }

  predicate IsSyntaxChar(c: char) { c in "^$\\.*+?()[]{}|" }

  /** Reads `{m}` or `{m,n}` at the head of `s`: the bounds and what follows. */
  function ReadQuantifier(s: string): (r: Option<(nat, nat, string)>)
    ensures r.Some? ==> |r.value.2| < |s|
  {
    if s == "" || s[0] != '{' then None
    else
      var s1 := s[1..];
      var n := DigitCount(s1);
      if n == 0 || n == |s1| then None
      else if s1[n] == '}' then Some((Numeral(s1[..n]), Numeral(s1[..n]), s1[n + 1..]))
      else if s1[n] != ',' then None
      else
        var s2 := s1[n + 1..];
        var m := DigitCount(s2);
        if m == 0 || m == |s2| || s2[m] != '}' then None
        else Some((Numeral(s1[..n]), Numeral(s2[..m]), s2[m + 1..]))
  }

  /** Reads one character, escaped full stop or class at the head of `s`. */
  function ReadAtom(s: string): (r: Option<(Atom, string)>)
    ensures r.Some? ==> |r.value.1| < |s|
  {
    if s == "" then None
    else if s[0] == '\\' then
      if |s| >= 2 && IsSyntaxChar(s[1]) then Some((One(s[1]), s[2..])) else None
    else if s[0] == '[' then
      var n := IndexOf(s[1..], ']');
      if n == |s| - 1 then None else Some((ClassOf(s[1..][..n]), s[n + 2..]))
    else if IsSyntaxChar(s[0]) then None
    else Some((One(s[0]), s[1..]))
  }

  function ReadTerms(s: string): Option<seq<Term>>
    decreases |s|
  {
    if s == "" then Some([])
    else
      var atom := ReadAtom(s);
      if atom.None? then None
      else
        var quantified := ReadQuantifier(atom.value.1);
        var (least, most, rest) :=
          if quantified.Some? then quantified.value else (1, 1, atom.value.1);
        var tail := ReadTerms(rest);
        if tail.None? then None
        else Some([Term(atom.value.0, least, most)] + tail.value)
  }

  /** `v` splits into one run per term, each run within its bounds and its atom. */
  predicate Matches(terms: seq<Term>, v: string)
  {
    if terms == [] then v == ""
    else
      exists k: nat | k <= |v| ::
        Run(terms[0], v, k) && Matches(terms[1..], v[k..])
  }

  predicate Run(term: Term, v: string, k: nat)
    ensures Run(term, v, k) ==> k <= |v|
  {
    k <= |v| && term.least <= k <= term.most &&
    forall i :: 0 <= i < k ==> AtomAccepts(term.atom, v[i])
  }

  /** What `new RegExp(text, 'u')` accepts in full, for a text of the shape `^...$`. */
  predicate RegexAccepts(text: string, v: string) {
    |text| >= 2 && text[0] == '^' && text[|text| - 1] == '$' &&
    var terms := ReadTerms(text[1..|text| - 1]);
    terms.Some? && Matches(terms.value, v)
  }

  // ---------------------------------------------------------------------------
  // The class-body scanner
  // ---------------------------------------------------------------------------

  datatype Token = Range(text: string) | Single(c: char)

  const LISTED_RANGES: seq<string> := ["A-Z", "a-z", "A-F", "a-f", "0-9"]

  predicate IsListedRange(s: string) { s in LISTED_RANGES }

  /** `tokens` covers `body` from position `i` with listed ranges and single characters,
      a hyphen standing alone only at either end. */
  predicate Split(body: string, i: nat, tokens: seq<Token>)
    requires i <= |body|
    decreases |tokens|
  {
    if i == |body| then tokens == []
    else
      tokens != [] &&
      match tokens[0]
      case Range(text) =>
        IsListedRange(text) && i + 3 <= |body| && body[i..i + 3] == text &&
        Split(body, i + 3, tokens[1..])
      case Single(c) =>
        c == body[i] && IsClassLiteral(c) && (c == '-' ==> i == 0 || i == |body| - 1) &&
        Split(body, i + 1, tokens[1..])
  }

  function Scan(body: string, i: nat): Option<seq<Token>>
    requires i <= |body|
    decreases |body| - i
  {
    if i == |body| then Some([])
    else if i + 3 <= |body| && IsListedRange(body[i..i + 3]) then
      var rest := Scan(body, i + 3);
      if rest.None? then None else Some([Range(body[i..i + 3])] + rest.value)
    else if !IsClassLiteral(body[i]) || (body[i] == '-' && i != 0 && i != |body| - 1) then None
    else
      var rest := Scan(body, i + 1);
      if rest.None? then None else Some([Single(body[i])] + rest.value)
  }

  /** The scanner finds a split whenever there is one, and there is never a second. */
  lemma {:induction false} ScanFindsTheSplit(body: string, i: nat, tokens: seq<Token>)
    requires i <= |body|
    ensures Split(body, i, tokens) <==> Scan(body, i) == Some(tokens)
    decreases |body| - i
  {
    if i < |body| {
      if i + 3 <= |body| && IsListedRange(body[i..i + 3]) {
        ListedRangeShape(body[i..i + 3]);
        assert body[i + 1] == body[i..i + 3][1] == '-';
        if tokens != [] {
          ScanFindsTheSplit(body, i + 3, tokens[1..]);
          ScanFindsTheSplit(body, i + 1, tokens[1..]);
          assert tokens == [tokens[0]] + tokens[1..];
        }
      } else {
        if tokens != [] {
          ScanFindsTheSplit(body, i + 1, tokens[1..]);
          assert tokens == [tokens[0]] + tokens[1..];
        }
      }
    }
  }

  lemma ListedRangeShape(text: string)
    requires IsListedRange(text)
    ensures |text| == 3 && text[1] == '-' && text[0] <= text[2] && text[0] != '-'
  {
    assert text in ["A-Z", "a-z", "A-F", "a-f", "0-9"];
  }

  /** The source's index loop: advance by three over a listed range, else by one. */
  method ValidSimpleClassBody(body: string) returns (ok: bool)
    ensures ok <==> exists tokens :: Split(body, 0, tokens)
    ensures ok <==> Scan(body, 0).Some?
  {
    var index := 0;
    while index < |body|
      invariant 0 <= index <= |body|
      invariant Scan(body, 0).Some? <==> Scan(body, index).Some?
    {
      if index + 3 <= |body| && IsListedRange(body[index..index + 3]) {
        index := index + 3;
        continue;
      }
      var character := body[index];
      if !IsClassLiteral(character) || (character == '-' && index != 0 && index != |body| - 1) {
        ScanDecidesSplit(body);
        return false;
      }
      index := index + 1;
    }
    ScanDecidesSplit(body);
    return true;
  }

  lemma ScanDecidesSplit(body: string)
    ensures Scan(body, 0).Some? <==> exists tokens :: Split(body, 0, tokens)
  {
    if Scan(body, 0).Some? {
      ScanFindsTheSplit(body, 0, Scan(body, 0).value);
    }
    forall tokens | Split(body, 0, tokens) ensures Scan(body, 0).Some? {
      ScanFindsTheSplit(body, 0, tokens);
    }
  }

  predicate TokenContains(token: Token, c: char) {
    match token
    case Range(text) => |text| == 3 && text[0] <= c <= text[2]
    case Single(d) => c == d
  }

  /** The regular-expression engine reads an accepted body as the very ranges and
      characters the scanner found: nothing it meant as two characters becomes a range. */
  lemma {:induction false} EngineReadsTheSplit(body: string, i: nat, tokens: seq<Token>, c: char)
    requires i <= |body| && Split(body, i, tokens)
    ensures ClassContains(body[i..], c) <==> exists t :: t in tokens && TokenContains(t, c)
    decreases |body| - i
  {
    ScanFindsTheSplit(body, i, tokens);
    if i < |body| {
      var rest := tokens[1..];
      assert tokens == [tokens[0]] + rest;
      assert forall t :: t in tokens <==> t == tokens[0] || t in rest;
      var suffix := body[i..];
      if i + 3 <= |body| && IsListedRange(body[i..i + 3]) {
        ListedRangeShape(body[i..i + 3]);
        EngineReadsTheSplit(body, i + 3, rest, c);
        assert suffix[..3] == body[i..i + 3];
        assert suffix[1] == body[i..i + 3][1] && suffix[0] == body[i..i + 3][0] && suffix[2] == body[i..i + 3][2];
        assert suffix[3..] == body[i + 3..];
        assert tokens[0] == Range(body[i..i + 3]);
        assert TokenContains(tokens[0], c) <==> suffix[0] <= c <= suffix[2];
        assert ClassContains(suffix, c) <==> (suffix[0] <= c <= suffix[2] || ClassContains(suffix[3..], c));
      } else {
        EngineReadsTheSplit(body, i + 1, rest, c);
        NoHiddenRange(body, i);
        assert suffix[1..] == body[i + 1..];
        assert tokens[0] == Single(suffix[0]);
        assert TokenContains(tokens[0], c) <==> c == suffix[0];
        assert ClassContains(suffix, c) <==> (c == suffix[0] || ClassContains(suffix[1..], c));
      }
    }
  }

  /** Where the scanner takes a single character, no hyphen joins it to a later one. */
  lemma NoHiddenRange(body: string, i: nat)
    requires i < |body| && Scan(body, i).Some?
    requires !(i + 3 <= |body| && IsListedRange(body[i..i + 3]))
    ensures i + 3 <= |body| ==> body[i + 1] != '-'
  {
    if i + 4 <= |body| && IsListedRange(body[i + 1..i + 4]) {
      ListedRangeShape(body[i + 1..i + 4]);
      assert body[i + 1] == body[i + 1..i + 4][0];
    }
  }

  // ---------------------------------------------------------------------------
  // The pattern compiler
  // ---------------------------------------------------------------------------

  datatype CompiledPattern =
    | Literal(literal: string, minimumCodePoints: nat, maximumCodePoints: nat)
    | AsciiClass(expression: string, minimumCodePoints: nat, maximumCodePoints: nat)
    | PrefixedAsciiClass(prefix: string, suffixExpression: string, minimumCodePoints: nat, maximumCodePoints: nat)

  predicate IsLiteralBody(s: string) { forall i :: 0 <= i < |s| ==> IsLiteralChar(s[i]) }

  /** The capture groups of `[body]{m}` and `[body]{m,n}`. */
  datatype ClassTail = ClassTail(body: string, minimum: nat, maximum: nat)

  /** The whole of `s` is `{m}` or `{m,n}` with numerals of 1 to 5 digits. */
  function ReadCounts(s: string): Option<(nat, nat)> {
    if s == "" || s[0] != '{' then None
    else
      var s2 := s[1..];
      var d := DigitCount(s2);
      if !(1 <= d <= 5) then None
      else if s2[d..] == "}" then Some((Numeral(s2[..d]), Numeral(s2[..d])))
      else if d == |s2| || s2[d] != ',' then None
      else
        var s3 := s2[d + 1..];
        var e := DigitCount(s3);
        if !(1 <= e <= 5) || s3[e..] != "}" then None else Some((Numeral(s2[..d]), Numeral(s3[..e])))
  }

  /** The whole of `s` is `[body]{m}` or `[body]{m,n}` with a body of 1 to 64 characters
      none of which is a bracket, backslash or caret. */
  function ReadClassTail(s: string): Option<ClassTail> {
    if s == "" || s[0] != '[' then None
    else
      var n := IndexOf(s[1..], ']');
      if n == |s| - 1 then None
      else
        var body, counts := s[1..][..n], ReadCounts(s[n + 2..]);
        if !(1 <= n <= 64) || '\\' in body || '^' in body || counts.None? then None
        else Some(ClassTail(body, counts.value.0, counts.value.1))
  }

  /** The literal prefix of a pattern with its escaped full stops read, how many characters
      it denotes, and the text from the opening bracket on. */
  function ReadPrefix(s: string): (r: Option<(string, string)>)
    ensures r.Some? ==> r.value.1 != "" && r.value.1[0] == '['
  {
    if s == "" then None
    else if s[0] == '[' then Some(("", s))
    else if IsLiteralChar(s[0]) then
      var rest := ReadPrefix(s[1..]);
      if rest.None? then None else Some(([s[0]] + rest.value.0, rest.value.1))
    else if s[0] == '\\' && |s| >= 2 && s[1] == '.' then
      var rest := ReadPrefix(s[2..]);
      if rest.None? then None else Some(("." + rest.value.0, rest.value.1))
    else None
  }

  function SuffixExpression(body: string, minimum: nat, maximum: nat): string {
    "^" + ClassTerm(body, minimum, maximum) + "$"
  }

  function ClassTerm(body: string, minimum: nat, maximum: nat): string {
    "[" + body + "]{" + Decimal(minimum) + "," + Decimal(maximum) + "}"
  }

  predicate IsUsableTail(tail: ClassTail) {
    && Scan(tail.body, 0).Some?
    && tail.minimum <= tail.maximum <= MAXIMUM_STRING_CODE_POINTS
  }

  function CompilePattern(text: string): Option<CompiledPattern> {
    if |text| > MAXIMUM_PATTERN_LENGTH || |text| < 2 || text[0] != '^' || text[|text| - 1] != '$' then None
    else
      var middle := text[1..|text| - 1];
      if IsLiteralBody(middle) then Some(Literal(middle, |middle|, |middle|))
      else
        var whole := ReadClassTail(middle);
        if whole.Some? then
          if !IsUsableTail(whole.value) then None
          else Some(AsciiClass(text, whole.value.minimum, whole.value.maximum))
        else
          var prefixed := ReadPrefix(middle);
          if prefixed.None? || !(1 <= |prefixed.value.0| <= 96) then None
          else
            var tail := ReadClassTail(prefixed.value.1);
            if tail.None? || !IsUsableTail(tail.value) then None
            else
              var ClassTail(body, minimum, maximum) := tail.value;
              var prefix := prefixed.value.0;
              Some(PrefixedAsciiClass(prefix, SuffixExpression(body, minimum, maximum),
                                      |prefix| + minimum, |prefix| + maximum))
  }

  /** The source's matcher; `RegexAccepts` stands for the engine behind its expressions. */
  predicate MatchesPattern(pattern: CompiledPattern, v: string) {
    match pattern
    case Literal(literal, _, _) => v == literal
    case AsciiClass(expression, _, _) => RegexAccepts(expression, v)
    case PrefixedAsciiClass(prefix, suffixExpression, _, _) =>
      prefix <= v && RegexAccepts(suffixExpression, v[|prefix|..])
  }

  // ---------------------------------------------------------------------------
  // Exactness
  // ---------------------------------------------------------------------------

  function Ones(s: string): seq<Term> {
    seq(|s|, i requires 0 <= i < |s| => Term(One(s[i]), 1, 1))
  }

  /** A run of single-character terms accepts that text and then whatever follows. */
  lemma {:induction false} OnesMatch(s: string, rest: seq<Term>, v: string)
    ensures Matches(Ones(s) + rest, v) <==> s <= v && Matches(rest, v[|s|..])
  {
    var terms := Ones(s) + rest;
    if s == "" {
      assert terms == rest && v[0..] == v;
    } else {
      assert terms[0] == Term(One(s[0]), 1, 1);
      assert terms[1..] == Ones(s[1..]) + rest;
      if v != "" && v[0] == s[0] {
        OnesMatch(s[1..], rest, v[1..]);
        assert s <= v <==> s[1..] <= v[1..] by {
          assert s == [s[0]] + s[1..] && v == [v[0]] + v[1..];
        }
        assert |s| <= |v| ==> v[1..][|s| - 1..] == v[|s|..];
        assert Run(terms[0], v, 1);
      } else {
        assert forall k: nat | k <= |v| :: !Run(terms[0], v, k);
      }
    }
  }

  /** A single bounded class term accepts exactly the strings over the class whose length
      is within the bounds. */
  lemma ClassTermMatches(body: string, least: nat, most: nat, v: string)
    ensures Matches([Term(ClassOf(body), least, most)], v) <==>
            least <= |v| <= most && forall i :: 0 <= i < |v| ==> ClassContains(body, v[i])
  {
    var terms := [Term(ClassOf(body), least, most)];
    assert terms[1..] == [];
    assert forall k: nat | k <= |v| :: Matches(terms[1..], v[k..]) <==> k == |v|;
    assert Run(terms[0], v, |v|) <==>
           least <= |v| <= most && forall i :: 0 <= i < |v| ==> ClassContains(body, v[i]);
  }

  lemma QuantifiedTermReads(s: string, atom: Atom, counts: string, least: nat, most: nat)
    requires ReadAtom(s) == Some((atom, counts))
    requires ReadQuantifier(counts) == Some((least, most, ""))
    ensures ReadTerms(s) == Some([Term(atom, least, most)])
  {
    assert ReadTerms("") == Some([]);
    assert [Term(atom, least, most)] + [] == [Term(atom, least, most)];
  }

  lemma {:induction false} LiteralTextReads(s: string)
    requires IsLiteralBody(s)
    ensures ReadTerms(s) == Some(Ones(s))
  {
    if s != "" {
      LiteralTextReads(s[1..]);
      assert ReadAtom(s) == Some((One(s[0]), s[1..]));
      assert ReadQuantifier(s[1..]).None?;
      assert Ones(s) == [Term(One(s[0]), 1, 1)] + Ones(s[1..]);
    }
  }

  /** The counts are what the engine reads as a quantifier to the end. */
  lemma CountsRead(s: string)
    requires ReadCounts(s).Some?
    ensures ReadQuantifier(s) == Some((ReadCounts(s).value.0, ReadCounts(s).value.1, ""))
  {
    hide Numeral;
    var s2 := s[1..];
    var d := DigitCount(s2);
    if s2[d..] == "}" {
      assert s2[d] == s2[d..][0] && s2[d + 1..] == "";
    } else {
      var s3 := s2[d + 1..];
      var e := DigitCount(s3);
      assert s3[e] == s3[e..][0] && s3[e + 1..] == "";
    }
  }

  /** A text that `ReadClassTail` accepts is one bounded class term. */
  lemma ClassTailReads(s: string)
    requires ReadClassTail(s).Some?
    ensures var ClassTail(body, minimum, maximum) := ReadClassTail(s).value;
            ReadTerms(s) == Some([Term(ClassOf(body), minimum, maximum)])
  {
    hide ReadCounts, ReadQuantifier;
    var tail := ReadClassTail(s).value;
    var counts := s[IndexOf(s[1..], ']') + 2..];
    assert ReadAtom(s) == Some((ClassOf(tail.body), counts));
    CountsRead(counts);
    QuantifiedTermReads(s, ClassOf(tail.body), counts, tail.minimum, tail.maximum);
  }

  lemma QuantifierReads(low: string, high: string)
    requires low != "" && high != "" && AllDigits(low) && AllDigits(high)
    ensures ReadQuantifier("{" + low + "," + high + "}") == Some((Numeral(low), Numeral(high), ""))
  {
    hide Numeral, DigitCount;
    var counts := "{" + low + "," + high + "}";
    var s1 := counts[1..];
    assert s1 == low + ("," + high + "}");
    DigitCountOfRun(low, "," + high + "}");
    assert s1[..|low|] == low && s1[|low|] == ',';
    var s2 := s1[|low| + 1..];
    assert s2 == high + "}";
    DigitCountOfRun(high, "}");
    assert s2[..|high|] == high && s2[|high|] == '}' && s2[|high| + 1..] == "";
  }

  lemma ClassTermReads(body: string, minimum: nat, maximum: nat)
    requires ']' !in body
    ensures ReadTerms(ClassTerm(body, minimum, maximum)) == Some([Term(ClassOf(body), minimum, maximum)])
  {
    var s := ClassTerm(body, minimum, maximum);
    var counts := "{" + Decimal(minimum) + "," + Decimal(maximum) + "}";
    assert s == "[" + body + "]" + counts;
    assert s[1..] == body + "]" + counts;
    IndexOfRun(body, ']', counts);
    assert s[1..][..|body|] == body && s[|body| + 2..] == counts;
    QuantifierReads(Decimal(minimum), Decimal(maximum));
    NumeralOfDecimal(minimum);
    NumeralOfDecimal(maximum);
    QuantifiedTermReads(s, ClassOf(body), counts, minimum, maximum);
  }

  lemma OneReads(s: string, c: char, rest: string, terms: seq<Term>)
    requires ReadAtom(s) == Some((One(c), rest)) && ReadQuantifier(rest).None?
    requires ReadTerms(rest) == Some(terms)
    ensures ReadTerms(s) == Some([Term(One(c), 1, 1)] + terms)
  {
  }

  lemma OnesOfCons(c: char, s: string, rest: seq<Term>)
    ensures Ones([c] + s) + rest == [Term(One(c), 1, 1)] + (Ones(s) + rest)
  {
  }

  /** Each step of the prefix reader reads one quantifier-free character. */
  lemma PrefixHeadReads(s: string, width: nat)
    requires ReadPrefix(s).Some? && s[0] != '['
    requires width == if IsLiteralChar(s[0]) then 1 else 2
    ensures width <= |s| && ReadPrefix(s[width..]).Some?
    ensures ReadPrefix(s).value.1 == ReadPrefix(s[width..]).value.1
    ensures ReadPrefix(s).value.0 == [s[width - 1]] + ReadPrefix(s[width..]).value.0
  {
  }

  lemma LiteralAtomReads(s: string)
    requires s != "" && (IsLiteralChar(s[0]) || (s[0] == '\\' && |s| >= 2 && s[1] == '.'))
    ensures var width := if IsLiteralChar(s[0]) then 1 else 2;
            ReadAtom(s) == Some((One(s[width - 1]), s[width..]))
  {
  }

  lemma PrefixStart(s: string)
    requires ReadPrefix(s).Some?
    ensures s != "" && ReadQuantifier(s).None?
  {
  }

  lemma {:induction false} PrefixReads(s: string, terms: seq<Term>)
    requires ReadPrefix(s).Some?
    requires ReadTerms(ReadPrefix(s).value.1) == Some(terms)
    ensures ReadTerms(s) == Some(Ones(ReadPrefix(s).value.0) + terms)
    decreases |s|
  {
    if s[0] == '[' {
      assert Ones("") + terms == terms;
    } else {
      var width := if IsLiteralChar(s[0]) then 1 else 2;
      PrefixHeadReads(s, width);
      LiteralAtomReads(s);
      PrefixStart(s[width..]);
      PrefixReads(s[width..], terms);
      var shorter := ReadPrefix(s[width..]).value.0;
      OneReads(s, s[width - 1], s[width..], Ones(shorter) + terms);
      OnesOfCons(s[width - 1], shorter, terms);
    }
  }

  /** Every compiled pattern accepts precisely the strings its anchored text denotes. */
  lemma CompiledPatternIsExact(text: string, v: string)
    requires CompilePattern(text).Some?
    ensures MatchesPattern(CompilePattern(text).value, v) <==> RegexAccepts(text, v)
  {
    var middle := text[1..|text| - 1];
    match CompilePattern(text).value
    case Literal(_, _, _) =>
      LiteralTextReads(middle);
      OnesMatch(middle, [], v);
      assert Ones(middle) + [] == Ones(middle);
    case AsciiClass(_, _, _) =>
    case PrefixedAsciiClass(prefix, suffix, _, _) =>
      PrefixedPatternIsExact(middle, v);
      var ClassTail(body, minimum, maximum) := ReadClassTail(ReadPrefix(middle).value.1).value;
      assert suffix == SuffixExpression(body, minimum, maximum);
  }

  lemma PrefixedPatternIsExact(middle: string, v: string)
    requires ReadPrefix(middle).Some? && ReadClassTail(ReadPrefix(middle).value.1).Some?
    ensures var (prefix, rest) := ReadPrefix(middle).value;
            var ClassTail(body, minimum, maximum) := ReadClassTail(rest).value;
            ReadTerms(middle).Some? &&
            (Matches(ReadTerms(middle).value, v) <==>
             prefix <= v && RegexAccepts(SuffixExpression(body, minimum, maximum), v[|prefix|..]))
  {
    var (prefix, rest) := ReadPrefix(middle).value;
    var ClassTail(body, minimum, maximum) := ReadClassTail(rest).value;
    var terms := [Term(ClassOf(body), minimum, maximum)];
    ClassTailReads(rest);
    PrefixReads(middle, terms);
    OnesMatch(prefix, terms, v);
    if prefix <= v {
      SuffixAccepts(body, minimum, maximum, v[|prefix|..]);
    }
  }

  /** The engine on a printed suffix expression is the class term it was printed from. */
  lemma SuffixAccepts(body: string, minimum: nat, maximum: nat, v: string)
    requires ']' !in body
    ensures RegexAccepts(SuffixExpression(body, minimum, maximum), v) <==>
            Matches([Term(ClassOf(body), minimum, maximum)], v)
  {
    var suffix := SuffixExpression(body, minimum, maximum);
    assert suffix[1..|suffix| - 1] == ClassTerm(body, minimum, maximum);
    ClassTermReads(body, minimum, maximum);
  }

  predicate Over(body: string, v: string) {
    forall i :: 0 <= i < |v| ==> ClassContains(body, v[i])
  }

  /** The closed form of the whole-class shape. */
  lemma AsciiClassAccepts(text: string, tail: ClassTail, v: string)
    requires |text| >= 2 && text[0] == '^' && text[|text| - 1] == '$'
    requires ReadClassTail(text[1..|text| - 1]) == Some(tail)
    ensures RegexAccepts(text, v) <==> tail.minimum <= |v| <= tail.maximum && Over(tail.body, v)
  {
    ClassTailReads(text[1..|text| - 1]);
    ClassTermMatches(tail.body, tail.minimum, tail.maximum, v);
  }

  /** The closed form of the suffix of the prefixed shape. */
  lemma SuffixClosedForm(s: string, tail: ClassTail, v: string)
    requires ReadClassTail(s) == Some(tail)
    ensures RegexAccepts(SuffixExpression(tail.body, tail.minimum, tail.maximum), v) <==>
            tail.minimum <= |v| <= tail.maximum && Over(tail.body, v)
  {
    SuffixAccepts(tail.body, tail.minimum, tail.maximum, v);
    ClassTermMatches(tail.body, tail.minimum, tail.maximum, v);
  }

  /** Every string a compiled pattern accepts has a length within the computed bounds. */
  lemma MatchLengthIsBounded(text: string, v: string)
    requires CompilePattern(text).Some? && MatchesPattern(CompilePattern(text).value, v)
    ensures CompilePattern(text).value.minimumCodePoints <= |v| <= CompilePattern(text).value.maximumCodePoints
  {
    var middle := text[1..|text| - 1];
    match CompilePattern(text).value
    case Literal(_, _, _) =>
    case AsciiClass(_, _, _) =>
      AsciiClassAccepts(text, ReadClassTail(middle).value, v);
    case PrefixedAsciiClass(prefix, _, _, _) =>
      var rest := ReadPrefix(middle).value.1;
      SuffixClosedForm(rest, ReadClassTail(rest).value, v[|prefix|..]);
  }

  /** Every length within the bounds is reached by a matching string. */
  lemma PatternWitness(text: string, length: nat) returns (v: string)
    requires CompilePattern(text).Some?
    requires CompilePattern(text).value.minimumCodePoints <= length <= CompilePattern(text).value.maximumCodePoints
    ensures |v| == length && MatchesPattern(CompilePattern(text).value, v)
  {
    var middle := text[1..|text| - 1];
    match CompilePattern(text).value
    case Literal(literal, _, _) =>
      v := literal;
    case AsciiClass(_, _, _) =>
      var tail := ReadClassTail(middle).value;
      v := ClassWitness(tail.body, length);
      AsciiClassAccepts(text, tail, v);
    case PrefixedAsciiClass(prefix, _, _, _) =>
      var rest := ReadPrefix(middle).value.1;
      var tail := ReadClassTail(rest).value;
      var run := ClassWitness(tail.body, length - |prefix|);
      SuffixClosedForm(rest, tail, run);
      v := prefix + run;
      assert v[|prefix|..] == run;
  }

  lemma ClassWitness(body: string, length: nat) returns (v: string)
    requires body != "" && Scan(body, 0).Some?
    ensures |v| == length && Over(body, v)
  {
    FirstOfBody(body);
    v := seq(length, _ => body[0]);
  }

  lemma FirstOfBody(body: string)
    requires body != "" && Scan(body, 0).Some?
    ensures ClassContains(body, body[0])
  {
    if |body| >= 3 && IsListedRange(body[0..3]) {
      ListedRangeShape(body[0..3]);
      assert body[0] == body[0..3][0] && body[1] == body[0..3][1] && body[2] == body[0..3][2];
    } else {
      NoHiddenRange(body, 0);
    }
  }
}
