/** The two number grammars of Source/GraduatedCylinder/Text/Regexs.cs:

      ValueOnly  ^[+-]?\d+(?:\.\d+)?(?:[eE][+-]?\d+)?$
      Pair       ^(?<value>[+-]?\d+(?:\.\d+)?(?:[eE][+-]?\d+)?)\s*?(?<units>\w+)$

    Each grammar is given twice: as a recogniser that scans the text
    (the functions the parse semantics use) and as a declarative language
    (ghost predicates with existential splits); lemmas prove that the two
    agree. Character classes are the ASCII parts of .NET's `\d`, `\w` and
    `\s`. .NET's `$` also matches just before a final '\n', so both
    recognisers first drop one trailing '\n'. */
module Regexs {
  import opened Wrappers

  predicate IsDigit(c: char) { '0' <= c <= '9' }

  predicate IsSign(c: char) { c == '+' || c == '-' }

  predicate IsExponentMark(c: char) { c == 'e' || c == 'E' }

  predicate IsWordChar(c: char) {
    IsDigit(c) || ('a' <= c <= 'z') || ('A' <= c <= 'Z') || c == '_'
  }

  predicate IsSpace(c: char) {
    c == ' ' || c == '\t' || c == '\n' || c == '\r' || c == '\U{000B}' || c == '\U{000C}'
  }

  lemma SpaceIsNotWord(c: char)
    ensures IsSpace(c) ==> !IsWordChar(c)
  {
  }

  // ---------------------------------------------------------------------
  // Declarative languages
  // ---------------------------------------------------------------------

  /** `\d+` */
  predicate Digits(s: string) {
    |s| > 0 && forall i :: 0 <= i < |s| ==> IsDigit(s[i])
  }

  /** `[+-]?` */
  predicate OptSign(s: string) {
    s == [] || (|s| == 1 && IsSign(s[0]))
  }

  /** `(?:\.\d+)?` */
  predicate OptFraction(s: string) {
    s == [] || (|s| >= 2 && s[0] == '.' && Digits(s[1..]))
  }

  /** `(?:[eE][+-]?\d+)?` */
  predicate OptExponent(s: string) {
    s == [] ||
    (|s| >= 2 && IsExponentMark(s[0]) && (Digits(s[1..]) || (IsSign(s[1]) && Digits(s[2..]))))
  }

  /** The text between `^` and `$` of ValueOnly, and the `value` group of Pair. */
  ghost predicate InNumberLanguage(t: string) {
    exists i, j, k :: 0 <= i <= j <= k <= |t| && NumberSplit(t, i, j, k)
  }

  predicate NumberSplit(t: string, i: nat, j: nat, k: nat)
    requires i <= j <= k <= |t|
  {
    OptSign(t[..i]) && Digits(t[i..j]) && OptFraction(t[j..k]) && OptExponent(t[k..])
  }

  predicate AllSpace(s: string) {
    forall i :: 0 <= i < |s| ==> IsSpace(s[i])
  }

  /** `\w+` */
  predicate Word(s: string) {
    |s| > 0 && forall i :: 0 <= i < |s| ==> IsWordChar(s[i])
  }

  /** The text between `^` and `$` of Pair: a number, optional white space,
      and a word running to the end. */
  ghost predicate InPairLanguage(t: string) {
    exists n, w :: 0 < n <= w < |t| && PairSplit(t, n, w)
  }

  ghost predicate PairSplit(t: string, n: nat, w: nat)
    requires n <= w <= |t|
  {
    InNumberLanguage(t[..n]) && AllSpace(t[n..w]) && Word(t[w..])
  }

  // ---------------------------------------------------------------------
  // Recognisers
  // ---------------------------------------------------------------------

  /** The end of the longest run of digits that starts at `i`. */
  function SkipDigits(t: string, i: nat): (j: nat)
    requires i <= |t|
    ensures i <= j <= |t|
    ensures forall k :: i <= k < j ==> IsDigit(t[k])
    ensures j == |t| || !IsDigit(t[j])
    decreases |t| - i
  {
    if i < |t| && IsDigit(t[i]) then SkipDigits(t, i + 1) else i
  }

  /** The end of the longest run of white space that starts at `i`. */
  function SkipSpaces(t: string, i: nat): (j: nat)
    requires i <= |t|
    ensures i <= j <= |t|
    ensures forall k :: i <= k < j ==> IsSpace(t[k])
    ensures j == |t| || !IsSpace(t[j])
    decreases |t| - i
  {
    if i < |t| && IsSpace(t[i]) then SkipSpaces(t, i + 1) else i
  }

  /** Where the optional sign ends. */
  function SignEnd(t: string): nat {
    if |t| > 0 && IsSign(t[0]) then 1 else 0
  }

  /** Where the optional fraction that may start at `j` ends. */
  function FractionEnd(t: string, j: nat): (k: nat)
    requires j <= |t|
    ensures j <= k <= |t|
  {
    if j + 1 < |t| && t[j] == '.' && IsDigit(t[j + 1]) then SkipDigits(t, j + 1) else j
  }

  /** The rest of `t` from `k` on is empty or one exponent. */
  predicate ExponentToEnd(t: string, k: nat)
    requires k <= |t|
  {
    k == |t| ||
    (IsExponentMark(t[k]) &&
     var m := if k + 1 < |t| && IsSign(t[k + 1]) then k + 2 else k + 1;
     m < |t| && SkipDigits(t, m) == |t|)
  }

  /** Recogniser for the number language. */
  predicate InNumber(t: string) {
    var i := SignEnd(t);
    var j := SkipDigits(t, i);
    j > i && ExponentToEnd(t, FractionEnd(t, j))
  }

  /** The rest of `t` from `n` on is white space followed by a word that
      runs to the end. */
  predicate UnitTailAt(t: string, n: nat)
    requires n <= |t|
  {
    var w := SkipSpaces(t, n);
    w < |t| && forall k :: w <= k < |t| ==> IsWordChar(t[k])
  }

  function StripFinalNewline(s: string): (t: string)
    ensures |t| <= |s|
  {
    if |s| > 0 && s[|s| - 1] == '\n' then s[..|s| - 1] else s
  }

  /** `Regexs.ValueOnly.Match(s)`: the matched text (`Groups[0].Value`) on success. */
  function MatchValueOnly(s: string): Option<string> {
    var t := StripFinalNewline(s);
    if InNumber(t) then Some(t) else None
  }

  /** A successful Pair match: its `value` and `units` groups. */
  datatype PairMatch = PairMatch(value: string, units: string)

  predicate IsSplitAt(t: string, n: nat)
    requires n <= |t|
  {
    0 < n && InNumber(t[..n]) && UnitTailAt(t, n)
  }

  /** The largest `n <= bound` at which `t` splits into value and tail.
      .NET's backtracking tries the alternatives of the value group from the
      longest down (greedy `\d+` first, then present-before-absent for the
      optional fraction and exponent); every shorter alternative ends
      strictly earlier, so the first split it finds is the longest one. */
  function LongestSplit(t: string, bound: nat): (r: Option<nat>)
    requires bound <= |t|
    ensures r.Some? ==> r.value <= bound && IsSplitAt(t, r.value)
    ensures r.Some? ==> forall n :: r.value < n <= bound ==> !IsSplitAt(t, n)
    ensures r.None? ==> forall n :: 0 <= n <= bound ==> !IsSplitAt(t, n)
  {
    if bound == 0 then None
    else if IsSplitAt(t, bound) then Some(bound)
    else LongestSplit(t, bound - 1)
  }

  /** `Regexs.Pair.Match(s)`: the `value` and `units` groups on success. */
  function MatchPair(s: string): Option<PairMatch> {
    var t := StripFinalNewline(s);
    match LongestSplit(t, |t|)
    case None => None
    case Some(n) => Some(PairMatch(t[..n], t[SkipSpaces(t, n)..]))
  }

  // ---------------------------------------------------------------------
  // The recognisers decide the languages
  // ---------------------------------------------------------------------

  lemma InNumberSound(t: string)
    requires InNumber(t)
    ensures InNumberLanguage(t)
  {
    var i := SignEnd(t);
    var j := SkipDigits(t, i);
    var k := FractionEnd(t, j);
    assert Digits(t[i..j]);
    if k > j {
      assert Digits(t[j + 1..k]);
      assert t[j..k][1..] == t[j + 1..k];
    }
    if k < |t| {
      var m := if k + 1 < |t| && IsSign(t[k + 1]) then k + 2 else k + 1;
      assert Digits(t[m..]);
      if m == k + 2 {
        assert t[k..][2..] == t[m..];
      } else {
        assert t[k..][1..] == t[m..];
      }
    }
    assert NumberSplit(t, i, j, k);
  }

  /** A run of digits that ends at a non-digit is what SkipDigits finds. */
  lemma SkipDigitsFindsRun(t: string, i: nat, j: nat)
    requires i <= j <= |t|
    requires forall k :: i <= k < j ==> IsDigit(t[k])
    requires j == |t| || !IsDigit(t[j])
    ensures SkipDigits(t, i) == j
    decreases j - i
  {
    if i < j {
      SkipDigitsFindsRun(t, i + 1, j);
    }
  }

  lemma InNumberComplete(t: string, i: nat, j: nat, k: nat)
    requires i <= j <= k <= |t| && NumberSplit(t, i, j, k)
    ensures InNumber(t)
  {
    IntegerPartFound(t, i, j, k);
    FractionFound(t, j, k);
    ExponentFound(t, k);
  }

  /** The recogniser finds the sign and the integer digits of a split. */
  lemma IntegerPartFound(t: string, i: nat, j: nat, k: nat)
    requires i <= j <= k <= |t| && NumberSplit(t, i, j, k)
    ensures SignEnd(t) == i && SkipDigits(t, i) == j && j > i
  {
    assert t[i..j][0] == t[i];
    assert SignEnd(t) == i;
    forall x | i <= x < j ensures IsDigit(t[x]) {
      assert t[i..j][x - i] == t[x];
    }
    if j < |t| {
      if k > j {
        assert t[j..k][0] == t[j];
      } else {
        assert t[k..][0] == t[j];
      }
    }
    SkipDigitsFindsRun(t, i, j);
  }

  /** The recogniser finds the fraction of a split. */
  lemma FractionFound(t: string, j: nat, k: nat)
    requires j <= k <= |t| && OptFraction(t[j..k]) && OptExponent(t[k..])
    ensures FractionEnd(t, j) == k
  {
    if k > j {
      assert t[j..k][0] == t[j];
      assert t[j..k][1..] == t[j + 1..k];
      assert t[j + 1..k][0] == t[j + 1];
      forall x | j + 1 <= x < k ensures IsDigit(t[x]) {
        assert t[j + 1..k][x - j - 1] == t[x];
      }
      if k < |t| {
        assert t[k..][0] == t[k];
      }
      SkipDigitsFindsRun(t, j + 1, k);
    } else if j < |t| {
      assert t[k..][0] == t[j];
    }
  }

  /** The recogniser accepts the exponent of a split. */
  lemma ExponentFound(t: string, k: nat)
    requires k <= |t| && OptExponent(t[k..])
    ensures ExponentToEnd(t, k)
  {
    if k < |t| {
      var e := t[k..];
      assert e[0] == t[k];
      var m := if k + 1 < |t| && IsSign(t[k + 1]) then k + 2 else k + 1;
      if m == k + 2 {
        assert e[1] == t[k + 1];
        assert !Digits(e[1..]) by { assert e[1..][0] == t[k + 1]; }
        assert e[2..] == t[m..];
      } else {
        assert |e| >= 2;
        assert e[1] == t[k + 1];
        assert e[1..] == t[m..];
      }
      forall x | m <= x < |t| ensures IsDigit(t[x]) {
        assert t[m..][x - m] == t[x];
      }
      SkipDigitsFindsRun(t, m, |t|);
    }
  }

  lemma InNumberIsLanguage(t: string)
    ensures InNumber(t) <==> InNumberLanguage(t)
  {
    if InNumber(t) {
      InNumberSound(t);
    }
    if InNumberLanguage(t) {
      var i, j, k :| 0 <= i <= j <= k <= |t| && NumberSplit(t, i, j, k);
      InNumberComplete(t, i, j, k);
    }
  }

  lemma SkipSpacesFindsRun(t: string, i: nat, j: nat)
    requires i <= j <= |t|
    requires forall k :: i <= k < j ==> IsSpace(t[k])
    requires j == |t| || !IsSpace(t[j])
    ensures SkipSpaces(t, i) == j
    decreases j - i
  {
    if i < j {
      SkipSpacesFindsRun(t, i + 1, j);
    }
  }

  /** The recogniser of the tail and the declarative tail agree, and the
      tail's split point is unique: white space is never a word character. */
  lemma UnitTailIsLanguage(t: string, n: nat)
    requires n <= |t|
    ensures UnitTailAt(t, n) <==> exists w :: n <= w < |t| && AllSpace(t[n..w]) && Word(t[w..])
    ensures forall w :: n <= w < |t| && AllSpace(t[n..w]) && Word(t[w..]) ==> w == SkipSpaces(t, n)
  {
    var w0 := SkipSpaces(t, n);
    if UnitTailAt(t, n) {
      assert AllSpace(t[n..w0]) by {
        forall x | 0 <= x < w0 - n ensures IsSpace(t[n..w0][x]) { assert t[n..w0][x] == t[n + x]; }
      }
      assert Word(t[w0..]) by {
        forall x | 0 <= x < |t| - w0 ensures IsWordChar(t[w0..][x]) { assert t[w0..][x] == t[w0 + x]; }
      }
    }
    forall w | n <= w < |t| && AllSpace(t[n..w]) && Word(t[w..]) ensures w == SkipSpaces(t, n) && UnitTailAt(t, n) {
      forall x | n <= x < w ensures IsSpace(t[x]) { assert t[n..w][x - n] == t[x]; }
      assert t[w..][0] == t[w];
      SpaceIsNotWord(t[w]);
      SkipSpacesFindsRun(t, n, w);
      forall x | w <= x < |t| ensures IsWordChar(t[x]) { assert t[w..][x - w] == t[x]; }
    }
  }

  lemma IsSplitAtIsLanguage(t: string, n: nat)
    requires n <= |t|
    ensures IsSplitAt(t, n) <==> 0 < n && exists w :: n <= w < |t| && PairSplit(t, n, w)
  {
    InNumberIsLanguage(t[..n]);
    UnitTailIsLanguage(t, n);
    if IsSplitAt(t, n) {
      var w :| n <= w < |t| && AllSpace(t[n..w]) && Word(t[w..]);
      assert PairSplit(t, n, w);
    }
    if 0 < n && exists w :: n <= w < |t| && PairSplit(t, n, w) {
      var w :| n <= w < |t| && PairSplit(t, n, w);
      assert AllSpace(t[n..w]) && Word(t[w..]);
    }
  }

  /** Pair matches exactly the texts of its language (after .NET's `$`
      has let one final '\n' go unmatched). */
  lemma MatchPairIsLanguage(s: string)
    ensures MatchPair(s).Some? <==> InPairLanguage(StripFinalNewline(s))
  {
    var t := StripFinalNewline(s);
    var r := LongestSplit(t, |t|);
    if r.Some? {
      IsSplitAtIsLanguage(t, r.value);
      var w :| r.value <= w < |t| && PairSplit(t, r.value, w);
    }
    if InPairLanguage(t) {
      var n, w :| 0 < n <= w < |t| && PairSplit(t, n, w);
      IsSplitAtIsLanguage(t, n);
    }
  }

  /** The groups of a Pair match cut the text into the value, the white
      space and the units, with the value the longest one possible. */
  lemma MatchPairGroups(s: string)
    requires MatchPair(s).Some?
    ensures var t := StripFinalNewline(s);
            var m := MatchPair(s).value;
            var n, w := |m.value|, |t| - |m.units|;
            0 < n <= w < |t| && t[..n] == m.value && t[w..] == m.units && PairSplit(t, n, w) &&
            forall n', w' :: n < n' <= w' < |t| ==> !PairSplit(t, n', w')
  {
    var t := StripFinalNewline(s);
    var n := LongestSplit(t, |t|).value;
    IsSplitAtIsLanguage(t, n);
    UnitTailIsLanguage(t, n);
    InNumberIsLanguage(t[..n]);
    forall n', w' | n < n' <= w' < |t| ensures !PairSplit(t, n', w') {
      IsSplitAtIsLanguage(t, n');
    }
  }

  lemma InNumberEndsWithDigit(t: string)
    requires InNumber(t)
    ensures |t| > 0 && IsDigit(t[|t| - 1])
  {
  }

  /** Whenever Pair matches, its value group on its own matches ValueOnly. */
  lemma PairValueMatchesValueOnly(s: string)
    requires MatchPair(s).Some?
    ensures MatchValueOnly(MatchPair(s).value.value) == Some(MatchPair(s).value.value)
  {
    var t := StripFinalNewline(s);
    var n := LongestSplit(t, |t|).value;
    InNumberEndsWithDigit(t[..n]);
  }

  // ---------------------------------------------------------------------
  // The documented samples
  // ---------------------------------------------------------------------

  lemma ValueOnlySamples()
    ensures MatchValueOnly("-3e2") == Some("-3e2")
    ensures MatchValueOnly("abc") == None
    ensures MatchValueOnly("12 kg") == None
  {
  }

  /** .NET's `$` lets a final '\n' stand after the number. */
  lemma ValueOnlyFinalNewline()
    ensures MatchValueOnly("12.5\n") == Some("12.5")
  {
    assert "12.5\n"[..4] == "12.5";
  }

  /** A fraction or an exponent needs at least one digit. */
  lemma FractionAndExponentNeedDigits()
    ensures MatchValueOnly("1.") == None
    ensures MatchValueOnly("1e") == None
    ensures MatchValueOnly("1e+") == None
  {
  }

  /** The samples written beside the Pair pattern. */
  lemma PairDocumentedSample()
    ensures MatchPair("12 s") == Some(PairMatch("12", "s"))
  {
    var t := "12 s";
    assert t[..2] == "12";
    assert !IsSplitAt(t, 4);
    assert !IsSplitAt(t, 3);
    assert IsSplitAt(t, 2);
  }

  lemma PairDocumentedNegativeSample()
    ensures MatchPair("-12 s") == Some(PairMatch("-12", "s"))
  {
    var t := "-12 s";
    NegativeSampleSplits();
    assert LongestSplit(t, 5) == LongestSplit(t, 4) == LongestSplit(t, 3) == Some(3);
    assert t[..3] == "-12" && SkipSpaces(t, 3) == 4 && t[4..] == "s";
  }

  /** "-12 s" splits after "-12" and nowhere later. */
  lemma NegativeSampleSplits()
    ensures IsSplitAt("-12 s", 3)
    ensures !IsSplitAt("-12 s", 4) && !IsSplitAt("-12 s", 5)
  {
    var t := "-12 s";
    assert t[..3] == "-12";
    assert !IsSplitAt(t, 5);
    assert !IsSplitAt(t, 4);
    assert IsSplitAt(t, 3);
  }

  lemma PairDocumentedDecimalSample()
    ensures MatchPair("12.12 s") == Some(PairMatch("12.12", "s"))
  {
    var t := "12.12 s";
    DecimalSampleSplits();
    assert LongestSplit(t, 7) == LongestSplit(t, 6) == LongestSplit(t, 5) == Some(5);
    assert t[..5] == "12.12" && SkipSpaces(t, 5) == 6 && t[6..] == "s";
  }

  /** "12.12 s" splits after "12.12" and nowhere later. */
  lemma DecimalSampleSplits()
    ensures IsSplitAt("12.12 s", 5)
    ensures !IsSplitAt("12.12 s", 6) && !IsSplitAt("12.12 s", 7)
  {
    var t := "12.12 s";
    var v := t[..5];
    assert v == "12.12";
    SkipDigitsFindsRun(v, 0, 2);
    SkipDigitsFindsRun(v, 3, 5);
    assert InNumber(v);
    assert SkipSpaces(t, 5) == 6;
    assert UnitTailAt(t, 5);
    assert !InNumber(t[..6]) by {
      SkipDigitsFindsRun(t[..6], 0, 2);
      SkipDigitsFindsRun(t[..6], 3, 5);
    }
    assert !UnitTailAt(t, 7);
  }

  /** White space before the units is optional. */
  lemma PairWithoutSpace()
    ensures MatchPair("12kg") == Some(PairMatch("12", "kg"))
  {
    var t := "12kg";
    NoSpaceSampleSplits();
    assert LongestSplit(t, 4) == LongestSplit(t, 3) == LongestSplit(t, 2) == Some(2);
    assert t[..2] == "12" && SkipSpaces(t, 2) == 2 && t[2..] == "kg";
  }

  /** "12kg" splits after "12" and nowhere later. */
  lemma NoSpaceSampleSplits()
    ensures IsSplitAt("12kg", 2)
    ensures !IsSplitAt("12kg", 3) && !IsSplitAt("12kg", 4)
  {
    var t := "12kg";
    assert t[..2] == "12";
    assert !IsSplitAt(t, 4);
    assert !IsSplitAt(t, 3);
    assert IsSplitAt(t, 2);
  }

  /** The units are one word running to the end. */
  lemma PairRejectsSplitUnits()
    ensures MatchPair("12 k g") == None
  {
    var t := "12 k g";
    assert !UnitTailAt(t, 6);
    var u := t[..5];
    SkipDigitsFindsRun(u, 0, 2);
    assert u == "12 k " && !InNumber(u);
    assert t[..4] == "12 k" && !InNumber(t[..4]);
    assert SkipSpaces(t, 3) == 3 && !IsWordChar(t[4]) && !UnitTailAt(t, 3);
    assert SkipSpaces(t, 2) == 3 && !UnitTailAt(t, 2);
    assert SkipSpaces(t, 1) == 1 && !UnitTailAt(t, 1);
  }

  /** A bare decimal number has no units, so Pair does not match it. */
  lemma PairRejectsBareDecimal()
    ensures MatchPair("12.5") == None
  {
    var t := "12.5";
    assert !UnitTailAt(t, 4);
    var u := t[..3];
    SkipDigitsFindsRun(u, 0, 2);
    assert u == "12." && !InNumber(u);
    assert SkipSpaces(t, 2) == 2 && !IsWordChar(t[2]) && !UnitTailAt(t, 2);
    assert SkipSpaces(t, 1) == 1 && !UnitTailAt(t, 1);
  }

  /** A bare integer of two or more digits does match Pair: the greedy
      `\d+` gives back its last digit, which `\w+` accepts as the units. */
  lemma PairSplitsBareInteger()
    ensures MatchPair("12") == Some(PairMatch("1", "2"))
    ensures MatchValueOnly("12") == Some("12")
  {
    var t := "12";
    assert t[..1] == "1";
    assert !IsSplitAt(t, 2);
    assert IsSplitAt(t, 1);
  }

}
