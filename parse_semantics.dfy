/** What the `Parse` methods written by the two parsing generators do
    when they run (Source/GraduatedCylinder.Roslyn/Full/ParsingGenerator.cs
    and Source/GraduatedCylinder.Roslyn/IoT/ParsingGenerator.cs): match the
    input with the `Pair` or `ValueOnly` regex, read the number with
    `float.TryParse`, look the units up by abbreviation, or throw
    `Exception("Error parsing: <input>")`. The lookup may fail on an
    abbreviation it does not know; what it throws then is not part of this
    model, so that failure is its own error, naming the abbreviation.

    `float.TryParse` and the abbreviation lookup (`ShortNames`) are not part
    of this model; they are the `Host` the parsers call. */
module ParseSemantics {
  import opened Wrappers
  import opened Regexs

  /** `float.TryParse` (the number read, or failure) and
      `ShortNames.Get<Units>` (the unit an abbreviation names, or failure on
      an abbreviation it does not know). */
  datatype Host<U> = Host(tryParse: string -> Option<real>, unitsOf: string -> Option<U>)

  /** The dimension value a parser returns. */
  datatype Quantity<U> = Quantity(value: real, units: U)

  /** Why a parser fails: the generated `throw` of an exception whose
      message is `ParseError(input)`, or the abbreviation lookup failing on
      the units text. */
  datatype Failure = ParseFailed(input: string) | UnitsNotFound(abbreviation: string)

  /** The message of the exception the generated code throws. */
  function ParseError(input: string): string {
    "Error parsing: " + input
  }

  /** `float.TryParse` reads every number the regexes accept. */
  ghost predicate ReadsNumbers<U>(h: Host<U>) {
    forall t :: InNumber(t) ==> h.tryParse(t).Some?
  }

  /** The `Pair` pattern matches and the lookup knows its units text. */
  predicate UnitsResolve<U>(h: Host<U>, s: string) {
    match MatchPair(s)
    case None => false
    case Some(m) => h.unitsOf(m.units).Some?
  }

  /** The failures the `Pair` branch can end in: the generated `throw`
      with the whole input, or the lookup failing on the matched units. */
  predicate PairFailure<U>(h: Host<U>, s: string, f: Failure) {
    f == ParseFailed(s) ||
    (MatchPair(s).Some? && f == UnitsNotFound(MatchPair(s).value.units) && h.unitsOf(f.abbreviation).None?)
  }

  /** The generated `Parse(string valueWithUnits)`: a `Pair` match whose
      value group reads as a number gives that number in the units its
      units group names; anything else throws. */
  function ParseWithUnits<U>(h: Host<U>, s: string): (r: Result<Quantity<U>, Failure>)
    ensures r.Err? ==> PairFailure(h, s, r.error)
    ensures r.Ok? ==> MatchPair(s).Some? && h.unitsOf(MatchPair(s).value.units) == Some(r.value.units) &&
                      h.tryParse(MatchPair(s).value.value) == Some(r.value.value)
  {
    match MatchPair(s)
    case None => Err(ParseFailed(s))
    case Some(m) =>
      match h.tryParse(m.value)
      case None => Err(ParseFailed(s))
      case Some(v) =>
        match h.unitsOf(m.units)
        case None => Err(UnitsNotFound(m.units))
        case Some(u) => Ok(Quantity(v, u))
  }

  /** The generated `Parse(string value, Units units)`: a `ValueOnly`
      match that reads as a number gives that number in `units`; anything
      else throws. */
  function ParseValue<U>(h: Host<U>, s: string, units: U): (r: Result<Quantity<U>, Failure>)
    ensures r.Err? ==> r.error == ParseFailed(s)
    ensures r.Ok? ==> r.value.units == units
  {
    match MatchValueOnly(s)
    case None => Err(ParseFailed(s))
    case Some(t) =>
      match h.tryParse(t)
      case None => Err(ParseFailed(s))
      case Some(v) => Ok(Quantity(v, units))
  }

  /** The generated IoT `Parse<Dimension>(string value, Units defaultUnits)`
      as written: a `Pair` match is decided on its own (a value that does
      not read throws at once); only when `Pair` does not match is
      `ValueOnly` tried, with the default units. */
  function ParseIoT<U>(h: Host<U>, s: string, defaultUnits: U): (r: Result<Quantity<U>, Failure>)
    ensures r.Err? ==> PairFailure(h, s, r.error)
    ensures r.Ok? && MatchPair(s).None? ==> r.value.units == defaultUnits
  {
    match MatchPair(s)
    case Some(m) =>
      (match h.tryParse(m.value)
       case None => Err(ParseFailed(s))
       case Some(v) =>
         match h.unitsOf(m.units)
         case None => Err(UnitsNotFound(m.units))
         case Some(u) => Ok(Quantity(v, u)))
    case None => ParseValue(h, s, defaultUnits)
  }

  /** With a number reader that accepts what the regexes accept,
      `Parse(valueWithUnits)` succeeds exactly on the inputs of the `Pair`
      pattern whose units the lookup knows, its units come from a word that
      ends the input, and it fails on the lookup exactly when the input is
      in the `Pair` language but its units are unknown. */
  lemma ParseWithUnitsAccepts<U>(h: Host<U>, s: string)
    requires ReadsNumbers(h)
    ensures ParseWithUnits(h, s).Ok? <==> InPairLanguage(StripFinalNewline(s)) && UnitsResolve(h, s)
    ensures ParseWithUnits(h, s).Ok? ==>
              exists w :: Word(w) && h.unitsOf(w) == Some(ParseWithUnits(h, s).value.units)
    ensures (ParseWithUnits(h, s).Err? && ParseWithUnits(h, s).error.UnitsNotFound?) <==>
              InPairLanguage(StripFinalNewline(s)) && !UnitsResolve(h, s)
  {
    MatchPairIsLanguage(s);
    if MatchPair(s).Some? {
      var m := MatchPair(s).value;
      PairValueMatchesValueOnly(s);
      MatchPairGroups(s);
      assert InNumber(m.value);
      assert Word(m.units);
    }
  }

  /** `Parse(value, units)` succeeds exactly on the inputs of the
      `ValueOnly` pattern, always in the units given. */
  lemma ParseValueAccepts<U>(h: Host<U>, s: string, units: U)
    requires ReadsNumbers(h)
    ensures ParseValue(h, s, units).Ok? <==> InNumberLanguage(StripFinalNewline(s))
    ensures ParseValue(h, s, units).Ok? ==>
              ParseValue(h, s, units).value == Quantity(h.tryParse(StripFinalNewline(s)).value, units)
  {
    InNumberIsLanguage(StripFinalNewline(s));
  }

  /** The IoT parser succeeds on a `Pair` input whose units the lookup
      knows, and on any other input of the `ValueOnly` pattern; a `Pair`
      input takes its units from the text, any other number the default
      units. */
  lemma ParseIoTAccepts<U>(h: Host<U>, s: string, defaultUnits: U)
    requires ReadsNumbers(h)
    ensures ParseIoT(h, s, defaultUnits).Ok? <==>
              (InPairLanguage(StripFinalNewline(s)) && UnitsResolve(h, s)) ||
              (!InPairLanguage(StripFinalNewline(s)) && InNumberLanguage(StripFinalNewline(s)))
    ensures !InPairLanguage(StripFinalNewline(s)) ==> ParseIoT(h, s, defaultUnits) == ParseValue(h, s, defaultUnits)
    ensures InPairLanguage(StripFinalNewline(s)) ==> ParseIoT(h, s, defaultUnits) == ParseWithUnits(h, s)
  {
    MatchPairIsLanguage(s);
    ParseWithUnitsAccepts(h, s);
    ParseValueAccepts(h, s, defaultUnits);
  }

  /** As written, the IoT parser never gives the bare number "12" the
      default units: the `Pair` pattern matches it as 1 in the units "2"
      and is tried first, so the result is that reading, or the lookup's
      failure on "2", whatever the default units are. */
  lemma IoTParseBareInteger<U>(h: Host<U>, defaultUnits: U)
    requires ReadsNumbers(h)
    ensures MatchValueOnly("12") == Some("12")
    ensures ParseIoT(h, "12", defaultUnits) ==
              if h.unitsOf("2").Some? then Ok(Quantity(h.tryParse("1").value, h.unitsOf("2").value))
              else Err(UnitsNotFound("2"))
    ensures forall other: U :: ParseIoT(h, "12", other) == ParseIoT(h, "12", defaultUnits)
  {
    PairSplitsBareInteger();
    assert InNumber("1") by {
      assert MatchValueOnly("1") == Some("1");
    }
  }

  /** The IoT parser as evidently intended: a bare number takes the
      default units, and only other inputs are read as value and units. */
  function ParseIoTCorrected<U>(h: Host<U>, s: string, defaultUnits: U): (r: Result<Quantity<U>, Failure>)
    ensures r.Err? ==> PairFailure(h, s, r.error)
    ensures r.Ok? && MatchValueOnly(s).Some? ==> r.value.units == defaultUnits
  {
    match MatchValueOnly(s)
    case Some(_) => ParseValue(h, s, defaultUnits)
    case None => ParseWithUnits(h, s)
  }

  /** The corrected parser gives every number the `ValueOnly` pattern
      accepts the default units and agrees with the written one on every
      other input. It accepts every input the written one accepts; the
      inputs it accepts in addition are bare numbers on which the written
      one fails in the abbreviation lookup. */
  lemma IoTParseCorrectedDefaultsUnits<U>(h: Host<U>, s: string, defaultUnits: U)
    requires ReadsNumbers(h)
    ensures InNumberLanguage(StripFinalNewline(s)) ==>
              ParseIoTCorrected(h, s, defaultUnits).Ok? && ParseIoTCorrected(h, s, defaultUnits).value.units == defaultUnits &&
              h.tryParse(StripFinalNewline(s)) == Some(ParseIoTCorrected(h, s, defaultUnits).value.value)
    ensures !InNumberLanguage(StripFinalNewline(s)) ==> ParseIoTCorrected(h, s, defaultUnits) == ParseIoT(h, s, defaultUnits)
    ensures ParseIoT(h, s, defaultUnits).Ok? ==> ParseIoTCorrected(h, s, defaultUnits).Ok?
    ensures ParseIoTCorrected(h, s, defaultUnits).Ok? && ParseIoT(h, s, defaultUnits).Err? ==>
              InNumberLanguage(StripFinalNewline(s)) && ParseIoT(h, s, defaultUnits).error.UnitsNotFound?
  {
    ParseValueAccepts(h, s, defaultUnits);
    ParseWithUnitsAccepts(h, s);
    ParseIoTAccepts(h, s, defaultUnits);
    MatchPairIsLanguage(s);
  }

  /** The documented inputs keep their meaning under the correction: "12 s"
      is 12 in the units "s" when the lookup knows them, and "12" is 12 in
      the default units. */
  lemma IoTParseCorrectedSamples<U>(h: Host<U>, defaultUnits: U)
    requires ReadsNumbers(h)
    ensures ParseIoTCorrected(h, "12 s", defaultUnits) ==
              if h.unitsOf("s").Some? then Ok(Quantity(h.tryParse("12").value, h.unitsOf("s").value))
              else Err(UnitsNotFound("s"))
    ensures ParseIoTCorrected(h, "12", defaultUnits) == Ok(Quantity(h.tryParse("12").value, defaultUnits))
  {
    PairDocumentedSample();
    PairSplitsBareInteger();
    assert MatchValueOnly("12 s") == None by {
      assert StripFinalNewline("12 s") == "12 s";
      assert !InNumber("12 s") by {
        SkipDigitsFindsRun("12 s", 0, 2);
      }
    }
  }
}
