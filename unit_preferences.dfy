/** The preset unit bundles of Source/GraduatedCylinder/Units/UnitPreferences.cs
    and the culture rule that picks one of them. The presets only build fresh
    values from object initialisers, so a preference set is modelled as a
    value. A field that an initialiser does not mention keeps the default of
    its declaration, which lives in the part of the partial class that is
    not part of this model; `Default` stands for it. */
module UnitPreferences {

  /** One unit field: left at its declared default, or set to a named
      member of its unit enum. */
  datatype Setting = Default | Set(member: string)

  datatype Preferences = Preferences(
    precision: int,
    accelerationUnit: Setting,
    angleUnit: Setting,
    areaUnit: Setting,
    energyUnit: Setting,
    forceUnit: Setting,
    jerkUnit: Setting,
    lengthUnit: Setting,
    massUnit: Setting,
    massDensityUnit: Setting,
    massFlowRateUnit: Setting,
    momentumUnit: Setting,
    powerUnit: Setting,
    pressureUnit: Setting,
    speedUnit: Setting,
    temperatureUnit: Setting,
    timeUnit: Setting,
    torqueUnit: Setting,
    volumeUnit: Setting,
    volumetricFlowRateUnit: Setting)

  /** `new UnitPreferences()`: `Precision` is initialised to 2, every unit
      field keeps its default. */
  function NewPreferences(): Preferences {
    Preferences(2, Default, Default, Default, Default, Default, Default, Default, Default,
                Default, Default, Default, Default, Default, Default, Default, Default,
                Default, Default, Default)
  }

  function AmericanEnglishUnits(): Preferences {
    NewPreferences().(
      accelerationUnit := Set("MilePerHourPerSecond"),
      angleUnit := Set("Degree"),
      areaUnit := Set("SquareMiles"),
      energyUnit := Set("KiloCalories"),
      forceUnit := Set("PoundForce"),
      jerkUnit := Set("MilesPerSecondCubed"),
      lengthUnit := Set("Mile"),
      massUnit := Set("Pounds"),
      massDensityUnit := Set("PoundsPerCubicFeet"),
      massFlowRateUnit := Set("PoundsPerSecond"),
      momentumUnit := Set("PoundsMilesPerHour"),
      powerUnit := Set("Horsepower"),
      pressureUnit := Set("PoundsPerSquareInch"),
      speedUnit := Set("MilesPerHour"),
      temperatureUnit := Set("Fahrenheit"),
      timeUnit := Set("Hours"),
      torqueUnit := Set("FootPounds"),
      volumeUnit := Set("GallonsUSLiquid"),
      volumetricFlowRateUnit := Set("GallonsUsPerHour"))
  }

  function BritishEnglishUnits(): Preferences {
    NewPreferences().(
      accelerationUnit := Set("MilePerHourPerSecond"),
      angleUnit := Set("Degree"),
      areaUnit := Set("SquareMiles"),
      energyUnit := Set("KiloCalories"),
      forceUnit := Set("PoundForce"),
      jerkUnit := Set("MilesPerSecondCubed"),
      lengthUnit := Set("Mile"),
      massUnit := Set("Pounds"),
      massDensityUnit := Set("PoundsPerCubicFeet"),
      massFlowRateUnit := Set("PoundsPerSecond"),
      momentumUnit := Set("PoundsMilesPerHour"),
      powerUnit := Set("Horsepower"),
      pressureUnit := Set("PoundsPerSquareInch"),
      speedUnit := Set("MilesPerHour"),
      temperatureUnit := Set("Fahrenheit"),
      torqueUnit := Set("FootPounds"),
      volumeUnit := Set("GallonsUK"),
      volumetricFlowRateUnit := Set("GallonsUsPerSecond"))
  }

  function MetricUnits(): Preferences {
    NewPreferences().(
      accelerationUnit := Set("KilometerPerHour" + "PerSecond"),
      areaUnit := Set("SquareKilometer"),
      energyUnit := Set("NewtonMeters"),
      jerkUnit := Set("KiloMetersPerSecond" + "Cubed"),
      lengthUnit := Set("Kilometer"),
      powerUnit := Set("Kilowatts"),
      speedUnit := Set("KilometersPerHour"),
      volumeUnit := Set("Liters"))
  }

  /** `ToLowerInvariant` on one character, for the ASCII letters. */
  function ToLowerChar(c: char): char {
    if 'A' <= c <= 'Z' then (c as int + 32) as char else c
  }

  function ToLowerInvariant(s: string): (r: string)
    ensures |r| == |s|
    ensures forall i :: 0 <= i < |s| ==> r[i] == ToLowerChar(s[i])
  {
    if s == [] then [] else [ToLowerChar(s[0])] + ToLowerInvariant(s[1..])
  }

  /** `GetCultureUnits`: lower-case the code, then "en" and "en-us" pick the
      American preset, "en-gb" the British one, and every other code
      (the listed "es", "es-mx", "fr", "fr-ca" among them) the metric one. */
  function GetCultureUnits(cultureCode: string): (p: Preferences)
    ensures var code := ToLowerInvariant(cultureCode);
            (p == AmericanEnglishUnits() <==> code == "en" || code == "en-us") &&
            (p == BritishEnglishUnits() <==> code == "en-gb") &&
            (p == MetricUnits() <==> code != "en" && code != "en-us" && code != "en-gb")
    ensures p.precision == 2
  {
    var code := ToLowerInvariant(cultureCode);
    if code == "en" || code == "en-us" then AmericanEnglishUnits()
    else if code == "en-gb" then BritishEnglishUnits()
    else MetricUnits()
  }

  lemma {:induction false} ToLowerIdempotent(s: string)
    ensures ToLowerInvariant(ToLowerInvariant(s)) == ToLowerInvariant(s)
  {
    var once := ToLowerInvariant(s);
    var twice := ToLowerInvariant(once);
    forall i | 0 <= i < |s| ensures twice[i] == once[i] {
      assert ToLowerChar(ToLowerChar(s[i])) == ToLowerChar(s[i]);
    }
  }

  /** The culture code's case does not matter. */
  lemma GetCultureUnitsIgnoresCase(cultureCode: string)
    ensures GetCultureUnits(ToLowerInvariant(cultureCode)) == GetCultureUnits(cultureCode)
  {
    ToLowerIdempotent(cultureCode);
  }

  /** Culture codes are read case-insensitively. */
  lemma EnglishCultureSamples()
    ensures GetCultureUnits("EN-GB") == BritishEnglishUnits()
    ensures GetCultureUnits("En-Us") == AmericanEnglishUnits()
  {
    assert ToLowerInvariant("EN-GB") == "en-gb";
    assert ToLowerInvariant("En-Us") == "en-us";
  }

  /** A listed non-English code and the empty code give the metric preset. */
  lemma OtherCultureSamples()
    ensures GetCultureUnits("fr-CA") == MetricUnits()
    ensures GetCultureUnits("") == MetricUnits()
  {
    assert ToLowerInvariant("fr-CA") == "fr-ca";
  }

  /** The American and British presets differ in the volume unit, the
      volumetric flow rate unit (per hour against per second) and the time
      unit, which only the American preset sets; nowhere else. */
  lemma AmericanAndBritishDiffer()
    ensures BritishEnglishUnits() ==
              AmericanEnglishUnits().(volumeUnit := Set("GallonsUK"),
                                      volumetricFlowRateUnit := Set("GallonsUsPerSecond"),
                                      timeUnit := Default)
    ensures AmericanEnglishUnits().volumeUnit == Set("GallonsUSLiquid")
    ensures AmericanEnglishUnits().volumetricFlowRateUnit == Set("GallonsUsPerHour")
    ensures AmericanEnglishUnits().timeUnit == Set("Hours")
  {
  }

  /** The metric preset sets eight fields; the rest keep their defaults. */
  lemma MetricSetsEightFields()
    ensures var m := MetricUnits();
            m.precision == 2 &&
            m.angleUnit == m.forceUnit == m.massUnit == m.massDensityUnit == m.massFlowRateUnit ==
            m.momentumUnit == m.pressureUnit == m.temperatureUnit == m.timeUnit == m.torqueUnit ==
            m.volumetricFlowRateUnit == Default
    ensures var m := MetricUnits();
            m.accelerationUnit.Set? && m.areaUnit.Set? && m.energyUnit.Set? && m.jerkUnit.Set? &&
            m.lengthUnit.Set? && m.powerUnit.Set? && m.speedUnit.Set? && m.volumeUnit.Set?
  {
  }

}
