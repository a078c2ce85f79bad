/** What the switches that the conversion generator writes do
    (Source/GraduatedCylinder.Roslyn/IoT/UnitConverterGenerator.cs). Both
    switches get one `case` per member that carries exactly one attribute
    of namespace `GraduatedCylinder.Scales`, in declaration order; this
    module computes that case list from the members and interprets the two
    switches over it.

    The switches differ for an attribute class the generator does not know:
    in `FromBase` its case holds only `break`, so `newValue` keeps its
    initial 0; in `ToBase` its section is empty, and C# joins an empty
    section's label to the next section, so the unit takes the next case's
    formula, or the `default` section that throws. */
module ConverterSemantics {
  import opened Wrappers
  import opened Declarations
  import opened Conversions

  /** One `case` label: the member it names, the member's numeric value and
      its Scales attribute. */
  datatype Case = Case(unit: string, tag: int, attribute: AttributeData)

  /** The dimension value the generated code converts: a number and the
      numeric value of its unit. */
  datatype Dimension = Dimension(value: Num, units: int)

  /** `NotSupportedException("Unsupported conversion.")`, thrown by `default`. */
  datatype ConversionError = UnsupportedConversion

  // The classes of namespace `GraduatedCylinder.Scales`.
  const ScaleClass := "ScaleAttribute"
  const ScaleAndOffsetClass := "ScaleAndOffset" + "Attribute"
  const ScaleInverselyClass := "ScaleInversely" + "Attribute"
  const PercentGradeClass := "PercentGradeAttribute"

  /** The `ScaleInverselyAttribute` branch is reached only by its own class. */
  lemma ScaleInverselyClassDistinct()
    ensures ScaleInverselyClass != ScaleClass && ScaleInverselyClass != ScaleAndOffsetClass
  {
    assert |ScaleClass| < |ScaleInverselyClass|;
    assert ScaleAndOffsetClass[5] != ScaleInverselyClass[5];
  }

  /** How many constructor arguments the generator reads for a class. */
  function Arity(className: string): nat {
    if className == ScaleClass then 1
    else if className == ScaleAndOffsetClass || className == ScaleInverselyClass then 2
    else 0
  }

  predicate HasArguments(a: AttributeData) {
    |a.arguments| >= Arity(a.className)
  }

  predicate WellFormed(cases: seq<Case>) {
    forall c :: c in cases ==> HasArguments(c.attribute)
  }

  /** The formula a Scales attribute selects; `None` for a class the
      generator's `switch` has no branch for. */
  function PolicyOf(a: AttributeData): Option<Policy>
    requires HasArguments(a)
  {
    if a.className == ScaleClass then Some(Scale(a.arguments[0].value))
    else if a.className == ScaleAndOffsetClass then Some(ScaleAndOffset(a.arguments[0].value, a.arguments[1].value))
    else if a.className == ScaleInverselyClass then Some(ScaleInversely(a.arguments[0].value, a.arguments[1].value))
    else if a.className == PercentGradeClass then Some(PercentGrade)
    else None
  }

  predicate HasScales(m: EnumMember) {
    MemberAttribute(m, ScalesNamespace).Ok? && MemberAttribute(m, ScalesNamespace).value.Some?
  }

  /** What one member contributes to a switch: nothing, one case, or the
      exception the generator raises while reading its attribute. */
  function MemberCase(m: EnumMember): (r: Result<Option<Case>, Fault>)
    ensures r.Ok? && r.value.Some? ==> HasArguments(r.value.value.attribute)
  {
    match MemberAttribute(m, ScalesNamespace)
    case Err(f) => Err(f)
    case Ok(None) => Ok(None)
    case Ok(Some(a)) =>
      if HasArguments(a) then Ok(Some(Case(m.identifier, m.tag, a))) else Err(IndexOutOfRange)
  }

  /** A member gets a case exactly when it carries one Scales attribute
      with enough constructor arguments; the case has its name and value. */
  lemma MemberCaseSpec(m: EnumMember)
    ensures MemberCase(m).Ok? && MemberCase(m).value.Some? ==>
              HasScales(m) && MemberCase(m).value.value.unit == m.identifier && MemberCase(m).value.value.tag == m.tag &&
              MemberAttribute(m, ScalesNamespace) == Ok(Some(MemberCase(m).value.value.attribute))
    ensures MemberCase(m).Ok? && MemberCase(m).value.None? <==> !HasScales(m) && MemberAttribute(m, ScalesNamespace).Ok?
    ensures MemberCase(m).Err? <==>
              MemberAttribute(m, ScalesNamespace).Err? || (HasScales(m) && !HasArguments(MemberAttribute(m, ScalesNamespace).value.value))
  {
  }

  /** The cases of both switches, or the first member's exception. */
  function Cases(members: seq<EnumMember>): (r: Result<seq<Case>, Fault>)
    ensures r.Ok? ==> WellFormed(r.value) && |r.value| <= |members|
  {
    if members == [] then Ok([])
    else match MemberCase(members[0])
      case Err(f) => Err(f)
      case Ok(head) =>
        match Cases(members[1..])
        case Err(f) => Err(f)
        case Ok(rest) => Ok((if head.Some? then [head.value] else []) + rest)
  }

  /** Reference: the members that carry a Scales attribute, in order. */
  function Annotated(members: seq<EnumMember>): seq<EnumMember> {
    if members == [] then []
    else (if HasScales(members[0]) then [members[0]] else []) + Annotated(members[1..])
  }

  /** The first case labelled `tag` at or after `from`. */
  function CaseFrom(cases: seq<Case>, tag: int, from: nat): (r: Option<nat>)
    requires from <= |cases|
    ensures r.Some? ==> from <= r.value < |cases| && cases[r.value].tag == tag
    ensures r.Some? ==> forall k :: from <= k < r.value ==> cases[k].tag != tag
    ensures r.None? ==> forall k :: from <= k < |cases| ==> cases[k].tag != tag
    decreases |cases| - from
  {
    if from == |cases| then None
    else if cases[from].tag == tag then Some(from)
    else CaseFrom(cases, tag, from + 1)
  }

  /** The formula of the first section with a body at or after `i`: the
      one control reaches from the label at `i`. */
  function SectionFrom(cases: seq<Case>, i: nat): (r: Option<Policy>)
    requires i <= |cases| && WellFormed(cases)
    decreases |cases| - i
  {
    if i == |cases| then None
    else match PolicyOf(cases[i].attribute)
      case Some(p) => Some(p)
      case None => SectionFrom(cases, i + 1)
  }

  /** The generated `FromBase(baseValue, wantedUnits)`. */
  function FromBaseEval(cases: seq<Case>, baseValue: Num, wantedUnits: int, tan: real -> real): Result<Dimension, ConversionError>
    requires WellFormed(cases)
  {
    match CaseFrom(cases, wantedUnits, 0)
    case None => Err(UnsupportedConversion)
    case Some(i) =>
      var newValue := match PolicyOf(cases[i].attribute)
        case None => Finite(0.0)
        case Some(p) => FromBaseValue(p, baseValue, tan);
      Ok(Dimension(newValue, wantedUnits))
  }

  /** The generated `ToBase(dimension)`, with each case computing
      `ToBaseValue` (for `ScaleInversely`, the intended formula). */
  function ToBaseEval(cases: seq<Case>, d: Dimension, atan: real -> real): Result<Num, ConversionError>
    requires WellFormed(cases)
  {
    match CaseFrom(cases, d.units, 0)
    case None => Err(UnsupportedConversion)
    case Some(i) =>
      match SectionFrom(cases, i)
      case None => Err(UnsupportedConversion)
      case Some(p) => Ok(ToBaseValue(p, d.value, atan))
  }

  predicate UniqueTags(cases: seq<Case>) {
    forall i, j :: 0 <= i < j < |cases| ==> cases[i].tag != cases[j].tag
  }

  // ---------------------------------------------------------------------
  // Which members get a case
  // ---------------------------------------------------------------------

  /** Exactly the members carrying a Scales attribute get a case, in
      declaration order, each labelled with its own name and value. */
  lemma {:induction false} CasesFollowDeclarations(members: seq<EnumMember>)
    requires Cases(members).Ok?
    ensures var cs := Cases(members).value;
            |cs| == |Annotated(members)| &&
            forall k :: 0 <= k < |cs| ==>
              cs[k].unit == Annotated(members)[k].identifier && cs[k].tag == Annotated(members)[k].tag &&
              MemberAttribute(Annotated(members)[k], ScalesNamespace) == Ok(Some(cs[k].attribute))
  {
    if members != [] {
      CasesFollowDeclarations(members[1..]);
    }
  }

  /** Every case comes from a member with a Scales attribute. */
  lemma {:induction false} CaseFromAnnotatedMember(members: seq<EnumMember>, c: Case)
    requires Cases(members).Ok? && c in Cases(members).value
    ensures exists m :: m in members && HasScales(m) && m.identifier == c.unit && m.tag == c.tag &&
                        MemberAttribute(m, ScalesNamespace) == Ok(Some(c.attribute))
  {
    var head := MemberCase(members[0]);
    if head.value.Some? && c == head.value.value {
      assert members[0] in members;
    } else {
      CaseFromAnnotatedMember(members[1..], c);
      var m :| m in members[1..] && HasScales(m) && m.identifier == c.unit && m.tag == c.tag &&
               MemberAttribute(m, ScalesNamespace) == Ok(Some(c.attribute));
      assert m in members;
    }
  }

  /** Every member with a Scales attribute has its case. */
  lemma {:induction false} AnnotatedMemberHasCase(members: seq<EnumMember>, m: EnumMember)
    requires Cases(members).Ok? && m in members && HasScales(m)
    ensures Case(m.identifier, m.tag, MemberAttribute(m, ScalesNamespace).value.value) in Cases(members).value
  {
    if members[0] != m {
      AnnotatedMemberHasCase(members[1..], m);
    }
  }

  /** A unit with no case (a member without a Scales attribute, or no
      member at all) is rejected by both switches. */
  lemma UnannotatedUnitUnsupported(members: seq<EnumMember>, units: int, b: Num, v: Num,
                                   tan: real -> real, atan: real -> real)
    requires Cases(members).Ok?
    requires forall m :: m in members && HasScales(m) ==> m.tag != units
    ensures FromBaseEval(Cases(members).value, b, units, tan) == Err(UnsupportedConversion)
    ensures ToBaseEval(Cases(members).value, Dimension(v, units), atan) == Err(UnsupportedConversion)
  {
    var cs := Cases(members).value;
    forall k | 0 <= k < |cs| ensures cs[k].tag != units {
      CaseFromAnnotatedMember(members, cs[k]);
    }
  }

  /** Generation fails exactly when some member fails: it has two Scales
      attributes, or too few constructor arguments. */
  lemma {:induction false} CasesFaultIffMemberFaults(members: seq<EnumMember>)
    ensures Cases(members).Err? <==> exists m :: m in members && MemberCase(m).Err?
  {
    if members != [] {
      CasesFaultIffMemberFaults(members[1..]);
      if MemberCase(members[0]).Err? {
        assert members[0] in members;
      }
      if exists m :: m in members[1..] && MemberCase(m).Err? {
        var m :| m in members[1..] && MemberCase(m).Err?;
        assert m in members;
      }
      forall m | m in members && MemberCase(m).Err? ensures m == members[0] || m in members[1..] {
      }
    }
  }

  /** Two or more Scales attributes on one member make generation throw;
      the generator does not pick the first. */
  lemma TwoScalesAttributesFault(members: seq<EnumMember>, m: EnumMember)
    requires m in members && m.symbol.Some?
    requires |InNamespace(m.symbol.value.attributes, ScalesNamespace)| > 1
    ensures Cases(members).Err?
  {
    assert MemberCase(m) == Err(MoreThanOneMatch);
    CasesFaultIffMemberFaults(members);
  }

  // ---------------------------------------------------------------------
  // What the switches compute
  // ---------------------------------------------------------------------

  lemma CaseFromUnique(cases: seq<Case>, i: nat)
    requires i < |cases| && UniqueTags(cases)
    ensures CaseFrom(cases, cases[i].tag, 0) == Some(i)
  {
  }

  /** For a member with a known formula, `FromBase` inverts `ToBase` where
      the formula is invertible, and so does `ToBase` invert `FromBase`. */
  lemma SwitchRoundTrip(members: seq<EnumMember>, m: EnumMember, v: real, tan: real -> real, atan: real -> real)
    requires Cases(members).Ok? && UniqueTags(Cases(members).value)
    requires m in members && HasScales(m)
    requires var a := MemberAttribute(m, ScalesNamespace).value.value;
             HasArguments(a) && PolicyOf(a).Some? && Invertible(PolicyOf(a).value, v)
    ensures var cs := Cases(members).value;
            var b := ToBaseEval(cs, Dimension(Finite(v), m.tag), atan);
            b.Ok? && b.value.Finite? &&
            FromBaseEval(cs, b.value, m.tag, tan) == Ok(Dimension(Finite(v), m.tag))
    ensures var cs := Cases(members).value;
            var d := FromBaseEval(cs, Finite(v), m.tag, tan);
            d.Ok? && d.value.value.Finite? && ToBaseEval(cs, d.value, atan) == Ok(Finite(v))
  {
    var cs := Cases(members).value;
    var a := MemberAttribute(m, ScalesNamespace).value.value;
    AnnotatedMemberHasCase(members, m);
    var i :| 0 <= i < |cs| && cs[i] == Case(m.identifier, m.tag, a);
    CaseFromUnique(cs, i);
    ToBaseThenFromBase(PolicyOf(a).value, v, tan, atan);
    FromBaseThenToBase(PolicyOf(a).value, v, tan, atan);
  }

  /** A Scales attribute of a class the generator does not know: `FromBase`
      gives 0 in that unit, and `ToBase` behaves as for the next case's
      unit, or throws when it is the last case. */
  lemma UnknownScalesClass(cases: seq<Case>, i: nat, b: Num, v: Num, tan: real -> real, atan: real -> real)
    requires WellFormed(cases) && UniqueTags(cases) && i < |cases|
    requires PolicyOf(cases[i].attribute).None?
    ensures FromBaseEval(cases, b, cases[i].tag, tan) == Ok(Dimension(Finite(0.0), cases[i].tag))
    ensures i + 1 < |cases| ==>
              ToBaseEval(cases, Dimension(v, cases[i].tag), atan) == ToBaseEval(cases, Dimension(v, cases[i + 1].tag), atan)
    ensures i + 1 == |cases| ==> ToBaseEval(cases, Dimension(v, cases[i].tag), atan) == Err(UnsupportedConversion)
  {
    CaseFromUnique(cases, i);
    assert SectionFrom(cases, i) == SectionFrom(cases, i + 1);
    if i + 1 < |cases| {
      CaseFromUnique(cases, i + 1);
    }
  }

  function ScaleBy(text: string, x: real): AttributeData {
    AttributeData(ScalesNamespace, ScaleClass, [Argument(text, x, false)])
  }

  /** The example family {Base = 0 with [Scale(1.0)], Kilo = 3 with
      [Scale(1000.0)]}. */
  lemma KiloExample(tan: real -> real, atan: real -> real)
    ensures var members := [EnumMember("Base", 0, Some(Symbol("Base", [ScaleBy("1", 1.0)]))),
                            EnumMember("Kilo", 3, Some(Symbol("Kilo", [ScaleBy("1000", 1000.0)])))];
            Cases(members).Ok? &&
            ToBaseEval(Cases(members).value, Dimension(Finite(2.0), 3), atan) == Ok(Finite(2000.0)) &&
            FromBaseEval(Cases(members).value, Finite(2000.0), 0, tan) == Ok(Dimension(Finite(2000.0), 0)) &&
            FromBaseEval(Cases(members).value, Finite(2000.0), 3, tan) == Ok(Dimension(Finite(2.0), 3)) &&
            ToBaseEval(Cases(members).value, Dimension(Finite(2.0), 7), atan) == Err(UnsupportedConversion)
  {
    var one, thousand := ScaleBy("1", 1.0), ScaleBy("1000", 1000.0);
    var members := [EnumMember("Base", 0, Some(Symbol("Base", [one]))),
                    EnumMember("Kilo", 3, Some(Symbol("Kilo", [thousand])))];
    assert InNamespace([one], ScalesNamespace) == [one];
    assert InNamespace([thousand], ScalesNamespace) == [thousand];
    assert HasArguments(one) && HasArguments(thousand);
    assert members[1..][1..] == [];
    var kiloCases: seq<Case> := [Case("Kilo", 3, thousand)];
    assert kiloCases + [] == kiloCases;
    assert Cases(members[1..]) == Ok(kiloCases);
    var cs := [Case("Base", 0, one), Case("Kilo", 3, thousand)];
    assert [Case("Base", 0, one)] + kiloCases == cs;
    assert Cases(members) == Ok(cs);
    assert CaseFrom(cs, 3, 0) == Some(1);
  }

}
