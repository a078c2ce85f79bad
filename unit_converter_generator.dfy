/** The conversion generator (Source/GraduatedCylinder.Roslyn/IoT/UnitConverterGenerator.cs):
    for every unit enum it writes a static converter class holding a
    `FromBase` and a `ToBase` switch, one `case` per member that carries a
    `GraduatedCylinder.Scales` attribute.

    The text each step appends is specified by functions returning an
    `Emission` (the lines appended, and the exception that interrupted the
    step, if any); the methods append that text to the shared buffer. */
module UnitConverterGeneration {
  import opened Wrappers
  import opened Declarations
  import opened Generators
  import opened ConverterSemantics
  import opened Parentheses

  datatype Switch = FromBaseSwitch | ToBaseSwitch

  // The fixed fragments of the generated lines.
  const Usings: seq<string> := ["using System;", "", "namespace " + "GraduatedCylinder" + ".Converters", "{"]
  const ClassHead := "    internal static " + "class "
  const ClassOpen := "    {"
  const FromBaseHead := "\t\tpublic static "
  const FromBaseParameters := " FromBase(float " + "baseValue, "
  const FromBaseParametersEnd := " wantedUnits) {"
  const NewValueDeclaration := "\t\t\tfloat newValue = 0;"
  const SwitchOnWantedUnits := "\t\t\tswitch (" + "wantedUnits) {"
  const ToBaseHead := "\t\tpublic static " + "float ToBase("
  const ToBaseParametersEnd := " dimension) {"
  const SwitchOnDimensionUnits := "\t\t\tswitch (dimension" + ".Units) {"
  const DefaultLabel := "\t\t\t\tdefault:"
  const UnsupportedLine := "\t\t\t\t\tthrow new " + "NotSupported" + "Exception(" + "\"Unsupported " + "conversion.\");"
  const EndSwitch := "\t\t\t} //end switch"
  const ReturnNew := "\t\t\treturn new "
  const NewValueWantedUnits := "(newValue, " + "wantedUnits);"
  const EndMethod := "\t\t} //end method"
  const CaseHead := "\t\t\t\tcase "
  const Break := "\t\t\t\t\tbreak;"
  const Statement := "\t\t\t\t\t"

  function Preamble(names: NameSet): seq<string> {
    Usings + [ClassHead + names.converterTypeName, ClassOpen]
  }

  const Closing: seq<string> := ["    }", "}"]

  function SwitchHeader(sw: Switch, names: NameSet): seq<string> {
    match sw
    case FromBaseSwitch =>
      ["",
       FromBaseHead + names.dimensionTypeName + FromBaseParameters + names.unitsTypeName + FromBaseParametersEnd,
       NewValueDeclaration,
       SwitchOnWantedUnits]
    case ToBaseSwitch =>
      ["",
       ToBaseHead + names.dimensionTypeName + ToBaseParametersEnd,
       SwitchOnDimensionUnits]
  }

  function SwitchFooter(sw: Switch, names: NameSet): seq<string> {
    match sw
    case FromBaseSwitch =>
      [DefaultLabel, UnsupportedLine, EndSwitch, ReturnNew + names.dimensionTypeName + NewValueWantedUnits, EndMethod]
    case ToBaseSwitch =>
      [DefaultLabel, UnsupportedLine, EndSwitch, EndMethod]
  }

  function CaseLabel(names: NameSet, unit: string): string {
    CaseHead + names.unitsTypeName + "." + unit + ":"
  }

  /** The statement `FromBase` gets for a Scales attribute; none for a
      class the generator does not know. */
  function FromBaseFormula(a: AttributeData): Option<string>
    requires HasArguments(a)
  {
    if a.className == ScaleClass then
      Some(Statement + "newValue = " + "baseValue / " + a.arguments[0].text + "f;")
    else if a.className == ScaleAndOffsetClass then
      Some(Statement + "newValue = (" + "baseValue * " + a.arguments[0].text + "f) + " + a.arguments[1].text + "f;")
    else if a.className == ScaleInverselyClass then
      Some(Statement + "newValue = " + a.arguments[0].text + "f / (baseValue / " + a.arguments[1].text + "f);")
    else if a.className == PercentGradeClass then
      Some(Statement + "newValue = (" + "float)Math.Tan(" + "baseValue) * 100;")
    else None
  }

  /** The statement `ToBase` gets for a Scales attribute, as the generator
      writes it: the `ScaleInverselyAttribute` line closes one parenthesis
      more than it opens. */
  function ToBaseFormula(a: AttributeData): Option<string>
    requires HasArguments(a)
  {
    if a.className == ScaleClass then
      Some(Statement + "return dimension" + ".Value * " + a.arguments[0].text + "f;")
    else if a.className == ScaleAndOffsetClass then
      Some(Statement + "return (dimension" + ".Value - " + a.arguments[1].text + "f) / " + a.arguments[0].text + "f;")
    else if a.className == ScaleInverselyClass then
      Some(Statement + "return " + "(" + a.arguments[0].text + "f / dimension.Value" + ")" + " * " + a.arguments[1].text + "f);")
    else if a.className == PercentGradeClass then
      Some(Statement + "return (float)Math" + ".Atan(dimension" + ".Value / 100);")
    else None
  }

  function OptionalLine(line: Option<string>): seq<string> {
    if line.Some? then [line.value] else []
  }

  /** The section a case gets: its label, its formula, and in `FromBase`
      a `break`. */
  function CaseText(sw: Switch, names: NameSet, c: Case): seq<string>
    requires HasArguments(c.attribute)
  {
    match sw
    case FromBaseSwitch => [CaseLabel(names, c.unit)] + OptionalLine(FromBaseFormula(c.attribute)) + [Break]
    case ToBaseSwitch => [CaseLabel(names, c.unit)] + OptionalLine(ToBaseFormula(c.attribute))
  }

  /** What one member appends. `SingleOrDefault` throws before anything is
      written; a missing constructor argument throws after the label. */
  function MemberText(sw: Switch, names: NameSet, m: EnumMember): Emission {
    match MemberCase(m)
    case Ok(None) => Lines([])
    case Ok(Some(c)) => Lines(CaseText(sw, names, c))
    case Err(IndexOutOfRange) => Emission([CaseLabel(names, m.identifier)], Some(IndexOutOfRange))
    case Err(f) => Emission([], Some(f))
  }

  /** The loop over the members of one switch. */
  function SwitchCases(sw: Switch, names: NameSet, members: seq<EnumMember>): Emission {
    if members == [] then Lines([])
    else Then(MemberText(sw, names, members[0]), SwitchCases(sw, names, members[1..]))
  }

  /** The text of the generated cases, read off the case list. */
  function CasesText(sw: Switch, names: NameSet, cases: seq<Case>): seq<string>
    requires WellFormed(cases)
  {
    if cases == [] then [] else CaseText(sw, names, cases[0]) + CasesText(sw, names, cases[1..])
  }

  function SwitchText(sw: Switch, names: NameSet, members: seq<EnumMember>): Emission {
    Then(Then(Lines(SwitchHeader(sw, names)), SwitchCases(sw, names, members)), Lines(SwitchFooter(sw, names)))
  }

  /** Everything `GenerateConverterFor` appends before the trailer: the
      banner and class opening, `FromBase`, `ToBase`, the class closing;
      an exception in a switch ends the text there. */
  function ConverterText(fullName: string, names: NameSet, members: seq<EnumMember>, now: string): Emission {
    var opening := Opening(fullName, names, now);
    var from := SwitchText(FromBaseSwitch, names, members);
    if from.fault.Some? then Emission(opening + from.lines, from.fault)
    else
      var to := SwitchText(ToBaseSwitch, names, members);
      if to.fault.Some? then Emission(opening + from.lines + to.lines, to.fault)
      else Lines(opening + from.lines + to.lines + Closing)
  }

  function ConverterFileName(names: NameSet): string {
    names.converterTypeName + ".g.cs"
  }

  /** Each enum's file name and text, the clock read once per enum. */
  function ConverterParts(fullName: string, units: seq<UnitEnum>, clock: nat -> string): (r: seq<Part>)
    ensures |r| == |units|
  {
    seq(|units|, k requires 0 <= k < |units| =>
      Part(ConverterFileName(units[k].names), ConverterText(fullName, units[k].names, units[k].members, clock(k)), true))
  }

  /** The converter loop over the enums: each enum's text is appended and
      drained into a file with the trailer, unless an exception interrupts
      it, which ends the loop. */
  function ConverterRun(fullName: string, path: Option<string>, start: seq<string>, units: seq<UnitEnum>, env: Environment): Run {
    DrainRun(path, start, ConverterParts(fullName, units, env.clock), env.gauge, true)
  }

  // ---------------------------------------------------------------------
  // The text against the case list
  // ---------------------------------------------------------------------

  /** Each switch holds exactly the sections of the cases `Cases` computes,
      in order; when `Cases` fails, the switch is interrupted by the same
      exception. */
  lemma {:induction false} SwitchFollowsCases(sw: Switch, names: NameSet, members: seq<EnumMember>)
    ensures Cases(members).Ok? ==> SwitchCases(sw, names, members) == Lines(CasesText(sw, names, Cases(members).value))
    ensures Cases(members).Err? ==> SwitchCases(sw, names, members).fault == Some(Cases(members).error)
  {
    if members != [] {
      SwitchFollowsCases(sw, names, members[1..]);
      match MemberCase(members[0])
      case Err(f) =>
      case Ok(head) =>
        if Cases(members).Ok? {
          var rest := Cases(members[1..]).value;
          if head.Some? {
            assert Cases(members).value == [head.value] + rest;
            assert ([head.value] + rest)[1..] == rest;
          } else {
            assert Cases(members).value == rest;
          }
        }
    }
  }

  /** A switch is its header, its cases and, unless a member threw, its
      footer. */
  lemma SwitchTextLayout(sw: Switch, names: NameSet, members: seq<EnumMember>)
    ensures var c := SwitchCases(sw, names, members);
            SwitchText(sw, names, members).fault == c.fault &&
            (c.fault.None? ==> SwitchText(sw, names, members).lines == SwitchHeader(sw, names) + c.lines + SwitchFooter(sw, names)) &&
            (c.fault.Some? ==> SwitchText(sw, names, members).lines == SwitchHeader(sw, names) + c.lines)
  {
  }

  /** Without exception the converter text is the opening, `FromBase`
      and then `ToBase`, each with one section per case computed by
      `Cases`, and the class closing. */
  lemma ConverterLayout(fullName: string, names: NameSet, members: seq<EnumMember>, now: string)
    requires Cases(members).Ok?
    ensures var e := ConverterText(fullName, names, members, now);
            var cs := Cases(members).value;
            e.fault.None? &&
            e.lines == Opening(fullName, names, now) +
                       (SwitchHeader(FromBaseSwitch, names) + CasesText(FromBaseSwitch, names, cs) + SwitchFooter(FromBaseSwitch, names)) +
                       (SwitchHeader(ToBaseSwitch, names) + CasesText(ToBaseSwitch, names, cs) + SwitchFooter(ToBaseSwitch, names)) +
                       Closing
  {
    SwitchFollowsCases(FromBaseSwitch, names, members);
    SwitchFollowsCases(ToBaseSwitch, names, members);
    SwitchTextLayout(FromBaseSwitch, names, members);
    SwitchTextLayout(ToBaseSwitch, names, members);
  }

  /** When `Cases` fails, the converter text stops inside `FromBase` with
      the same exception: nothing of `ToBase` is written. */
  lemma ConverterLayoutFault(fullName: string, names: NameSet, members: seq<EnumMember>, now: string)
    requires Cases(members).Err?
    ensures var e := ConverterText(fullName, names, members, now);
            e.fault == Some(Cases(members).error) &&
            e.lines == Opening(fullName, names, now) + SwitchHeader(FromBaseSwitch, names) + SwitchCases(FromBaseSwitch, names, members).lines
  {
    SwitchFollowsCases(FromBaseSwitch, names, members);
    SwitchTextLayout(FromBaseSwitch, names, members);
    var c := SwitchCases(FromBaseSwitch, names, members);
    assert Opening(fullName, names, now) + (SwitchHeader(FromBaseSwitch, names) + c.lines + [])
        == Opening(fullName, names, now) + SwitchHeader(FromBaseSwitch, names) + c.lines;
  }

  // ---------------------------------------------------------------------
  // The loop over the enums
  // ---------------------------------------------------------------------

  /** From an empty buffer and without exception, every enum gives one
      file, in order, named after its converter class and holding exactly
      its converter text and the trailer; the buffer ends empty. */
  lemma ConverterRunFiles(fullName: string, path: Option<string>, units: seq<UnitEnum>, env: Environment)
    requires ConverterRun(fullName, path, [], units, env).fault.None?
    ensures var r := ConverterRun(fullName, path, [], units, env);
            r.buffer == [] && |r.files| == |units| &&
            forall k :: 0 <= k < |units| ==>
              var e := ConverterText(fullName, units[k].names, units[k].members, env.clock(k));
              r.files[k] == GeneratedFile(Destination(path, ConverterFileName(units[k].names)), e.lines + Trailer(env.gauge, e.lines))
  {
    var parts := ConverterParts(fullName, units, env.clock);
    DrainRunFiles(path, parts, env.gauge, true);
    SavedAll(path, parts, env.gauge, true);
  }

  /** The loop stops at the first enum whose cases fail: the files of the
      enums before it are kept, and the exception is that enum's; without
      such an enum it runs to the end. */
  lemma ConverterRunFault(fullName: string, path: Option<string>, start: seq<string>, units: seq<UnitEnum>, env: Environment)
    ensures var r := ConverterRun(fullName, path, start, units, env);
            r.fault.None? <==> forall k :: 0 <= k < |units| ==> Cases(units[k].members).Ok?
    ensures var r := ConverterRun(fullName, path, start, units, env);
            r.fault.Some? ==>
              exists k :: 0 <= k < |units| && |r.files| == k && Cases(units[k].members).Err? &&
                          r.fault == Some(Cases(units[k].members).error) &&
                          (forall j :: 0 <= j < k ==> Cases(units[j].members).Ok?)
    ensures var r := ConverterRun(fullName, path, start, units, env);
            r.fault.None? ==> |r.files| == |units|
  {
    var parts := ConverterParts(fullName, units, env.clock);
    var r := DrainRun(path, start, parts, env.gauge, true);
    ConverterPartsFaults(fullName, units, env.clock);
    SavedCountAll(parts);
    DrainRunFault(path, start, parts, env.gauge, true);
    var f := FirstFault(parts);
    if f < |parts| {
      assert |r.files| == f && Cases(units[f].members).Err?;
    }
  }

  /** Every enum's part is saved and is interrupted exactly when its
      cases fail. */
  lemma ConverterPartsFaults(fullName: string, units: seq<UnitEnum>, clock: nat -> string)
    ensures var parts := ConverterParts(fullName, units, clock);
            forall k :: 0 <= k < |units| ==>
              parts[k].saved && parts[k].text.fault == if Cases(units[k].members).Ok? then None else Some(Cases(units[k].members).error)
  {
    forall k | 0 <= k < |units|
      ensures ConverterText(fullName, units[k].names, units[k].members, clock(k)).fault ==
                if Cases(units[k].members).Ok? then None else Some(Cases(units[k].members).error)
    {
      ConverterFault(fullName, units[k].names, units[k].members, clock(k));
    }
  }

  /** Whatever happens later, the converter text opens with the banner
      and the class opening. */
  lemma ConverterOpens(fullName: string, names: NameSet, members: seq<EnumMember>, now: string)
    ensures |Opening(fullName, names, now)| == 9
    ensures var lines := ConverterText(fullName, names, members, now).lines;
            |lines| >= 9 && lines[..9] == Opening(fullName, names, now)
  {
    var opening := Opening(fullName, names, now);
    assert |opening| == 9;
    var from := SwitchText(FromBaseSwitch, names, members);
    var to := SwitchText(ToBaseSwitch, names, members);
    var rest: seq<string>;
    if from.fault.Some? {
      rest := from.lines;
    } else if to.fault.Some? {
      rest := from.lines + to.lines;
      AppendAssociative(opening, from.lines, to.lines);
    } else {
      rest := from.lines + to.lines + Closing;
      AppendAssociative(opening, from.lines, to.lines);
      AppendAssociative(opening, from.lines + to.lines, Closing);
    }
    assert ConverterText(fullName, names, members, now).lines == opening + rest;
    SliceOfLeft(opening, rest, 0, 9);
    assert opening[0..9] == opening;
  }

  /** The converter text is interrupted exactly when `Cases` fails. */
  lemma ConverterFault(fullName: string, names: NameSet, members: seq<EnumMember>, now: string)
    ensures ConverterText(fullName, names, members, now).fault ==
              if Cases(members).Ok? then None else Some(Cases(members).error)
  {
    SwitchFollowsCases(FromBaseSwitch, names, members);
    SwitchFollowsCases(ToBaseSwitch, names, members);
  }

  // ---------------------------------------------------------------------
  // The generator's methods
  // ---------------------------------------------------------------------

  /** One iteration of the member loop of `Generate_FromBase` or
      `Generate_ToBase`. */
  method AppendMember(g: BaseGenerator, sw: Switch, names: NameSet, m: EnumMember) returns (fault: Option<Fault>)
    modifies g`buffer
    ensures g.buffer == old(g.buffer) + MemberText(sw, names, m).lines
    ensures fault == MemberText(sw, names, m).fault
  {
    var attribute := MemberAttribute(m, ScalesNamespace);
    if attribute.Err? {
      return Some(attribute.error);
    }
    if attribute.value.None? {
      return None;
    }
    var a := attribute.value.value;
    g.AppendLine(CaseLabel(names, m.identifier));
    if !HasArguments(a) {
      return Some(IndexOutOfRange);
    }
    var formula := if sw == FromBaseSwitch then FromBaseFormula(a) else ToBaseFormula(a);
    if formula.Some? {
      g.AppendLine(formula.value);
    }
    if sw == FromBaseSwitch {
      g.AppendLine(Break);
    }
    fault := None;
  }

  method AppendCases(g: BaseGenerator, sw: Switch, names: NameSet, members: seq<EnumMember>) returns (fault: Option<Fault>)
    modifies g`buffer
    ensures g.buffer == old(g.buffer) + SwitchCases(sw, names, members).lines
    ensures fault == SwitchCases(sw, names, members).fault
  {
    var i := 0;
    while i < |members|
      invariant 0 <= i <= |members|
      invariant SwitchCases(sw, names, members[..i]).fault.None?
      invariant g.buffer == old(g.buffer) + SwitchCases(sw, names, members[..i]).lines
    {
      fault := AppendCasesStep(g, sw, names, members, i, old(g.buffer));
      if fault.Some? {
        SwitchCasesStop(sw, names, members, i + 1);
        return;
      }
      i := i + 1;
    }
    assert members[..i] == members;
    fault := None;
  }

  /** One iteration of the member loop, from the text of the members
      before it. */
  method AppendCasesStep(g: BaseGenerator, sw: Switch, names: NameSet, members: seq<EnumMember>, i: nat,
                         ghost base: seq<string>) returns (fault: Option<Fault>)
    requires i < |members| && SwitchCases(sw, names, members[..i]).fault.None?
    requires g.buffer == base + SwitchCases(sw, names, members[..i]).lines
    modifies g`buffer
    ensures g.buffer == base + SwitchCases(sw, names, members[..i + 1]).lines
    ensures fault == SwitchCases(sw, names, members[..i + 1]).fault
  {
    ghost var done := SwitchCases(sw, names, members[..i]);
    ghost var next := MemberText(sw, names, members[i]);
    SwitchCasesStep(sw, names, members, i);
    fault := AppendMember(g, sw, names, members[i]);
    AppendAssociative(base, done.lines, next.lines);
  }

  lemma {:induction false} SwitchCasesConcat(sw: Switch, names: NameSet, xs: seq<EnumMember>, ys: seq<EnumMember>)
    ensures SwitchCases(sw, names, xs + ys) == Then(SwitchCases(sw, names, xs), SwitchCases(sw, names, ys))
  {
    if xs == [] {
      assert [] + ys == ys;
    } else {
      assert (xs + ys)[1..] == xs[1..] + ys;
      SwitchCasesConcat(sw, names, xs[1..], ys);
      ThenAssociative(MemberText(sw, names, xs[0]), SwitchCases(sw, names, xs[1..]), SwitchCases(sw, names, ys));
    }
  }

  /** One more iteration of the member loop. */
  lemma SwitchCasesStep(sw: Switch, names: NameSet, members: seq<EnumMember>, i: nat)
    requires i < |members|
    ensures SwitchCases(sw, names, members[..i + 1]) == Then(SwitchCases(sw, names, members[..i]), MemberText(sw, names, members[i]))
  {
    assert members[..i + 1] == members[..i] + [members[i]];
    SwitchCasesConcat(sw, names, members[..i], [members[i]]);
    assert [members[i]][1..] == [];
    var e := MemberText(sw, names, members[i]);
    assert e.lines + [] == e.lines;
  }

  /** Once a member throws, the later members add nothing. */
  lemma SwitchCasesStop(sw: Switch, names: NameSet, members: seq<EnumMember>, i: nat)
    requires i <= |members| && SwitchCases(sw, names, members[..i]).fault.Some?
    ensures SwitchCases(sw, names, members) == SwitchCases(sw, names, members[..i])
  {
    assert members[..i] + members[i..] == members;
    SwitchCasesConcat(sw, names, members[..i], members[i..]);
  }

  method GenerateFromBase(g: BaseGenerator, names: NameSet, members: seq<EnumMember>) returns (fault: Option<Fault>)
    modifies g`buffer
    ensures g.buffer == old(g.buffer) + SwitchText(FromBaseSwitch, names, members).lines
    ensures fault == SwitchText(FromBaseSwitch, names, members).fault
  {
    fault := GenerateSwitch(g, FromBaseSwitch, names, members);
  }

  method GenerateToBase(g: BaseGenerator, names: NameSet, members: seq<EnumMember>) returns (fault: Option<Fault>)
    modifies g`buffer
    ensures g.buffer == old(g.buffer) + SwitchText(ToBaseSwitch, names, members).lines
    ensures fault == SwitchText(ToBaseSwitch, names, members).fault
  {
    fault := GenerateSwitch(g, ToBaseSwitch, names, members);
  }

  /** The shape `Generate_FromBase` and `Generate_ToBase` share: header,
      member loop, footer. */
  method GenerateSwitch(g: BaseGenerator, sw: Switch, names: NameSet, members: seq<EnumMember>) returns (fault: Option<Fault>)
    modifies g`buffer
    ensures g.buffer == old(g.buffer) + SwitchText(sw, names, members).lines
    ensures fault == SwitchText(sw, names, members).fault
  {
    SwitchTextLayout(sw, names, members);
    var header := SwitchHeader(sw, names);
    ghost var cases := SwitchCases(sw, names, members).lines;
    g.AppendLines(header);
    fault := AppendCases(g, sw, names, members);
    AppendAssociative(old(g.buffer), header, cases);
    if fault.None? {
      g.AppendLines(SwitchFooter(sw, names));
      AppendAssociative(old(g.buffer), header + cases, SwitchFooter(sw, names));
    }
  }

  function Opening(fullName: string, names: NameSet, now: string): seq<string> {
    Banner(fullName, now) + Preamble(names)
  }

  method WriteOpening(g: BaseGenerator, names: NameSet, now: string)
    modifies g`buffer
    ensures g.buffer == old(g.buffer) + Opening(g.fullName, names, now)
  {
    g.WriteAutoGeneratedNotification(now);
    g.AppendLines(Preamble(names));
  }

  /** The text of `GenerateConverterFor` up to the trailer. */
  method WriteConverterText(g: BaseGenerator, names: NameSet, members: seq<EnumMember>, now: string)
    returns (fault: Option<Fault>)
    modifies g`buffer
    ensures g.buffer == old(g.buffer) + ConverterText(g.fullName, names, members, now).lines
    ensures fault == ConverterText(g.fullName, names, members, now).fault
  {
    ghost var opening := Opening(g.fullName, names, now);
    ghost var from := SwitchText(FromBaseSwitch, names, members);
    ghost var to := SwitchText(ToBaseSwitch, names, members);
    WriteOpening(g, names, now);
    fault := GenerateFromBase(g, names, members);
    AppendAssociative(old(g.buffer), opening, from.lines);
    if fault.Some? {
      return;
    }
    fault := GenerateToBase(g, names, members);
    AppendAssociative(old(g.buffer), opening + from.lines, to.lines);
    if fault.Some? {
      return;
    }
    g.AppendLines(Closing);
    AppendAssociative(old(g.buffer), opening + from.lines + to.lines, Closing);
  }

  /** One enum's converter file: banner, class opening, the two switches,
      class closing and trailer, drained into `<Converter>.g.cs`. An
      exception returns at once and leaves the partial text in the buffer. */
  method GenerateConverterFor(g: BaseGenerator, names: NameSet, members: seq<EnumMember>, now: string, gauge: Gauge)
    returns (r: Result<GeneratedFile, Fault>)
    modifies g`buffer
    ensures var e := ConverterText(g.fullName, names, members, now);
            var text := old(g.buffer) + e.lines;
            (e.fault.None? ==> r == Ok(GeneratedFile(Destination(g.externalGenerationPath, ConverterFileName(names)), text + Trailer(gauge, text))) &&
                               g.buffer == []) &&
            (e.fault.Some? ==> r == Err(e.fault.value) && g.buffer == text)
  {
    var filename := ConverterFileName(names);
    var fault := WriteConverterText(g, names, members, now);
    if fault.Some? {
      return Err(fault.value);
    }
    AppendTrailer(g, gauge);
    var file := g.BufferToGeneratedFile(filename);
    return Ok(file);
  }

  /** `ExecuteInternal`: one converter file per unit enum, added to the
      compilation, until an exception ends the loop. */
  method ExecuteInternal(g: BaseGenerator, ctx: Context, env: Environment) returns (fault: Option<Fault>)
    modifies g`buffer, ctx`sources
    ensures var r := ConverterRun(g.fullName, g.externalGenerationPath, old(g.buffer), ctx.compilation.units, env);
            ctx.sources == old(ctx.sources) + r.files && g.buffer == r.buffer && fault == r.fault
  {
    var units := ctx.compilation.units;
    ghost var parts := ConverterParts(g.fullName, units, env.clock);
    ghost var path := g.externalGenerationPath;
    var i := 0;
    while i < |units|
      invariant 0 <= i <= |units| && path == g.externalGenerationPath
      invariant var r := DrainRun(path, old(g.buffer), parts[..i], env.gauge, true);
                r.fault.None? && ctx.sources == old(ctx.sources) + r.files && g.buffer == r.buffer
    {
      DrainRunPrefix(path, old(g.buffer), parts, env.gauge, true, i);
      assert parts[i] == Part(ConverterFileName(units[i].names), ConverterText(g.fullName, units[i].names, units[i].members, env.clock(i)), true);
      var result := GenerateConverterFor(g, units[i].names, units[i].members, env.clock(i), env.gauge);
      if result.Err? {
        DrainRunStop(path, old(g.buffer), parts, env.gauge, true, i + 1);
        return Some(result.error);
      }
      ctx.AddSource(result.value);
      i := i + 1;
    }
    assert parts[..i] == parts;
    fault := None;
  }

  // ---------------------------------------------------------------------
  // The unbalanced `ScaleInverselyAttribute` line of `ToBase`
  // ---------------------------------------------------------------------

  /** The arguments the formulas read render without parentheses (they
      are numbers). */
  predicate PlainArguments(a: AttributeData) {
    forall i :: 0 <= i < |a.arguments| ==> ParenFree(a.arguments[i].text)
  }

  /** The `ToBase` line for `ScaleInverselyAttribute` as it was evidently
      meant, `(n / value) * s` with balanced parentheses; the other classes
      keep their line. */
  function ToBaseFormulaCorrected(a: AttributeData): Option<string>
    requires HasArguments(a)
  {
    if a.className == ScaleInverselyClass then
      Some(Statement + "return " + "(" + a.arguments[0].text + "f / dimension.Value" + ")" + " * " + a.arguments[1].text + "f;")
    else ToBaseFormula(a)
  }

  lemma StatementParenFree()
    ensures ParenFree(Statement)
  {
  }

  /** As written, the `ScaleInverselyAttribute` line of `ToBase` closes one
      parenthesis more than it opens, so the generated converter does not
      compile for any unit carrying that attribute. */
  lemma ScaleInverselyToBaseUnbalanced(a: AttributeData)
    requires a.className == ScaleInverselyClass && HasArguments(a) && PlainArguments(a)
    ensures ToBaseFormula(a).Some? && Depth(ToBaseFormula(a).value) == -1
  {
    StatementParenFree();
    ScaleInverselyClassDistinct();
    ScaleInverselyLineDepths(Statement, a.arguments[0].text, a.arguments[1].text);
  }

  /** The corrected line is balanced. */
  lemma ScaleInverselyToBaseCorrected(a: AttributeData)
    requires a.className == ScaleInverselyClass && HasArguments(a) && PlainArguments(a)
    ensures ToBaseFormulaCorrected(a).Some? && Depth(ToBaseFormulaCorrected(a).value) == 0
  {
    StatementParenFree();
    ScaleInverselyClassDistinct();
    ScaleInverselyLineDepths(Statement, a.arguments[0].text, a.arguments[1].text);
  }
}
