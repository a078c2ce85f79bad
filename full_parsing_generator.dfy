/** The parsing generator of the full library
    (Source/GraduatedCylinder.Roslyn/Full/ParsingGenerator.cs): for every
    dimension struct it writes a partial struct holding two `Parse`
    methods, one reading value and units, one reading a bare value in
    given units (their behaviour is `ParseSemantics.ParseWithUnits` and
    `ParseSemantics.ParseValue`), and adds the file to the compilation. */
module FullParsingGeneration {
  import opened Wrappers
  import opened Declarations
  import opened Generators

  // The lines of the generated struct that do not depend on it.
  const Usings: seq<string> := [
    "using System;",
    "using System.Text" + ".RegularExpressions;",
    "using " + "GraduatedCylinder" + ".Text;",
    "",
    "namespace " + "GraduatedCylinder;",
    ""]
  const PairMatchLine := "\t\tMatch match = " + "Regexs.Pair.Match(" + "valueWithUnits);"
  const IfMatched := "\t\tif (match.Success) {"
  const ReadValueGroup := "\t\t\tif (float" + ".TryParse(match" + ".Groups[\"value\"]" + ".Value, out float " + "floatValue)) {"
  const CloseInnerIf := "\t\t\t}"
  const CloseOuterIf := "\t\t}"
  const ThrowWithUnits := "\t\tthrow new " + "Exception($\"Error " + "parsing: " + "{valueWithUnits}\");"
  const CloseMethod := "\t}"
  const ValueOnlyMatchLine := "\t\tMatch match = " + "Regexs.ValueOnly" + ".Match(value);"
  const ReadWholeMatch := "\t\t\tif (float" + ".TryParse(match" + ".Groups[0].Value, " + "out float " + "floatValue)) {"
  const ThrowValue := "\t\tthrow new " + "Exception($\"Error " + "parsing: {value}\");"

  function Preamble(names: NameSet): seq<string> {
    Usings + ["public partial struct " + names.dimensionTypeName, "{"]
  }

  /** `Parse(string valueWithUnits)`. */
  function ParseWithUnitsMethod(names: NameSet): seq<string> {
    var d, u := names.dimensionTypeName, names.unitsTypeName;
    ["",
     "\tpublic static " + d + " Parse(string " + "valueWithUnits) {",
     PairMatchLine,
     IfMatched,
     ReadValueGroup,
     "\t\t\t\t" + u + " units = ShortNames" + ".Get" + u + "(match" + ".Groups[\"units\"]" + ".Value);",
     "\t\t\t\treturn new " + d + "(floatValue, units);",
     CloseInnerIf,
     CloseOuterIf,
     ThrowWithUnits,
     CloseMethod]
  }

  /** `Parse(string value, Units units)`. */
  function ParseValueMethod(names: NameSet): seq<string> {
    var d, u := names.dimensionTypeName, names.unitsTypeName;
    ["",
     "\tpublic static " + d + " Parse(string value, " + u + " units) {",
     ValueOnlyMatchLine,
     IfMatched,
     ReadWholeMatch,
     "\t\t\t\treturn new " + d + "(floatValue, units);",
     CloseInnerIf,
     CloseOuterIf,
     ThrowValue,
     CloseMethod]
  }

  const Closing: seq<string> := ["", "}"]

  /** One struct's file: banner, struct opening, the two methods, closing
      brace; no trailer. */
  function ParserText(fullName: string, names: NameSet, now: string): seq<string> {
    Banner(fullName, now) + Preamble(names) + ParseWithUnitsMethod(names) + ParseValueMethod(names) + Closing
  }

  function ParserFileName(names: NameSet): string {
    names.dimensionTypeName + ".Parse.g.cs"
  }

  function ParserParts(fullName: string, dimensions: seq<DimensionStruct>, clock: nat -> string): (r: seq<Part>)
    ensures |r| == |dimensions|
  {
    seq(|dimensions|, k requires 0 <= k < |dimensions| =>
      Part(ParserFileName(dimensions[k].names), Lines(ParserText(fullName, dimensions[k].names, clock(k))), true))
  }

  /** The loop over the dimension structs, from buffer `start`. */
  function ParserRun(fullName: string, path: Option<string>, start: seq<string>, dimensions: seq<DimensionStruct>,
                     env: Environment): Run {
    DrainRun(path, start, ParserParts(fullName, dimensions, env.clock), env.gauge, false)
  }

  /** Every struct's text is whole and kept. */
  lemma ParserPartsWhole(fullName: string, dimensions: seq<DimensionStruct>, clock: nat -> string)
    ensures var parts := ParserParts(fullName, dimensions, clock);
            forall k :: 0 <= k < |parts| ==> parts[k].saved && parts[k].text.fault.None?
  {
    var parts := ParserParts(fullName, dimensions, clock);
    forall k | 0 <= k < |parts|
      ensures parts[k].saved && parts[k].text.fault.None?
    {
      assert parts[k] == Part(ParserFileName(dimensions[k].names), Lines(ParserText(fullName, dimensions[k].names, clock(k))), true);
    }
  }

  /** This generator cannot throw: whatever the buffer held, the loop runs
      to the end, adds one file per struct and leaves the buffer empty. */
  lemma ParserRunFiles(fullName: string, path: Option<string>, start: seq<string>, dimensions: seq<DimensionStruct>,
                       env: Environment)
    ensures var r := ParserRun(fullName, path, start, dimensions, env);
            r.fault.None? && |r.files| == |dimensions| && (|dimensions| > 0 ==> r.buffer == [])
  {
    var parts := ParserParts(fullName, dimensions, env.clock);
    ParserPartsWhole(fullName, dimensions, env.clock);
    DrainRunFault(path, start, parts, env.gauge, false);
    SavedCountAll(parts);
    assert FirstFault(parts) == |parts|;
    if |dimensions| > 0 {
      DrainRunPrefix(path, start, parts, env.gauge, false, |parts| - 1);
      assert parts[..|parts|] == parts;
    }
  }

  /** From an empty buffer each file holds exactly its struct's text, and
      the buffer ends empty. */
  lemma ParserRunFromEmpty(fullName: string, path: Option<string>, dimensions: seq<DimensionStruct>, env: Environment)
    ensures var r := ParserRun(fullName, path, [], dimensions, env);
            r.buffer == [] && |r.files| == |dimensions| &&
            forall k :: 0 <= k < |dimensions| ==>
              r.files[k] == GeneratedFile(Destination(path, ParserFileName(dimensions[k].names)),
                                          ParserText(fullName, dimensions[k].names, env.clock(k)))
  {
    var parts := ParserParts(fullName, dimensions, env.clock);
    ParserPartsWhole(fullName, dimensions, env.clock);
    ParserRunFiles(fullName, path, [], dimensions, env);
    DrainRunFiles(path, parts, env.gauge, false);
    SavedAll(path, parts, env.gauge, false);
  }

  method WriteParserText(g: BaseGenerator, names: NameSet, now: string)
    modifies g`buffer
    ensures g.buffer == old(g.buffer) + ParserText(g.fullName, names, now)
  {
    g.WriteAutoGeneratedNotification(now);
    g.AppendLines(Preamble(names));
    g.AppendLines(ParseWithUnitsMethod(names));
    g.AppendLines(ParseValueMethod(names));
    g.AppendLines(Closing);
  }

  /** `ExecuteInternal`: one parser file per dimension struct, added to the
      compilation. */
  method ExecuteInternal(g: BaseGenerator, ctx: Context, env: Environment)
    modifies g`buffer, ctx`sources
    ensures var r := ParserRun(g.fullName, g.externalGenerationPath, old(g.buffer), ctx.compilation.dimensions, env);
            ctx.sources == old(ctx.sources) + r.files && g.buffer == r.buffer
  {
    var dimensions := ctx.compilation.dimensions;
    ghost var parts := ParserParts(g.fullName, dimensions, env.clock);
    ghost var path := g.externalGenerationPath;
    var i := 0;
    while i < |dimensions|
      invariant 0 <= i <= |dimensions| && path == g.externalGenerationPath
      invariant var r := DrainRun(path, old(g.buffer), parts[..i], env.gauge, false);
                r.fault.None? && ctx.sources == old(ctx.sources) + r.files && g.buffer == r.buffer
    {
      DrainRunPrefix(path, old(g.buffer), parts, env.gauge, false, i);
      assert parts[i] == Part(ParserFileName(dimensions[i].names), Lines(ParserText(g.fullName, dimensions[i].names, env.clock(i))), true);
      WriteParserText(g, dimensions[i].names, env.clock(i));
      assert g.buffer + [] == g.buffer;
      var file := g.BufferToGeneratedFile(ParserFileName(dimensions[i].names));
      ctx.AddSource(file);
      i := i + 1;
    }
    assert parts[..i] == parts;
  }
}
