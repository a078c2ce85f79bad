/** The parsing generator of the IoT library
    (Source/GraduatedCylinder.Roslyn/IoT/ParsingGenerator.cs): one static
    partial class `Parser` with a `Parse<Dimension>` method per dimension
    struct (its behaviour is `ParseSemantics.ParseIoT`), written to a fixed
    path on disk and not added to the compilation. */
module IoTParsingGeneration {
  import opened Wrappers
  import opened Declarations
  import opened Generators

  /** The fixed output file. */
  const ParserPath := "C:\\GSP-Projects" + "\\GraduatedCylinder" + "\\Source" + "\\GraduatedCylinder" + ".IoT.Parsing" + "\\Parser.g.cs"

  const Header: seq<string> := [
    "using System;",
    "using System.Text" + ".RegularExpressions;",
    "using " + "GraduatedCylinder" + ".IoT.Abbreviations;",
    "",
    "namespace " + "GraduatedCylinder" + ".IoT.Parsing",
    "{",
    "\tpublic static " + "partial class Parser",
    "\t{"]

  const Footer: seq<string> := ["\t}", "}"]

  // The lines of the generated method that do not depend on the struct.
  const PairMatchLine := "\t\t\tMatch match = " + "PairRegex.Match(" + "value);"
  const IfMatched := "\t\t\tif (match" + ".Success) {"
  const ReadValueGroup := "\t\t\t\tif (float" + ".TryParse(match" + ".Groups[\"value\"]" + ".Value, out float " + "floatValue)) {"
  const CloseIf := "\t\t\t\t}"
  const ThrowParseError := "\t\t\t\tthrow new " + "Exception($\"Error " + "parsing: {value}\");"
  const CloseMatch := "\t\t\t}"
  const ValueOnlyMatchLine := "\t\t\tmatch = " + "ValueOnlyRegex" + ".Match(value);"
  const ReadWholeMatch := "\t\t\t\tif (float" + ".TryParse(match" + ".Groups[0].Value, " + "out float " + "floatValue)) {"
  const ThrowAtEnd := "\t\t\tthrow new " + "Exception($\"Error " + "parsing: {value}\");"
  const CloseMethod := "\t\t}"

  /** `Parse<Dimension>(string value, Units defaultUnits)`. */
  function ParseMethod(names: NameSet): (r: seq<string>)
    ensures |r| == 18
  {
    var d, u := names.dimensionTypeName, names.unitsTypeName;
    ["",
     "\t\tpublic static " + d + " Parse" + d + "(string value, " + u + " defaultUnits) {",
     PairMatchLine,
     IfMatched,
     ReadValueGroup,
     "\t\t\t\t\t" + u + " units = ShortNames" + ".Get" + u + "(match" + ".Groups[\"units\"]" + ".Value);",
     "\t\t\t\t\treturn new " + d + "(floatValue, units);",
     CloseIf,
     ThrowParseError,
     CloseMatch,
     ValueOnlyMatchLine,
     IfMatched,
     ReadWholeMatch,
     "\t\t\t\t\treturn new " + d + "(floatValue, " + "defaultUnits);",
     CloseIf,
     CloseMatch,
     ThrowAtEnd,
     CloseMethod]
  }

  /** The methods of the first structs, in order. */
  function Methods(dimensions: seq<DimensionStruct>): seq<string> {
    if dimensions == [] then []
    else Methods(dimensions[..|dimensions| - 1]) + ParseMethod(dimensions[|dimensions| - 1].names)
  }

  /** The whole file: header, one method per struct, footer; no banner
      and no trailer. */
  function ParserText(dimensions: seq<DimensionStruct>): seq<string> {
    Header + Methods(dimensions) + Footer
  }

  /** Every struct gets its own eighteen-line method, in order. */
  lemma {:induction false} MethodsLayout(dimensions: seq<DimensionStruct>)
    ensures |Methods(dimensions)| == 18 * |dimensions|
    ensures forall k :: 0 <= k < |dimensions| ==> Methods(dimensions)[18 * k .. 18 * k + 18] == ParseMethod(dimensions[k].names)
  {
    if dimensions != [] {
      var n := |dimensions| - 1;
      var init := dimensions[..n];
      MethodsLayout(init);
      var front := Methods(init);
      var last := ParseMethod(dimensions[n].names);
      assert Methods(dimensions) == front + last;
      forall k | 0 <= k < |dimensions|
        ensures Methods(dimensions)[18 * k .. 18 * k + 18] == ParseMethod(dimensions[k].names)
      {
        if k < n {
          assert init[k] == dimensions[k];
          SliceOfLeft(front, last, 18 * k, 18 * k + 18);
        } else {
          SliceOfRight(front, last);
        }
      }
    }
  }

  /** The method of struct k starts eight lines into the file, after the
      methods of the structs before it. */
  lemma ParserTextLayout(dimensions: seq<DimensionStruct>, k: nat)
    requires k < |dimensions|
    ensures |ParserText(dimensions)| == 10 + 18 * |dimensions|
    ensures ParserText(dimensions)[8 + 18 * k .. 26 + 18 * k] == ParseMethod(dimensions[k].names)
  {
    MethodsLayout(dimensions);
    var m := Methods(dimensions);
    AppendAssociative(Header, m, Footer);
    SliceOfRightPart(Header, m + Footer, 8 + 18 * k, 26 + 18 * k);
    SliceOfLeft(m, Footer, 18 * k, 18 * k + 18);
  }

  /** The loop over the structs. */
  method AppendMethods(g: BaseGenerator, dimensions: seq<DimensionStruct>)
    modifies g`buffer
    ensures g.buffer == old(g.buffer) + Methods(dimensions)
  {
    var i := 0;
    while i < |dimensions|
      invariant 0 <= i <= |dimensions|
      invariant g.buffer == old(g.buffer) + Methods(dimensions[..i])
    {
      MethodsStep(dimensions, i);
      g.AppendLines(ParseMethod(dimensions[i].names));
      i := i + 1;
    }
    assert dimensions[..i] == dimensions;
  }

  /** One more iteration of the struct loop. */
  lemma MethodsStep(dimensions: seq<DimensionStruct>, i: nat)
    requires i < |dimensions|
    ensures Methods(dimensions[..i + 1]) == Methods(dimensions[..i]) + ParseMethod(dimensions[i].names)
  {
    assert dimensions[..i + 1][..i] == dimensions[..i];
  }

  /** `ExecuteInternal`: the whole parser in one file, written to disk
      under its fixed name. Whatever an earlier run left in the buffer
      comes first. The buffer is drained before the write, so it is empty
      even when the write throws; a failed write saves nothing. */
  method ExecuteInternal(g: BaseGenerator, ctx: Context, env: Environment) returns (fault: Option<Fault>)
    modifies g`buffer, ctx`written
    ensures var file := GeneratedFile(Destination(g.externalGenerationPath, ParserPath),
                                      old(g.buffer) + ParserText(ctx.compilation.dimensions));
            if env.writable(file.fileName) then ctx.written == old(ctx.written) + [file] && fault.None?
            else ctx.written == old(ctx.written) && fault == Some(WriteFailed(file.fileName))
    ensures g.buffer == []
  {
    g.AppendLines(Header);
    AppendMethods(g, ctx.compilation.dimensions);
    g.AppendLines(Footer);
    assert g.buffer == old(g.buffer) + ParserText(ctx.compilation.dimensions);
    var file := g.BufferToGeneratedFile(ParserPath);
    if env.writable(file.fileName) {
      ctx.WriteFile(file);
      fault := None;
    } else {
      fault := Some(WriteFailed(file.fileName));
    }
  }
}
