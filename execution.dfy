/** `BaseGenerator.Execute` (Source/GraduatedCylinder.Roslyn/BaseGenerator.cs):
    a generator runs only for the assemblies it names; its
    `ExecuteInternal` (the one of its kind) is wrapped so that an exception
    becomes a single error diagnostic named after the generator's type and
    carrying the exception's text, and is not rethrown. */
module Execution {
  import opened Wrappers
  import opened Declarations
  import opened Generators
  import opened ConverterSemantics
  import UnitConverterGeneration
  import ExtensionApiGeneration
  import FullParsingGeneration
  import IoTParsingGeneration

  /** What `ExecuteInternal` adds to the context (sources, diagnostics,
      files written to disk) and leaves in the generator (buffer, external
      path), and the exception that ended it. */
  datatype Outcome = Outcome(sources: seq<GeneratedFile>, diagnostics: seq<Diagnostic>, written: seq<GeneratedFile>,
                             buffer: seq<string>, path: Option<string>, fault: Option<Fault>)

  /** `ExecuteInternal` of each kind, from the generator's buffer and
      external path. */
  function Internal(kind: Kind, fullName: string, compilation: Compilation, path: Option<string>, buffer: seq<string>,
                    env: Environment): Outcome {
    match kind
    case UnitConverter =>
      var r := UnitConverterGeneration.ConverterRun(fullName, path, buffer, compilation.units, env);
      Outcome(r.files, [], [], r.buffer, path, r.fault)
    case ExtensionApi =>
      var c := CheckExternalPath(env);
      if !c.ok then Outcome([], c.diagnostics, [], buffer, c.path, None)
      else
        var r := ExtensionApiGeneration.ExtensionRun(compilation.assemblyName, fullName, c.path, buffer, compilation.units, env);
        Outcome([], c.diagnostics, r.files, r.buffer, c.path, r.fault)
    case FullParsing =>
      var r := FullParsingGeneration.ParserRun(fullName, path, buffer, compilation.dimensions, env);
      Outcome(r.files, [], [], r.buffer, path, None)
    case IoTParsing =>
      var file := GeneratedFile(Destination(path, IoTParsingGeneration.ParserPath),
                                buffer + IoTParsingGeneration.ParserText(compilation.dimensions));
      if env.writable(file.fileName) then Outcome([], [], [file], [], path, None)
      else Outcome([], [], [], [], path, Some(WriteFailed(file.fileName)))
  }

  /** The diagnostic the `catch` block reports, if any. */
  function Report(typeName: string, fault: Option<Fault>): seq<Diagnostic> {
    if fault.Some? then [GenerationFault(typeName, fault.value)] else []
  }

  /** The dispatch to the kind's `ExecuteInternal`. */
  method ExecuteInternal(g: BaseGenerator, ctx: Context, env: Environment) returns (fault: Option<Fault>)
    modifies g`buffer, g`externalGenerationPath, ctx`sources, ctx`diagnostics, ctx`written
    ensures var o := Internal(g.kind, g.fullName, ctx.compilation, old(g.externalGenerationPath), old(g.buffer), env);
            ctx.sources == old(ctx.sources) + o.sources && ctx.diagnostics == old(ctx.diagnostics) + o.diagnostics &&
            ctx.written == old(ctx.written) + o.written && g.buffer == o.buffer && g.externalGenerationPath == o.path &&
            fault == o.fault
  {
    match g.kind
    case UnitConverter =>
      fault := UnitConverterGeneration.ExecuteInternal(g, ctx, env);
    case ExtensionApi =>
      fault := ExtensionApiGeneration.ExecuteInternal(g, ctx, env);
    case FullParsing =>
      FullParsingGeneration.ExecuteInternal(g, ctx, env);
      fault := None;
    case IoTParsing =>
      fault := IoTParsingGeneration.ExecuteInternal(g, ctx, env);
  }

  /** `Execute`: nothing at all for an assembly the generator does not
      name; otherwise `ExecuteInternal`, and one error diagnostic when it
      throws. The buffer keeps whatever the interrupted text left in it. */
  method Execute(g: BaseGenerator, ctx: Context, env: Environment)
    modifies g`buffer, g`externalGenerationPath, ctx`sources, ctx`diagnostics, ctx`written
    ensures ctx.compilation.assemblyName !in g.generatorFor ==>
              g.buffer == old(g.buffer) && g.externalGenerationPath == old(g.externalGenerationPath) &&
              ctx.sources == old(ctx.sources) && ctx.diagnostics == old(ctx.diagnostics) && ctx.written == old(ctx.written)
    ensures ctx.compilation.assemblyName in g.generatorFor ==>
              var o := Internal(g.kind, g.fullName, ctx.compilation, old(g.externalGenerationPath), old(g.buffer), env);
              ctx.sources == old(ctx.sources) + o.sources &&
              ctx.diagnostics == old(ctx.diagnostics) + o.diagnostics + Report(g.typeName, o.fault) &&
              ctx.written == old(ctx.written) + o.written && g.buffer == o.buffer && g.externalGenerationPath == o.path
  {
    if ctx.compilation.assemblyName !in g.generatorFor {
      return;
    }
    var fault := ExecuteInternal(g, ctx, env);
    if fault.Some? {
      ctx.ReportDiagnostic(GenerationFault(g.typeName, fault.value));
    }
  }

  // ---------------------------------------------------------------------
  // Which generators run, and what they report
  // ---------------------------------------------------------------------

  /** The IoT generators run for `GraduatedCylinder.IoT` only and the
      full-library ones for `GraduatedCylinder` only, so no compilation
      gets generators of both families. */
  lemma Families(assemblyName: string)
    ensures assemblyName in GeneratorFor(UnitConverter) <==> assemblyName == "GraduatedCylinder.IoT"
    ensures assemblyName in GeneratorFor(IoTParsing) <==> assemblyName == "GraduatedCylinder.IoT"
    ensures assemblyName in GeneratorFor(ExtensionApi) <==> assemblyName == "GraduatedCylinder"
    ensures assemblyName in GeneratorFor(FullParsing) <==> assemblyName == "GraduatedCylinder"
    ensures !(assemblyName in GeneratorFor(UnitConverter) && assemblyName in GeneratorFor(ExtensionApi))
  {
  }

  /** The converter reports nothing when every enum's cases resolve, and
      otherwise exactly one diagnostic: the exception of the first enum
      whose cases fail. */
  lemma ConverterReports(fullName: string, typeName: string, compilation: Compilation, path: Option<string>,
                         buffer: seq<string>, env: Environment)
    ensures var o := Internal(UnitConverter, fullName, compilation, path, buffer, env);
            var units := compilation.units;
            (Report(typeName, o.fault) == [] <==> forall k :: 0 <= k < |units| ==> Cases(units[k].members).Ok?) &&
            (Report(typeName, o.fault) != [] ==>
               exists k :: 0 <= k < |units| && (forall j :: 0 <= j < k ==> Cases(units[j].members).Ok?) &&
                           Cases(units[k].members).Err? &&
                           Report(typeName, o.fault) == [GenerationFault(typeName, Cases(units[k].members).error)])
  {
    var units := compilation.units;
    var r := UnitConverterGeneration.ConverterRun(fullName, path, buffer, units, env);
    UnitConverterGeneration.ConverterRunFault(fullName, path, buffer, units, env);
    if r.fault.Some? {
      var k :| 0 <= k < |units| && |r.files| == k && Cases(units[k].members).Err? &&
               r.fault == Some(Cases(units[k].members).error) &&
               (forall j :: 0 <= j < k ==> Cases(units[j].members).Ok?);
      assert Report(typeName, r.fault) == [GenerationFault(typeName, Cases(units[k].members).error)];
    }
  }

  /** The extension generator reports a missing or invalid path and
      nothing else; with a usable path it reports exactly the exception of
      the first enum whose extensions fail, if any. */
  lemma ExtensionReports(fullName: string, typeName: string, compilation: Compilation, path: Option<string>,
                         buffer: seq<string>, env: Environment)
    ensures var o := Internal(ExtensionApi, fullName, compilation, path, buffer, env);
            !CheckExternalPath(env).ok ==> o.diagnostics + Report(typeName, o.fault) == CheckExternalPath(env).diagnostics &&
                                            o.written == [] && o.buffer == buffer
    ensures var o := Internal(ExtensionApi, fullName, compilation, path, buffer, env);
            var units := compilation.units;
            CheckExternalPath(env).ok ==>
              o.diagnostics == [] &&
              (Report(typeName, o.fault) == [] <==> forall k :: 0 <= k < |units| ==> ExtensionApiGeneration.Extensions(units[k].members).Ok?) &&
              (Report(typeName, o.fault) != [] ==>
                 exists k :: 0 <= k < |units| && ExtensionApiGeneration.Extensions(units[k].members).Err? &&
                             Report(typeName, o.fault) == [GenerationFault(typeName, ExtensionApiGeneration.Extensions(units[k].members).error)])
  {
    var c := CheckExternalPath(env);
    if c.ok {
      ExtensionApiGeneration.ExtensionRunFault(compilation.assemblyName, fullName, c.path, buffer, compilation.units, env);
    }
  }

  /** The full-library parsing generator never reports. The IoT one
      reports exactly when writing its fixed file fails, and then the
      diagnostic names that file. */
  lemma ParsersReportOnlyWriteFailures(kind: Kind, fullName: string, typeName: string, compilation: Compilation,
                                       path: Option<string>, buffer: seq<string>, env: Environment)
    requires kind == FullParsing || kind == IoTParsing
    ensures kind == FullParsing ==> Report(typeName, Internal(kind, fullName, compilation, path, buffer, env).fault) == []
    ensures kind == IoTParsing ==>
              var name := Destination(path, IoTParsingGeneration.ParserPath);
              Report(typeName, Internal(kind, fullName, compilation, path, buffer, env).fault) ==
                (if env.writable(name) then [] else [GenerationFault(typeName, WriteFailed(name))])
  {
    if kind == FullParsing {
      FullParsingGeneration.ParserRunFiles(fullName, path, buffer, compilation.dimensions, env);
    }
  }

  // ---------------------------------------------------------------------
  // The buffer after an exception
  // ---------------------------------------------------------------------

  /** An exception in the converter leaves the interrupted text, at least
      its banner and class opening, in the buffer. */
  lemma ConverterFaultLeavesText(fullName: string, compilation: Compilation, path: Option<string>, buffer: seq<string>,
                                 env: Environment)
    ensures var o := Internal(UnitConverter, fullName, compilation, path, buffer, env);
            o.fault.Some? ==> |o.buffer| >= 9
  {
    var units := compilation.units;
    var parts := UnitConverterGeneration.ConverterParts(fullName, units, env.clock);
    var r := DrainRun(path, buffer, parts, env.gauge, true);
    if r.fault.Some? {
      DrainRunFaultBuffer(path, buffer, parts, env.gauge, true);
      var k := FirstFault(parts);
      UnitConverterGeneration.ConverterOpens(fullName, units[k].names, units[k].members, env.clock(k));
    }
  }

  /** As written, what an interrupted run left in the buffer opens the
      first converter file of the next run on the same generator, ahead of
      that file's own banner. */
  lemma StaleBufferOpensNextFile(fullName: string, path: Option<string>, start: seq<string>, units: seq<UnitEnum>,
                                 env: Environment)
    requires |units| > 0 && Cases(units[0].members).Ok?
    ensures var r := UnitConverterGeneration.ConverterRun(fullName, path, start, units, env);
            |r.files| > 0 && |start| <= |r.files[0].content| && r.files[0].content[..|start|] == start
  {
    var parts := UnitConverterGeneration.ConverterParts(fullName, units, env.clock);
    UnitConverterGeneration.ConverterPartsFaults(fullName, units, env.clock);
    DrainRunPrefix(path, start, parts, env.gauge, true, 0);
    assert parts[..0] == [];
    var first := DrainRun(path, start, parts[..1], env.gauge, true);
    var text := start + parts[0].text.lines;
    assert first.files == [GeneratedFile(Destination(path, parts[0].fileName), text + Trailer(env.gauge, text))];
    assert (text + Trailer(env.gauge, text))[..|start|] == start;
    DrainRunGrows(path, start, parts, env.gauge, true, 1);
  }

  /** A run that starts from an empty buffer and is not interrupted ends
      with an empty buffer, whatever the kind. */
  lemma CleanRunStaysClean(kind: Kind, fullName: string, compilation: Compilation, path: Option<string>, env: Environment)
    ensures var o := Internal(kind, fullName, compilation, path, [], env);
            o.fault.None? ==> o.buffer == []
  {
    if Internal(kind, fullName, compilation, path, [], env).fault.Some? {
      return;
    }
    match kind
    case UnitConverter =>
      DrainRunFiles(path, UnitConverterGeneration.ConverterParts(fullName, compilation.units, env.clock), env.gauge, true);
    case ExtensionApi =>
      var c := CheckExternalPath(env);
      if c.ok {
        DrainRunFiles(c.path, ExtensionApiGeneration.ExtensionParts(compilation.assemblyName, fullName, compilation.units, env.clock),
                      env.gauge, true);
      }
    case FullParsing =>
      FullParsingGeneration.ParserRunFromEmpty(fullName, path, compilation.dimensions, env);
    case IoTParsing =>
  }

  /** `Execute` as evidently intended: the `catch` block also clears the
      buffer, so a generator whose buffer is empty before a run has an
      empty buffer after it, and every file of the next run holds only its
      own text. */
  method ExecuteClearing(g: BaseGenerator, ctx: Context, env: Environment)
    modifies g`buffer, g`externalGenerationPath, ctx`sources, ctx`diagnostics, ctx`written
    ensures ctx.compilation.assemblyName !in g.generatorFor ==>
              g.buffer == old(g.buffer) && g.externalGenerationPath == old(g.externalGenerationPath) &&
              ctx.sources == old(ctx.sources) && ctx.diagnostics == old(ctx.diagnostics) && ctx.written == old(ctx.written)
    ensures ctx.compilation.assemblyName in g.generatorFor ==>
              var o := Internal(g.kind, g.fullName, ctx.compilation, old(g.externalGenerationPath), old(g.buffer), env);
              ctx.sources == old(ctx.sources) + o.sources &&
              ctx.diagnostics == old(ctx.diagnostics) + o.diagnostics + Report(g.typeName, o.fault) &&
              ctx.written == old(ctx.written) + o.written && g.externalGenerationPath == o.path &&
              g.buffer == (if o.fault.Some? then [] else o.buffer)
    ensures old(g.buffer) == [] ==> g.buffer == []
  {
    if ctx.compilation.assemblyName !in g.generatorFor {
      return;
    }
    CleanRunStaysClean(g.kind, g.fullName, ctx.compilation, g.externalGenerationPath, env);
    var fault := ExecuteInternal(g, ctx, env);
    if fault.Some? {
      ctx.ReportDiagnostic(GenerationFault(g.typeName, fault.value));
      g.Clear();
    }
  }
}
