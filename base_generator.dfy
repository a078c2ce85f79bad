/** The state and helpers every generator shares
    (Source/GraduatedCylinder.Roslyn/BaseGenerator.cs): a reusable text
    buffer, an optional external output directory, the generation banner,
    and the host's context that receives sources and diagnostics.

    The buffer is a sequence of lines: `AppendLine(s)` adds the line `s`,
    `AppendLine()` the empty line. */
module Generators {
  import opened Wrappers
  import opened Declarations

  datatype GeneratedFile = GeneratedFile(fileName: string, content: seq<string>)

  datatype Severity = Error

  datatype Diagnostic = Diagnostic(id: string, title: string, message: string, severity: Severity)

  /** The four concrete generators. */
  datatype Kind = UnitConverter | ExtensionApi | FullParsing | IoTParsing

  /** The assembly names each generator runs for (its base constructor call). */
  function GeneratorFor(kind: Kind): seq<string> {
    match kind
    case UnitConverter => ["GraduatedCylinder.IoT"]
    case ExtensionApi => ["GraduatedCylinder"]
    case FullParsing => ["GraduatedCylinder"]
    case IoTParsing => ["GraduatedCylinder.IoT"]
  }

  /** `GetType().Name`. */
  function TypeName(kind: Kind): string {
    match kind
    case UnitConverter => "UnitConverterGenerator"
    case ExtensionApi => "ExtensionApiGenerator"
    case FullParsing => "ParsingGenerator"
    case IoTParsing => "ParsingGenerator"
  }

  /** `GetType().FullName`. */
  function FullName(kind: Kind): string {
    match kind
    case UnitConverter => "GraduatedCylinder" + ".Roslyn.IoT" + ".UnitConverter" + "Generator"
    case ExtensionApi => "GraduatedCylinder" + ".Roslyn.Full" + ".ExtensionApi" + "Generator"
    case FullParsing => "GraduatedCylinder" + ".Roslyn.Full" + ".Parsing" + "Generator"
    case IoTParsing => "GraduatedCylinder" + ".Roslyn.IoT" + ".Parsing" + "Generator"
  }

  /** The two numbers the trailer comments print: the buffer's capacity
      and its length in characters. The model follows neither the
      StringBuilder's growth policy nor the platform's newline, so both are
      readings taken on the buffer's lines at the moment they are printed. */
  datatype Gauge = Gauge(capacity: seq<string> -> string, length: seq<string> -> string)

  /** What the host provides besides the compilation: the value of the
      environment variable `GraduatedCylinder`, `Directory.Exists`, the
      clock (`DateTime.Now` formatted with "R") as read for the i-th file of
      a run, the buffer gauge, and whether `File.WriteAllText` succeeds on a
      file name (it throws when the file's directory is missing). */
  datatype Environment = Environment(variable: Option<string>, directoryExists: string -> bool,
                                     clock: nat -> string, gauge: Gauge, writable: string -> bool)

  const EnvironmentVariableMissing := Diagnostic(
    "GC-ENV-01", "Build Environment " + "Variable Missing",
    "Missing Environment " + "Variable named " + "'GraduatedCylinder'," + " please add it. It " + "should have the " + "value of the root " + "directory of the " + "repository.",
    Error)

  const EnvironmentVariableInvalid := Diagnostic(
    "GC-ENV-02", "Build Environment " + "Variable Invalid",
    "Invalid Environment " + "Variable named " + "'GraduatedCylinder'" + ". It should have " + "the value of the " + "root directory of " + "the repository.",
    Error)

  /** The diagnostic `Execute` reports for an exception of `ExecuteInternal`. */
  function GenerationFault(typeName: string, f: Fault): Diagnostic {
    Diagnostic(typeName, "Error", FaultText(f), Error)
  }

  const GeneratedBy := "// This file was " + "generated by "
  const DoNotModify := "// Do not modify, " + "your changes will " + "be lost on the next " + "compile."

  /** The three lines of `WriteAutoGeneratedNotification`. */
  function Banner(fullName: string, now: string): seq<string> {
    [GeneratedBy + fullName + " at " + now, DoNotModify, ""]
  }

  predicate EndsWithSeparator(path: string) {
    |path| > 0 && path[|path| - 1] == '\\'
  }

  function WithTrailingSeparator(path: string): string {
    if EndsWithSeparator(path) then path else path + "\\"
  }

  /** The name `BufferToGeneratedFile` gives a file. */
  function Destination(externalGenerationPath: Option<string>, fileName: string): string {
    match externalGenerationPath
    case None => fileName
    case Some(root) => root + fileName
  }

  /** The outcome of `SetExternalGenerationPath`: its result, the new value
      of the property and the diagnostics it reports. */
  datatype PathCheck = PathCheck(ok: bool, path: Option<string>, diagnostics: seq<Diagnostic>)

  function CheckExternalPath(env: Environment): (c: PathCheck)
    ensures c.ok <==> env.variable.Some? && env.directoryExists(env.variable.value)
    ensures c.ok <==> c.diagnostics == []
    ensures env.variable.None? ==> c.path.None? && c.diagnostics == [EnvironmentVariableMissing]
    ensures env.variable.Some? && !c.ok ==> c.path == env.variable && c.diagnostics == [EnvironmentVariableInvalid]
    ensures c.ok ==> c.path.Some? && EndsWithSeparator(c.path.value) && |env.variable.value| <= |c.path.value| <= |env.variable.value| + 1 &&
                     c.path.value[..|env.variable.value|] == env.variable.value
  {
    match env.variable
    case None => PathCheck(false, None, [EnvironmentVariableMissing])
    case Some(v) =>
      if !env.directoryExists(v) then PathCheck(false, Some(v), [EnvironmentVariableInvalid])
      else PathCheck(true, Some(WithTrailingSeparator(v)), [])
  }

  /** Appending the separator only when it is absent makes the
      normalisation idempotent. */
  lemma NormalisationIdempotent(path: string)
    ensures WithTrailingSeparator(WithTrailingSeparator(path)) == WithTrailingSeparator(path)
    ensures EndsWithSeparator(path) ==> WithTrailingSeparator(path) == path
  {
  }

  /** Every banner holds the clock reading, so two runs at different times
      never write the same first line. */
  lemma BannerDependsOnClock(fullName: string, now1: string, now2: string)
    requires now1 != now2
    ensures Banner(fullName, now1) != Banner(fullName, now2)
  {
    var prefix := GeneratedBy + fullName + " at ";
    assert (prefix + now1)[|prefix|..] == now1;
    assert (prefix + now2)[|prefix|..] == now2;
    assert Banner(fullName, now1)[0] == prefix + now1;
    assert Banner(fullName, now2)[0] == prefix + now2;
  }

  /** Text emitted up to the end or up to an exception: the lines appended
      before the exception stay in the buffer. */
  datatype Emission = Emission(lines: seq<string>, fault: Option<Fault>)

  function Lines(lines: seq<string>): Emission {
    Emission(lines, None)
  }

  /** `a`, then `b` unless `a` threw. */
  function Then(a: Emission, b: Emission): (r: Emission)
    ensures a.fault.None? ==> r.lines == a.lines + b.lines && r.fault == b.fault
    ensures a.fault.Some? ==> r == a
  {
    if a.fault.Some? then a else Emission(a.lines + b.lines, b.fault)
  }

  /** Appending in two steps appends the concatenation. */
  lemma AppendAssociative<T>(a: seq<T>, b: seq<T>, c: seq<T>)
    ensures a + b + c == a + (b + c)
  {
  }

  /** A slice inside the left operand of a concatenation. */
  lemma SliceOfLeft<T>(a: seq<T>, b: seq<T>, i: nat, j: nat)
    requires i <= j <= |a|
    ensures (a + b)[i..j] == a[i..j]
  {
  }

  /** A slice inside the right operand of a concatenation. */
  lemma SliceOfRightPart<T>(a: seq<T>, b: seq<T>, i: nat, j: nat)
    requires |a| <= i <= j <= |a| + |b|
    ensures (a + b)[i..j] == b[i - |a|..j - |a|]
  {
  }

  /** The right operand of a concatenation, sliced back out. */
  lemma SliceOfRight<T>(a: seq<T>, b: seq<T>)
    ensures (a + b)[|a|..|a| + |b|] == b
  {
  }

  lemma ThenAssociative(a: Emission, b: Emission, c: Emission)
    ensures Then(Then(a, b), c) == Then(a, Then(b, c))
  {
    if a.fault.None? && b.fault.None? {
      assert (a.lines + b.lines) + c.lines == a.lines + (b.lines + c.lines);
    }
  }

  /** The two trailer comments, printed after the lines `before`. */
  function Trailer(gauge: Gauge, before: seq<string>): seq<string> {
    var capacityLine := CapacityComment + gauge.capacity(before);
    [capacityLine, LengthComment + gauge.length(before + [capacityLine])]
  }

  const CapacityComment := "// Buffer.Capacity: "
  const LengthComment := "// Buffer.Length: "

  /** Append the two trailer comments. */
  method AppendTrailer(g: BaseGenerator, gauge: Gauge)
    modifies g`buffer
    ensures g.buffer == old(g.buffer) + Trailer(gauge, old(g.buffer))
  {
    var capacityLine := CapacityComment + gauge.capacity(g.buffer);
    g.AppendLine(capacityLine);
    g.AppendLine(LengthComment + gauge.length(g.buffer));
  }

  /** The outcome of a generator's loop over its declarations: the files it
      produced, what is left in the buffer, and the exception that ended
      the loop, if any. */
  datatype Run = Run(files: seq<GeneratedFile>, buffer: seq<string>, fault: Option<Fault>)

  /** The text one declaration contributes, the name of its file, and
      whether that file is kept (otherwise the buffer is cleared). */
  datatype Part = Part(fileName: string, text: Emission, saved: bool)

  /** The file a part gives when its text starts from an empty buffer. */
  function FileOf(path: Option<string>, p: Part, gauge: Gauge, trailed: bool): GeneratedFile {
    var t := p.text.lines;
    GeneratedFile(Destination(path, p.fileName), t + (if trailed then Trailer(gauge, t) else []))
  }

  /** The files of the saved parts, in order. */
  function Saved(path: Option<string>, parts: seq<Part>, gauge: Gauge, trailed: bool): seq<GeneratedFile> {
    if parts == [] then []
    else
      var p := parts[|parts| - 1];
      Saved(path, parts[..|parts| - 1], gauge, trailed) + (if p.saved then [FileOf(path, p, gauge, trailed)] else [])
  }

  function SavedCount(parts: seq<Part>): nat {
    if parts == [] then 0 else SavedCount(parts[..|parts| - 1]) + (if parts[|parts| - 1].saved then 1 else 0)
  }

  /** A loop that, per declaration, appends its text to the buffer and,
      unless the text was interrupted, either drains the buffer into a
      file (with the trailer comments when `trailed`) or clears it; the
      first exception ends the loop with the partial text left in the
      buffer. Starts from the buffer `start` and the external path `path`. */
  function DrainRun(path: Option<string>, start: seq<string>, parts: seq<Part>, gauge: Gauge, trailed: bool): Run {
    if parts == [] then Run([], start, None)
    else
      var prev := DrainRun(path, start, parts[..|parts| - 1], gauge, trailed);
      if prev.fault.Some? then prev
      else
        var p := parts[|parts| - 1];
        var text := prev.buffer + p.text.lines;
        if p.text.fault.Some? then Run(prev.files, text, p.text.fault)
        else if !p.saved then Run(prev.files, [], None)
        else Run(prev.files + [GeneratedFile(Destination(path, p.fileName), text + (if trailed then Trailer(gauge, text) else []))], [], None)
  }

  /** From an empty buffer and without exception, the run produces exactly
      the files of the saved parts, each holding only its own text, and
      leaves the buffer empty. */
  lemma {:induction false} DrainRunFiles(path: Option<string>, parts: seq<Part>, gauge: Gauge, trailed: bool)
    requires DrainRun(path, [], parts, gauge, trailed).fault.None?
    ensures var r := DrainRun(path, [], parts, gauge, trailed);
            r.buffer == [] && r.files == Saved(path, parts, gauge, trailed)
  {
    if parts != [] {
      DrainRunFiles(path, parts[..|parts| - 1], gauge, trailed);
      assert [] + parts[|parts| - 1].text.lines == parts[|parts| - 1].text.lines;
    }
  }

  /** One file per saved part. */
  lemma {:induction false} SavedLength(path: Option<string>, parts: seq<Part>, gauge: Gauge, trailed: bool)
    ensures |Saved(path, parts, gauge, trailed)| == SavedCount(parts) <= |parts|
  {
    if parts != [] {
      SavedLength(path, parts[..|parts| - 1], gauge, trailed);
    }
  }

  /** When every part is saved, the k-th file is the k-th part's. */
  lemma {:induction false} SavedAll(path: Option<string>, parts: seq<Part>, gauge: Gauge, trailed: bool)
    requires forall k :: 0 <= k < |parts| ==> parts[k].saved
    ensures |Saved(path, parts, gauge, trailed)| == |parts|
    ensures forall k :: 0 <= k < |parts| ==> Saved(path, parts, gauge, trailed)[k] == FileOf(path, parts[k], gauge, trailed)
  {
    if parts != [] {
      var n := |parts| - 1;
      SavedAll(path, parts[..n], gauge, trailed);
      assert forall k :: 0 <= k < n ==> parts[..n][k] == parts[k];
    }
  }

  /** Parts that are all discarded give no file. */
  lemma {:induction false} SavedNone(path: Option<string>, parts: seq<Part>, gauge: Gauge, trailed: bool)
    requires forall k :: 0 <= k < |parts| ==> !parts[k].saved
    ensures Saved(path, parts, gauge, trailed) == []
  {
    if parts != [] {
      SavedNone(path, parts[..|parts| - 1], gauge, trailed);
    }
  }

  /** When every part is saved, each part gives one file. */
  lemma {:induction false} SavedCountAll(parts: seq<Part>)
    requires forall k :: 0 <= k < |parts| ==> parts[k].saved
    ensures SavedCount(parts) == |parts|
    ensures forall k :: 0 <= k <= |parts| ==> SavedCount(parts[..k]) == k
  {
    if parts != [] {
      var n := |parts| - 1;
      SavedCountAll(parts[..n]);
      forall k | 0 <= k <= n
        ensures SavedCount(parts[..k]) == k
      {
        assert parts[..n][..k] == parts[..k];
      }
      assert parts[..|parts|] == parts;
    }
  }

  /** The index of the first part whose text is interrupted, or the
      number of parts when none is. */
  function FirstFault(parts: seq<Part>): (f: nat)
    ensures f <= |parts|
    ensures forall j :: 0 <= j < f ==> parts[j].text.fault.None?
    ensures f < |parts| ==> parts[f].text.fault.Some?
  {
    if parts == [] then 0
    else
      var n := |parts| - 1;
      var f := FirstFault(parts[..n]);
      assert forall j :: 0 <= j < f ==> parts[..n][j] == parts[j];
      if f < n then f else if parts[n].text.fault.Some? then n else n + 1
  }

  /** The loop stops at the first interrupted text: the files of the
      parts before it are kept and its exception is the run's; without one
      the loop runs to the end. */
  lemma {:induction false} DrainRunFault(path: Option<string>, start: seq<string>, parts: seq<Part>, gauge: Gauge, trailed: bool)
    ensures var r := DrainRun(path, start, parts, gauge, trailed);
            var f := FirstFault(parts);
            |r.files| == SavedCount(parts[..f]) &&
            (f < |parts| ==> r.fault == parts[f].text.fault) &&
            (f == |parts| ==> r.fault.None?)
  {
    if parts != [] {
      var n := |parts| - 1;
      var init := parts[..n];
      DrainRunFault(path, start, init, gauge, trailed);
      var f := FirstFault(init);
      if f < n {
        assert parts[f] == init[f] && parts[..f] == init[..f];
      } else {
        assert init[..n] == init && parts[..n] == init && parts[..n + 1] == parts;
      }
    }
  }

  /** After an interrupted text the later declarations change nothing. */
  lemma {:induction false} DrainRunStop(path: Option<string>, start: seq<string>, parts: seq<Part>, gauge: Gauge, trailed: bool, i: nat)
    requires i <= |parts| && DrainRun(path, start, parts[..i], gauge, trailed).fault.Some?
    ensures DrainRun(path, start, parts, gauge, trailed) == DrainRun(path, start, parts[..i], gauge, trailed)
    decreases |parts| - i
  {
    if i < |parts| {
      DrainRunPrefix(path, start, parts, gauge, trailed, i);
      DrainRunStop(path, start, parts, gauge, trailed, i + 1);
    } else {
      assert parts[..i] == parts;
    }
  }

  /** The files of a loop that stopped early begin the files of the whole
      loop. */
  lemma {:induction false} DrainRunGrows(path: Option<string>, start: seq<string>, parts: seq<Part>, gauge: Gauge, trailed: bool, i: nat)
    requires i <= |parts|
    ensures DrainRun(path, start, parts[..i], gauge, trailed).files <= DrainRun(path, start, parts, gauge, trailed).files
    decreases |parts| - i
  {
    if i < |parts| {
      DrainRunPrefix(path, start, parts, gauge, trailed, i);
      DrainRunGrows(path, start, parts, gauge, trailed, i + 1);
    } else {
      assert parts[..i] == parts;
    }
  }

  /** An interrupted loop leaves at least the interrupted text in the
      buffer. */
  lemma {:induction false} DrainRunFaultBuffer(path: Option<string>, start: seq<string>, parts: seq<Part>, gauge: Gauge, trailed: bool)
    requires DrainRun(path, start, parts, gauge, trailed).fault.Some?
    ensures FirstFault(parts) < |parts|
    ensures |parts[FirstFault(parts)].text.lines| <= |DrainRun(path, start, parts, gauge, trailed).buffer|
  {
    var n := |parts| - 1;
    var init := parts[..n];
    var prev := DrainRun(path, start, init, gauge, trailed);
    if prev.fault.Some? {
      DrainRunFaultBuffer(path, start, init, gauge, trailed);
      assert parts[FirstFault(init)] == init[FirstFault(init)];
    } else {
      DrainRunFault(path, start, init, gauge, trailed);
    }
  }

  lemma DrainRunPrefix(path: Option<string>, start: seq<string>, parts: seq<Part>, gauge: Gauge, trailed: bool, i: nat)
    requires i < |parts|
    ensures DrainRun(path, start, parts[..i + 1], gauge, trailed) ==
              var prev := DrainRun(path, start, parts[..i], gauge, trailed);
              if prev.fault.Some? then prev
              else
                var text := prev.buffer + parts[i].text.lines;
                if parts[i].text.fault.Some? then Run(prev.files, text, parts[i].text.fault)
                else if !parts[i].saved then Run(prev.files, [], None)
                else Run(prev.files + [GeneratedFile(Destination(path, parts[i].fileName), text + (if trailed then Trailer(gauge, text) else []))], [], None)
  {
    assert parts[..i + 1][..i] == parts[..i];
  }

  /** The host side of a run (`GeneratorExecutionContext`): the compilation,
      the sources added to it, the diagnostics reported, and the files the
      generators write to disk. */
  class Context {
    const compilation: Compilation
    var sources: seq<GeneratedFile>
    var diagnostics: seq<Diagnostic>
    var written: seq<GeneratedFile>

    constructor (compilation: Compilation)
      ensures this.compilation == compilation
      ensures sources == [] && diagnostics == [] && written == []
    {
      this.compilation := compilation;
      sources, diagnostics, written := [], [], [];
    }

    /** `context.AddSource`, reached through `GeneratedFile.AddToContext`. */
    method AddSource(file: GeneratedFile)
      modifies this`sources
      ensures sources == old(sources) + [file]
    {
      sources := sources + [file];
    }

    method ReportDiagnostic(d: Diagnostic)
      modifies this`diagnostics
      ensures diagnostics == old(diagnostics) + [d]
    {
      diagnostics := diagnostics + [d];
    }

    /** `File.WriteAllText`, also reached through `GeneratedFile.SaveToDisk`. */
    method WriteFile(file: GeneratedFile)
      modifies this`written
      ensures written == old(written) + [file]
    {
      written := written + [file];
    }
  }

  class BaseGenerator {
    const kind: Kind
    const generatorFor: seq<string>
    const typeName: string
    const fullName: string
    var externalGenerationPath: Option<string>
    var buffer: seq<string>

    constructor (kind: Kind)
      ensures this.kind == kind && generatorFor == GeneratorFor(kind)
      ensures typeName == TypeName(kind) && fullName == FullName(kind)
      ensures externalGenerationPath.None? && buffer == []
    {
      this.kind := kind;
      generatorFor := GeneratorFor(kind);
      typeName := TypeName(kind);
      fullName := FullName(kind);
      externalGenerationPath := None;
      buffer := [];
    }

    method AppendLine(line: string)
      modifies this`buffer
      ensures buffer == old(buffer) + [line]
    {
      buffer := buffer + [line];
    }

    /** `AppendLine` for each of `lines`, in order. */
    method AppendLines(lines: seq<string>)
      modifies this`buffer
      ensures buffer == old(buffer) + lines
    {
      var i := 0;
      while i < |lines|
        invariant 0 <= i <= |lines|
        invariant buffer == old(buffer) + lines[..i]
      {
        AppendLine(lines[i]);
        assert lines[..i + 1] == lines[..i] + [lines[i]];
        i := i + 1;
      }
      assert lines[..i] == lines;
    }

    method Clear()
      modifies this`buffer
      ensures buffer == []
    {
      buffer := [];
    }

    /** Take the buffer's text as a file, named under the external path
      when one is set, and leave the buffer empty. */
    method BufferToGeneratedFile(fileName: string) returns (file: GeneratedFile)
      modifies this`buffer
      ensures file == GeneratedFile(Destination(externalGenerationPath, fileName), old(buffer))
      ensures buffer == []
    {
      var name := fileName;
      if externalGenerationPath.Some? {
        name := externalGenerationPath.value + name;
      }
      file := GeneratedFile(name, buffer);
      Clear();
    }

    method WriteAutoGeneratedNotification(now: string)
      modifies this`buffer
      ensures buffer == old(buffer) + Banner(fullName, now)
    {
      AppendLine(GeneratedBy + fullName + " at " + now);
      AppendLine(DoNotModify);
      AppendLine("");
    }

    /** Read the output root from the environment; report and fail when it
      is missing or not a directory (the property keeps the bad value in
      the second case); otherwise make sure it ends with '\'. */
    method SetExternalGenerationPath(env: Environment, ctx: Context) returns (ok: bool)
      modifies this`externalGenerationPath, ctx`diagnostics
      ensures var c := CheckExternalPath(env);
              ok == c.ok && externalGenerationPath == c.path &&
              ctx.diagnostics == old(ctx.diagnostics) + c.diagnostics
    {
      externalGenerationPath := env.variable;
      if externalGenerationPath.None? {
        ctx.ReportDiagnostic(EnvironmentVariableMissing);
        return false;
      }
      if !env.directoryExists(externalGenerationPath.value) {
        ctx.ReportDiagnostic(EnvironmentVariableInvalid);
        return false;
      }
      if !EndsWithSeparator(externalGenerationPath.value) {
        externalGenerationPath := Some(externalGenerationPath.value + "\\");
      }
      return true;
    }
  }

}
