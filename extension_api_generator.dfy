/** The extension-method generator
    (Source/GraduatedCylinder.Roslyn/Full/ExtensionApiGenerator.cs): for
    every unit enum it writes a static class of extension methods, four per
    member that carries a `GraduatedCylinder.Extensions` attribute (one for
    each of `int`, `long`, `float` and `double`), and saves the file to disk
    under the external generation path, but only when at least one member
    is annotated; otherwise the text is discarded. */
module ExtensionApiGeneration {
  import opened Wrappers
  import opened Declarations
  import opened Generators

  // ---------------------------------------------------------------------
  // What a member declares
  // ---------------------------------------------------------------------

  /** An extension a member asks for: the method name (the attribute's
      first constructor argument) and the unit it builds (the symbol's
      name). */
  datatype Extension = Extension(methodName: string, unit: string)

  /** The extension of one member: none without a symbol or without an
      Extensions attribute; `SingleOrDefault` throws on two such attributes,
      `ConstructorArguments[0]` on one without arguments, and
      `Value!.ToString()` on a `null` first argument. */
  function MemberExtension(m: EnumMember): Result<Option<Extension>, Fault> {
    match MemberAttribute(m, ExtensionsNamespace)
    case Err(f) => Err(f)
    case Ok(None) => Ok(None)
    case Ok(Some(a)) =>
      if |a.arguments| == 0 then Err(IndexOutOfRange)
      else if a.arguments[0].isNull then Err(NullReference)
      else Ok(Some(Extension(a.arguments[0].text, m.symbol.value.name)))
  }

  /** The extensions of an enum's members, in declaration order, or the
      first member's exception. */
  function Extensions(members: seq<EnumMember>): Result<seq<Extension>, Fault> {
    if members == [] then Ok([])
    else
      match MemberExtension(members[0])
      case Err(f) => Err(f)
      case Ok(head) =>
        match Extensions(members[1..])
        case Err(f) => Err(f)
        case Ok(rest) => Ok((if head.Some? then [head.value] else []) + rest)
  }

  /** A member carries an Extensions attribute that `SingleOrDefault`
      returns. */
  predicate Annotated(m: EnumMember) {
    MemberAttribute(m, ExtensionsNamespace).Ok? && MemberAttribute(m, ExtensionsNamespace).value.Some?
  }

  /** The `hasExtensions` flag at the end of the member loop: some member
      is annotated. */
  predicate HasExtensions(members: seq<EnumMember>) {
    members != [] && (Annotated(members[0]) || HasExtensions(members[1..]))
  }

  /** The flag is set exactly when some member is annotated. */
  lemma {:induction false} HasExtensionsSome(members: seq<EnumMember>)
    ensures HasExtensions(members) <==> exists j :: 0 <= j < |members| && Annotated(members[j])
  {
    if members != [] {
      HasExtensionsSome(members[1..]);
      assert forall j :: 1 <= j < |members| ==> members[j] == members[1..][j - 1];
      if HasExtensions(members[1..]) {
        var j :| 0 <= j < |members[1..]| && Annotated(members[1..][j]);
        assert Annotated(members[j + 1]);
      }
    }
  }

  /** The flag over two runs of members. */
  lemma {:induction false} HasExtensionsConcat(xs: seq<EnumMember>, ys: seq<EnumMember>)
    ensures HasExtensions(xs + ys) <==> HasExtensions(xs) || HasExtensions(ys)
  {
    if xs == [] {
      assert [] + ys == ys;
    } else {
      assert (xs + ys)[1..] == xs[1..] + ys;
      HasExtensionsConcat(xs[1..], ys);
    }
  }

  /** One more iteration sets the flag when the member is annotated. */
  lemma HasExtensionsStep(members: seq<EnumMember>, i: nat)
    requires i < |members|
    ensures HasExtensions(members[..i + 1]) <==> HasExtensions(members[..i]) || Annotated(members[i])
  {
    assert members[..i + 1] == members[..i] + [members[i]];
    HasExtensionsConcat(members[..i], [members[i]]);
    assert [members[i]][1..] == [];
  }

  /** A member has an extension exactly when it is annotated with an
      attribute whose first argument is present and not `null`, and the
      extension reads that argument and the symbol's name; it throws
      exactly on a duplicate attribute, a missing argument or a `null`
      one, each with its own exception. */
  lemma MemberExtensionSpec(m: EnumMember)
    ensures MemberExtension(m).Ok? && MemberExtension(m).value.Some? <==>
              Annotated(m) && |MemberAttribute(m, ExtensionsNamespace).value.value.arguments| > 0 &&
              !MemberAttribute(m, ExtensionsNamespace).value.value.arguments[0].isNull
    ensures MemberExtension(m).Ok? && MemberExtension(m).value.Some? ==>
              m.symbol.Some? &&
              MemberExtension(m).value.value ==
                Extension(MemberAttribute(m, ExtensionsNamespace).value.value.arguments[0].text, m.symbol.value.name)
    ensures MemberExtension(m) == Ok(None) <==> !Annotated(m) && MemberAttribute(m, ExtensionsNamespace).Ok?
    ensures MemberExtension(m).Err? <==>
              MemberAttribute(m, ExtensionsNamespace).Err? ||
              (Annotated(m) && (|MemberAttribute(m, ExtensionsNamespace).value.value.arguments| == 0 ||
                                MemberAttribute(m, ExtensionsNamespace).value.value.arguments[0].isNull))
    ensures MemberExtension(m) == Err(MoreThanOneMatch) <==> MemberAttribute(m, ExtensionsNamespace).Err?
    ensures MemberExtension(m) == Err(IndexOutOfRange) <==>
              Annotated(m) && |MemberAttribute(m, ExtensionsNamespace).value.value.arguments| == 0
    ensures MemberExtension(m) == Err(NullReference) <==>
              Annotated(m) && |MemberAttribute(m, ExtensionsNamespace).value.value.arguments| > 0 &&
              MemberAttribute(m, ExtensionsNamespace).value.value.arguments[0].isNull
  {
  }

  /** Without exception, an enum has extensions exactly when some member
      is annotated; a member without a symbol never is. */
  lemma {:induction false} ExtensionsNonEmpty(members: seq<EnumMember>)
    requires Extensions(members).Ok?
    ensures Extensions(members).value != [] <==> HasExtensions(members)
    ensures |Extensions(members).value| <= |members|
  {
    if members != [] {
      ExtensionsNonEmpty(members[1..]);
    }
  }

  // ---------------------------------------------------------------------
  // The text
  // ---------------------------------------------------------------------

  /** The value types each extension is declared for, in order. */
  const ValueTypes: seq<string> := ["int", "long", "float", "double"]

  /** One extension method: `<methodName>(this <valueType> value)`
      returning the dimension in the member's unit. */
  function MethodBlock(names: NameSet, e: Extension, valueType: string): seq<string> {
    [Inlining,
     PublicStatic + names.dimensionTypeName + " " + e.methodName + "(this " + valueType + " value) {",
     ReturnNew + names.dimensionTypeName + "(value, " + names.unitsTypeName + "." + e.unit + ");",
     CloseMethod,
     ""]
  }

  // The fixed fragments of the generated lines.
  const Inlining := "\t[MethodImpl(" + "MethodImplOptions" + ".AggressiveInlining" + ")]"
  const PublicStatic := "\tpublic static "
  const ReturnNew := "\t\treturn new "
  const CloseMethod := "\t}"
  const Usings: seq<string> := [
    "#nullable enable",
    "using System;",
    "using System.Runtime" + ".CompilerServices;",
    "",
    "namespace " + "GraduatedCylinder" + ".Extensions;",
    ""]
  const ClassHead := "public static class "
  const SourceFolder := "Source\\"
  const ExtensionsFolder := ".Extensions\\"
  const ExtensionsSuffix := "Extensions.g.cs"

  /** The methods of one extension, one per value type of `types`. */
  function MethodBlocks(names: NameSet, e: Extension, types: seq<string>): seq<string> {
    if types == [] then [] else MethodBlock(names, e, types[0]) + MethodBlocks(names, e, types[1..])
  }

  /** Each value type gets its own five-line block, in order. */
  lemma {:induction false} MethodBlocksLayout(names: NameSet, e: Extension, types: seq<string>)
    ensures |MethodBlocks(names, e, types)| == 5 * |types|
    ensures forall j :: 0 <= j < |types| ==> MethodBlocks(names, e, types)[5 * j .. 5 * j + 5] == MethodBlock(names, e, types[j])
  {
    if types != [] {
      MethodBlocksLayout(names, e, types[1..]);
      var head := MethodBlock(names, e, types[0]);
      var rest := MethodBlocks(names, e, types[1..]);
      forall j | 0 <= j < |types|
        ensures (head + rest)[5 * j .. 5 * j + 5] == MethodBlock(names, e, types[j])
      {
        if j == 0 {
          assert (head + rest)[0..5] == head;
        } else {
          assert (head + rest)[5 * j .. 5 * j + 5] == rest[5 * (j - 1) .. 5 * (j - 1) + 5];
        }
      }
    }
  }

  /** What one member appends: nothing, or its four methods; both
      exceptions are raised before any line is written. */
  function MemberText(names: NameSet, m: EnumMember): Emission {
    match MemberExtension(m)
    case Err(f) => Emission([], Some(f))
    case Ok(None) => Lines([])
    case Ok(Some(e)) => Lines(MethodBlocks(names, e, ValueTypes))
  }

  /** The loop over the members of one enum. */
  function MemberLoop(names: NameSet, members: seq<EnumMember>): Emission {
    if members == [] then Lines([])
    else Then(MemberText(names, members[0]), MemberLoop(names, members[1..]))
  }

  /** The methods of a list of extensions. */
  function ExtensionsText(names: NameSet, exts: seq<Extension>): seq<string> {
    if exts == [] then [] else MethodBlocks(names, exts[0], ValueTypes) + ExtensionsText(names, exts[1..])
  }

  function Preamble(names: NameSet): seq<string> {
    Usings + [ClassHead + names.extensionsTypeName, "{"]
  }

  function Opening(fullName: string, names: NameSet, now: string): seq<string> {
    Banner(fullName, now) + Preamble(names)
  }

  const Closing: seq<string> := ["}", ""]

  /** Everything `GenerateExtensionsFor` appends before the trailer. */
  function ClassText(fullName: string, names: NameSet, members: seq<EnumMember>, now: string): Emission {
    var body := MemberLoop(names, members);
    if body.fault.Some? then Emission(Opening(fullName, names, now) + body.lines, body.fault)
    else Lines(Opening(fullName, names, now) + body.lines + Closing)
  }

  /** `Source\<assembly>.Extensions\<Dimension>Extensions.g.cs`. */
  function ExtensionsFileName(assemblyName: string, names: NameSet): string {
    SourceFolder + assemblyName + ExtensionsFolder + names.dimensionTypeName + ExtensionsSuffix
  }

  /** Each enum's file name and text, kept only when it has extensions. */
  function ExtensionParts(assemblyName: string, fullName: string, units: seq<UnitEnum>, clock: nat -> string): (r: seq<Part>)
    ensures |r| == |units|
  {
    seq(|units|, k requires 0 <= k < |units| =>
      Part(ExtensionsFileName(assemblyName, units[k].names),
           ClassText(fullName, units[k].names, units[k].members, clock(k)),
           HasExtensions(units[k].members)))
  }

  /** The loop over the enums, from buffer `start` under external path
      `path`. */
  function ExtensionRun(assemblyName: string, fullName: string, path: Option<string>, start: seq<string>,
                        units: seq<UnitEnum>, env: Environment): Run {
    DrainRun(path, start, ExtensionParts(assemblyName, fullName, units, env.clock), env.gauge, true)
  }

  // ---------------------------------------------------------------------
  // The text against the extension list
  // ---------------------------------------------------------------------

  /** The member loop writes exactly the methods of the extensions
      `Extensions` computes, in order; when `Extensions` fails, the loop
      is interrupted by the same exception. */
  lemma {:induction false} MemberLoopFollowsExtensions(names: NameSet, members: seq<EnumMember>)
    ensures Extensions(members).Ok? ==> MemberLoop(names, members) == Lines(ExtensionsText(names, Extensions(members).value))
    ensures Extensions(members).Err? ==> MemberLoop(names, members).fault == Some(Extensions(members).error)
  {
    if members != [] {
      MemberLoopFollowsExtensions(names, members[1..]);
      match MemberExtension(members[0])
      case Err(f) =>
      case Ok(head) =>
        if Extensions(members).Ok? {
          var rest := Extensions(members[1..]).value;
          if head.Some? {
            assert Extensions(members).value == [head.value] + rest;
            assert ([head.value] + rest)[1..] == rest;
          } else {
            assert Extensions(members).value == rest;
          }
        }
    }
  }

  /** Without exception the file is the opening, four methods per
      extension and the closing brace. */
  lemma ClassLayout(fullName: string, names: NameSet, members: seq<EnumMember>, now: string)
    requires Extensions(members).Ok?
    ensures var e := ClassText(fullName, names, members, now);
            e == Lines(Opening(fullName, names, now) + ExtensionsText(names, Extensions(members).value) + Closing)
  {
    MemberLoopFollowsExtensions(names, members);
  }

  /** The class text is interrupted exactly when `Extensions` fails. */
  lemma ClassFault(fullName: string, names: NameSet, members: seq<EnumMember>, now: string)
    ensures ClassText(fullName, names, members, now).fault ==
              if Extensions(members).Ok? then None else Some(Extensions(members).error)
  {
    MemberLoopFollowsExtensions(names, members);
  }

  /** Every extension contributes exactly twenty lines. */
  lemma {:induction false} ExtensionsTextLength(names: NameSet, exts: seq<Extension>)
    ensures |ExtensionsText(names, exts)| == 20 * |exts|
  {
    if exts != [] {
      MethodBlocksLayout(names, exts[0], ValueTypes);
      ExtensionsTextLength(names, exts[1..]);
    }
  }

  // ---------------------------------------------------------------------
  // The loop over the enums
  // ---------------------------------------------------------------------

  /** Every enum's part is kept exactly when it has extensions, and is
      interrupted exactly when its extensions fail. */
  lemma ExtensionPartsFaults(assemblyName: string, fullName: string, units: seq<UnitEnum>, clock: nat -> string)
    ensures var parts := ExtensionParts(assemblyName, fullName, units, clock);
            forall k :: 0 <= k < |units| ==>
              (parts[k].saved <==> HasExtensions(units[k].members)) &&
              parts[k].text.fault == if Extensions(units[k].members).Ok? then None else Some(Extensions(units[k].members).error)
  {
    forall k | 0 <= k < |units|
      ensures ClassText(fullName, units[k].names, units[k].members, clock(k)).fault ==
                if Extensions(units[k].members).Ok? then None else Some(Extensions(units[k].members).error)
    {
      ClassFault(fullName, units[k].names, units[k].members, clock(k));
    }
  }

  /** From an empty buffer and without exception, the run saves the files
      of exactly the enums that have extensions, in order, and leaves the
      buffer empty: an enum with no annotated member writes nothing. */
  lemma ExtensionRunFiles(assemblyName: string, fullName: string, path: Option<string>, units: seq<UnitEnum>, env: Environment)
    requires ExtensionRun(assemblyName, fullName, path, [], units, env).fault.None?
    ensures var r := ExtensionRun(assemblyName, fullName, path, [], units, env);
            var parts := ExtensionParts(assemblyName, fullName, units, env.clock);
            r.buffer == [] && r.files == Saved(path, parts, env.gauge, true) &&
            forall k :: 0 <= k < |units| ==>
              (parts[k].saved <==> HasExtensions(units[k].members)) &&
              parts[k].fileName == ExtensionsFileName(assemblyName, units[k].names) &&
              parts[k].text == ClassText(fullName, units[k].names, units[k].members, env.clock(k))
  {
    DrainRunFiles(path, ExtensionParts(assemblyName, fullName, units, env.clock), env.gauge, true);
  }

  /** An enum without extensions adds no file: the run over units where
      no member is annotated saves nothing. */
  lemma ExtensionRunWithoutAnnotations(assemblyName: string, fullName: string, path: Option<string>, units: seq<UnitEnum>, env: Environment)
    requires forall k :: 0 <= k < |units| ==> !HasExtensions(units[k].members)
    requires ExtensionRun(assemblyName, fullName, path, [], units, env).fault.None?
    ensures ExtensionRun(assemblyName, fullName, path, [], units, env).files == []
  {
    var parts := ExtensionParts(assemblyName, fullName, units, env.clock);
    DrainRunFiles(path, parts, env.gauge, true);
    SavedNone(path, parts, env.gauge, true);
  }

  /** The loop stops at the first enum whose extensions fail: the files of
      the enums before it that have extensions are kept, and the exception
      is that enum's; without such an enum it runs to the end. */
  lemma ExtensionRunFault(assemblyName: string, fullName: string, path: Option<string>, start: seq<string>,
                          units: seq<UnitEnum>, env: Environment)
    ensures var r := ExtensionRun(assemblyName, fullName, path, start, units, env);
            r.fault.None? <==> forall k :: 0 <= k < |units| ==> Extensions(units[k].members).Ok?
    ensures var r := ExtensionRun(assemblyName, fullName, path, start, units, env);
            var parts := ExtensionParts(assemblyName, fullName, units, env.clock);
            r.fault.Some? ==>
              exists k :: 0 <= k < |units| && |r.files| == SavedCount(parts[..k]) && Extensions(units[k].members).Err? &&
                          r.fault == Some(Extensions(units[k].members).error) &&
                          (forall j :: 0 <= j < k ==> Extensions(units[j].members).Ok?)
  {
    var parts := ExtensionParts(assemblyName, fullName, units, env.clock);
    var r := DrainRun(path, start, parts, env.gauge, true);
    ExtensionPartsFaults(assemblyName, fullName, units, env.clock);
    DrainRunFault(path, start, parts, env.gauge, true);
    var f := FirstFault(parts);
    if f < |parts| {
      assert Extensions(units[f].members).Err?;
    }
  }

  // ---------------------------------------------------------------------
  // The generator's methods
  // ---------------------------------------------------------------------

  /** One iteration of the member loop; `annotated` is what it sets
      `hasExtensions` to. */
  method AppendMember(g: BaseGenerator, names: NameSet, m: EnumMember) returns (fault: Option<Fault>, annotated: bool)
    modifies g`buffer
    ensures g.buffer == old(g.buffer) + MemberText(names, m).lines
    ensures fault == MemberText(names, m).fault
    ensures annotated == Annotated(m)
  {
    var attribute := MemberAttribute(m, ExtensionsNamespace);
    if attribute.Err? {
      return Some(attribute.error), false;
    }
    if attribute.value.None? {
      return None, false;
    }
    var a := attribute.value.value;
    annotated := true;
    if |a.arguments| == 0 {
      return Some(IndexOutOfRange), annotated;
    }
    if a.arguments[0].isNull {
      return Some(NullReference), annotated;
    }
    var e := Extension(a.arguments[0].text, m.symbol.value.name);
    AppendBlocks(g, names, e, ValueTypes);
    fault := None;
  }

  /** The methods of one extension, one value type at a time. */
  method AppendBlocks(g: BaseGenerator, names: NameSet, e: Extension, types: seq<string>)
    modifies g`buffer
    ensures g.buffer == old(g.buffer) + MethodBlocks(names, e, types)
  {
    var i := 0;
    while i < |types|
      invariant 0 <= i <= |types|
      invariant g.buffer + MethodBlocks(names, e, types[i..]) == old(g.buffer) + MethodBlocks(names, e, types)
    {
      assert types[i..][1..] == types[i + 1..];
      g.AppendLines(MethodBlock(names, e, types[i]));
      i := i + 1;
    }
  }

  /** The member loop of `GenerateExtensionsFor`, with its
      `hasExtensions` flag. */
  method AppendMembers(g: BaseGenerator, names: NameSet, members: seq<EnumMember>) returns (fault: Option<Fault>, hasExtensions: bool)
    modifies g`buffer
    ensures g.buffer == old(g.buffer) + MemberLoop(names, members).lines
    ensures fault == MemberLoop(names, members).fault
    ensures fault.None? ==> hasExtensions == HasExtensions(members)
  {
    hasExtensions := false;
    var i := 0;
    while i < |members|
      invariant 0 <= i <= |members|
      invariant MemberLoop(names, members[..i]).fault.None?
      invariant g.buffer == old(g.buffer) + MemberLoop(names, members[..i]).lines
      invariant hasExtensions == HasExtensions(members[..i])
    {
      ghost var done := MemberLoop(names, members[..i]);
      ghost var next := MemberText(names, members[i]);
      MemberLoopStep(names, members, i);
      var annotated;
      fault, annotated := AppendMember(g, names, members[i]);
      assert g.buffer == old(g.buffer) + (done.lines + next.lines);
      if fault.Some? {
        MemberLoopStop(names, members, i + 1);
        return;
      }
      HasExtensionsStep(members, i);
      hasExtensions := hasExtensions || annotated;
      i := i + 1;
    }
    assert members[..i] == members;
    fault := None;
  }

  lemma {:induction false} MemberLoopConcat(names: NameSet, xs: seq<EnumMember>, ys: seq<EnumMember>)
    ensures MemberLoop(names, xs + ys) == Then(MemberLoop(names, xs), MemberLoop(names, ys))
  {
    if xs == [] {
      assert [] + ys == ys;
    } else {
      assert (xs + ys)[1..] == xs[1..] + ys;
      MemberLoopConcat(names, xs[1..], ys);
      ThenAssociative(MemberText(names, xs[0]), MemberLoop(names, xs[1..]), MemberLoop(names, ys));
    }
  }

  /** One more iteration of the member loop. */
  lemma MemberLoopStep(names: NameSet, members: seq<EnumMember>, i: nat)
    requires i < |members|
    ensures MemberLoop(names, members[..i + 1]) == Then(MemberLoop(names, members[..i]), MemberText(names, members[i]))
  {
    assert members[..i + 1] == members[..i] + [members[i]];
    MemberLoopConcat(names, members[..i], [members[i]]);
    assert [members[i]][1..] == [];
    var e := MemberText(names, members[i]);
    assert e.lines + [] == e.lines;
  }

  /** Once a member throws, the later members add nothing. */
  lemma MemberLoopStop(names: NameSet, members: seq<EnumMember>, i: nat)
    requires i <= |members| && MemberLoop(names, members[..i]).fault.Some?
    ensures MemberLoop(names, members) == MemberLoop(names, members[..i])
  {
    assert members[..i] + members[i..] == members;
    MemberLoopConcat(names, members[..i], members[i..]);
  }

  method WriteOpening(g: BaseGenerator, names: NameSet, now: string)
    modifies g`buffer
    ensures g.buffer == old(g.buffer) + Opening(g.fullName, names, now)
  {
    g.WriteAutoGeneratedNotification(now);
    g.AppendLines(Preamble(names));
  }

  /** The text of `GenerateExtensionsFor` up to the trailer. */
  method WriteClassText(g: BaseGenerator, names: NameSet, members: seq<EnumMember>, now: string)
    returns (fault: Option<Fault>, hasExtensions: bool)
    modifies g`buffer
    ensures g.buffer == old(g.buffer) + ClassText(g.fullName, names, members, now).lines
    ensures fault == ClassText(g.fullName, names, members, now).fault
    ensures fault.None? ==> hasExtensions == HasExtensions(members)
  {
    WriteOpening(g, names, now);
    fault, hasExtensions := AppendMembers(g, names, members);
    if fault.Some? {
      return;
    }
    g.AppendLines(Closing);
  }

  /** One enum's extension class: banner, class opening, the methods,
      closing brace and trailer; saved to disk under the external path when
      the enum has extensions, discarded otherwise. An exception returns at
      once and leaves the partial text in the buffer. */
  method GenerateExtensionsFor(g: BaseGenerator, ctx: Context, names: NameSet, members: seq<EnumMember>, now: string, gauge: Gauge)
    returns (fault: Option<Fault>)
    modifies g`buffer, ctx`written
    ensures var e := ClassText(g.fullName, names, members, now);
            var text := old(g.buffer) + e.lines;
            var file := GeneratedFile(Destination(g.externalGenerationPath, ExtensionsFileName(ctx.compilation.assemblyName, names)),
                                      text + Trailer(gauge, text));
            fault == e.fault &&
            (e.fault.Some? ==> g.buffer == text && ctx.written == old(ctx.written)) &&
            (e.fault.None? ==> g.buffer == [] &&
                               ctx.written == old(ctx.written) + (if HasExtensions(members) then [file] else []))
  {
    var filename := ExtensionsFileName(ctx.compilation.assemblyName, names);
    var hasExtensions;
    fault, hasExtensions := WriteClassText(g, names, members, now);
    if fault.Some? {
      return;
    }
    AppendTrailer(g, gauge);
    if hasExtensions {
      var file := g.BufferToGeneratedFile(filename);
      ctx.WriteFile(file);
    } else {
      g.Clear();
    }
  }

  /** `ExecuteInternal`: nothing but the diagnostic when the external path
      is not usable; otherwise one loop over the unit enums, saving the
      files of those with extensions, until an exception ends the loop. */
  method ExecuteInternal(g: BaseGenerator, ctx: Context, env: Environment) returns (fault: Option<Fault>)
    modifies g`buffer, g`externalGenerationPath, ctx`diagnostics, ctx`written
    ensures g.externalGenerationPath == CheckExternalPath(env).path
    ensures ctx.diagnostics == old(ctx.diagnostics) + CheckExternalPath(env).diagnostics
    ensures !CheckExternalPath(env).ok ==> fault.None? && g.buffer == old(g.buffer) && ctx.written == old(ctx.written)
    ensures CheckExternalPath(env).ok ==>
              var r := ExtensionRun(ctx.compilation.assemblyName, g.fullName, g.externalGenerationPath, old(g.buffer),
                                    ctx.compilation.units, env);
              ctx.written == old(ctx.written) + r.files && g.buffer == r.buffer && fault == r.fault
  {
    var ok := g.SetExternalGenerationPath(env, ctx);
    if !ok {
      return None;
    }
    fault := GenerateAll(g, ctx, env);
  }

  /** The loop of `ExecuteInternal` over the unit enums, once the external
      path is set. */
  method GenerateAll(g: BaseGenerator, ctx: Context, env: Environment) returns (fault: Option<Fault>)
    modifies g`buffer, ctx`written
    ensures var r := ExtensionRun(ctx.compilation.assemblyName, g.fullName, g.externalGenerationPath, old(g.buffer),
                                  ctx.compilation.units, env);
            ctx.written == old(ctx.written) + r.files && g.buffer == r.buffer && fault == r.fault
  {
    var units := ctx.compilation.units;
    var assemblyName := ctx.compilation.assemblyName;
    ghost var parts := ExtensionParts(assemblyName, g.fullName, units, env.clock);
    ghost var path := g.externalGenerationPath;
    var i := 0;
    while i < |units|
      invariant 0 <= i <= |units| && path == g.externalGenerationPath
      invariant var r := DrainRun(path, old(g.buffer), parts[..i], env.gauge, true);
                r.fault.None? && ctx.written == old(ctx.written) + r.files && g.buffer == r.buffer
    {
      DrainRunPrefix(path, old(g.buffer), parts, env.gauge, true, i);
      assert parts[i] == Part(ExtensionsFileName(assemblyName, units[i].names),
                              ClassText(g.fullName, units[i].names, units[i].members, env.clock(i)),
                              HasExtensions(units[i].members));
      fault := GenerateExtensionsFor(g, ctx, units[i].names, units[i].members, env.clock(i), env.gauge);
      if fault.Some? {
        DrainRunStop(path, old(g.buffer), parts, env.gauge, true, i + 1);
        return;
      }
      i := i + 1;
    }
    assert parts[..i] == parts;
    fault := None;
  }
}
