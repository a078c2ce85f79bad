# GraduatedCylinder source generators, modelled in Dafny

GraduatedCylinder is a C# library of physical dimensions (length, mass,
power and so on), each a value in a unit enum. Much of its code is
written at compile time by four Roslyn source generators. All four share
`BaseGenerator`: a reusable text buffer, an optional external output
directory, a generated-by banner, and an `Execute` gate. The gate runs a
generator only for the assemblies it names and turns any exception into
one error diagnostic.

- `UnitConverterGenerator` (IoT library) writes a converter class per unit
  enum, with a `FromBase` and a `ToBase` switch. Each member that carries a
  `GraduatedCylinder.Scales` attribute gets one `case`.
- `ExtensionApiGenerator` (full library) writes four extension methods
  (`int`, `long`, `float`, `double`) for each member that carries a
  `GraduatedCylinder.Extensions` attribute. It saves a file only for enums
  that have such a member.
- `ParsingGenerator` (full library) writes two `Parse` overloads per
  dimension struct, one file per struct.
- `ParsingGenerator` (IoT library) writes a single `Parser` class with one
  `Parse<Dimension>` method per struct, to a fixed path on disk.

The model has two layers.

1. **The generators, as text emitters over a shared buffer.**
   - `Generators.BaseGenerator` is a class whose `buffer` (a sequence of
     lines) and `externalGenerationPath` its methods update in place.
   - `Generators.Context` stands for the host. It records the sources
     added to the compilation, the diagnostics reported, and the files
     written to disk.
   - Each generator's loops are methods with loop invariants. They are
     proved against specification functions:
     - `SwitchText`, `ConverterText`, `ClassText`, `ParserText` give the
       text one declaration contributes, stopped at the first exception.
     - `DrainRun` gives a whole generator loop: the files produced, the
       buffer left over, and the exception that ended the loop.
   - Roslyn's syntax and semantic model become plain values (module
     `Declarations`): enum members with a numeric value and an optional
     symbol that lists its attributes by namespace, class name and
     constructor arguments.
   - The exceptions the generators can raise are modelled as values:
     - `SingleOrDefault` finding two attributes of one namespace;
     - `ConstructorArguments[i]` past the end;
     - `ToString()` on a `null` Extensions argument;
     - `File.WriteAllText` failing on the IoT parser's fixed path.
2. **What the generated code does.**
   - `ConverterSemantics` interprets the two generated switches over the
     conversion formulas of module `Conversions`, computed over reals.
   - `Regexs` gives the `Pair` and `ValueOnly` patterns twice, as scanning
     recognisers and as declarative languages, and proves that the two
     agree.
   - `ParseSemantics` gives the control flow of the generated `Parse`
     methods over those recognisers.
   - `UnitPreferences` models the culture rule that picks a preset unit
     bundle.

The clock, the environment variable, `Directory.Exists`, whether a file
write succeeds, `float.TryParse` and the (partial) unit abbreviation
lookup are parameters (`Environment`, `Host`).

## Model

| member | source | states |
|---|---|---|
| Generators.CheckExternalPath | Source/GraduatedCylinder.Roslyn/BaseGenerator.cs:77-105 | The check succeeds exactly when the variable is set and names an existing directory, and exactly when it reports nothing. A missing variable leaves no path and reports GC-ENV-01. An invalid one keeps the bad value and reports GC-ENV-02. On success the path is the variable plus at most one character, and ends with `\`. |
| Generators.NormalisationIdempotent | Source/GraduatedCylinder.Roslyn/BaseGenerator.cs:101-104 | Appending the separator only when it is absent is idempotent, and leaves a path that already ends with `\` unchanged. |
| Generators.BannerDependsOnClock | Source/GraduatedCylinder.Roslyn/BaseGenerator.cs:108 | Two banners written at different clock readings differ, so repeated runs are not identical. |
| Generators.DrainRunFiles | Source/GraduatedCylinder.Roslyn/BaseGenerator.cs:56-65 | A generator loop that starts from an empty buffer and is not interrupted yields exactly the files of the kept declarations, in order, each holding only its own text, and leaves the buffer empty. |
| Generators.SavedLength | Source/GraduatedCylinder.Roslyn/Full/ExtensionApiGenerator.cs:90-94 | A loop gives one file per kept declaration, and never more files than declarations. |
| Generators.SavedAll | Source/GraduatedCylinder.Roslyn/BaseGenerator.cs:56-65 | When every declaration is kept, file k belongs to declaration k. |
| Generators.SavedNone | Source/GraduatedCylinder.Roslyn/Full/ExtensionApiGenerator.cs:90-94 | Declarations that are all discarded give no file. |
| Generators.SavedCountAll | Source/GraduatedCylinder.Roslyn/BaseGenerator.cs:56-65 | When every declaration is kept, each prefix of k declarations gives k files. |
| Generators.FirstFault | Source/GraduatedCylinder.Roslyn/BaseGenerator.cs:30-42 | The index of the first interrupted declaration: every earlier one is clean and this one is interrupted. When there is none, the index is the number of declarations. |
| Generators.DrainRunFault | Source/GraduatedCylinder.Roslyn/BaseGenerator.cs:30-42 | A loop ends at the first interrupted declaration. It keeps the files of the kept declarations before it, and its exception is that declaration's. Without one the loop finishes with no exception. |
| Generators.DrainRunStop | Source/GraduatedCylinder.Roslyn/BaseGenerator.cs:30-42 | Once a declaration throws, the later declarations change nothing. |
| Generators.DrainRunGrows | Source/GraduatedCylinder.Roslyn/BaseGenerator.cs:56-65 | The files of a shorter loop are a prefix of the files of the whole loop. |
| Generators.DrainRunFaultBuffer | Source/GraduatedCylinder.Roslyn/BaseGenerator.cs:38-42 | An interrupted loop leaves at least the interrupted declaration's partial text in the buffer. |
| Generators.DrainRunPrefix | Source/GraduatedCylinder.Roslyn/BaseGenerator.cs:56-65 | One more declaration either keeps an earlier exception, or appends its text and then stops, discards or drains. |
| Generators.AppendTrailer | Source/GraduatedCylinder.Roslyn/IoT/UnitConverterGenerator.cs:157-158 | Appends the capacity comment and then the length comment. Each reads the buffer as it stands at that moment. |
| Generators.Context.AddSource | Source/GraduatedCylinder.Roslyn/Full/ParsingGenerator.cs:63 | Adding a source appends exactly that file to the compilation's sources. |
| Generators.Context.ReportDiagnostic | Source/GraduatedCylinder.Roslyn/BaseGenerator.cs:42 | Reporting appends exactly that diagnostic. |
| Generators.Context.WriteFile | Source/GraduatedCylinder.Roslyn/IoT/ParsingGenerator.cs:62 | Writing to disk appends exactly that file to the files written. |
| Generators.BaseGenerator.constructor | Source/GraduatedCylinder.Roslyn/BaseGenerator.cs:9-20 | A new generator names the assemblies of its kind, has no external path, and has an empty buffer. |
| Generators.BaseGenerator.AppendLine | Source/GraduatedCylinder.Roslyn/BaseGenerator.cs:108-110 | Appends exactly one line and changes nothing else. |
| Generators.BaseGenerator.Clear | Source/GraduatedCylinder.Roslyn/BaseGenerator.cs:62 | The buffer is empty afterwards. |
| Generators.BaseGenerator.BufferToGeneratedFile | Source/GraduatedCylinder.Roslyn/BaseGenerator.cs:56-65 | The file's content is the buffer's old text. Its name is prefixed with the external path exactly when one is set. The buffer is left empty. |
| Generators.BaseGenerator.WriteAutoGeneratedNotification | Source/GraduatedCylinder.Roslyn/BaseGenerator.cs:107-111 | Appends exactly three lines: the generated-by line with the type's full name and the clock reading, the do-not-modify line, and a blank line. |
| Generators.BaseGenerator.SetExternalGenerationPath | Source/GraduatedCylinder.Roslyn/BaseGenerator.cs:77-105 | The result, the new property value and the diagnostics reported are those of `CheckExternalPath` on the environment. |
| Declarations.InNamespace | Source/GraduatedCylinder.Roslyn/IoT/UnitConverterGenerator.cs:44-47 | Keeps exactly the attributes whose class lives in the namespace. |
| Declarations.SingleOrDefault | Source/GraduatedCylinder.Roslyn/IoT/UnitConverterGenerator.cs:44-47 | Throws exactly when more than one attribute of the namespace is present. Gives none exactly when there is none. Otherwise gives an attribute of that namespace from the list. |
| Conversions.ToBaseThenFromBase | Tests/GraduatedCylinder.Tests/Conversions/PowerConversionsFixture.cs:22-24 | For Scale, ScaleAndOffset and ScaleInversely with non-zero factors (and a non-zero value for ScaleInversely), converting to the base unit and back gives the value back. |
| Conversions.FromBaseThenToBase | Tests/GraduatedCylinder.Tests/Conversions/PowerConversionsFixture.cs:22-24 | Under the same conditions, converting from the base unit and back gives the base value back. |
| Conversions.ScaleRoundTrips | Source/GraduatedCylinder.Roslyn/IoT/UnitConverterGenerator.cs:55-57 | `[Scale(s)]` converts to the base unit as `v*s` and from it as `b/s`, and these invert each other when `s≠0`. |
| Conversions.OffsetRoundTrips | Source/GraduatedCylinder.Roslyn/IoT/UnitConverterGenerator.cs:61-63 | `[ScaleAndOffset(s, off)]` converts to the base unit as `(v-off)/s` and from it as `b*s+off`, and these invert each other when `s≠0`. |
| Conversions.InverseToBaseThenFromBase | Source/GraduatedCylinder.Roslyn/IoT/UnitConverterGenerator.cs:121 | `[ScaleInversely(n, s)]` converts to the base unit as `(n/v)*s`, the formula of the comment at line 121 (the line emitted at 123 does not compile), and `n/(b/s)` brings it back, for non-zero `n`, `s` and `v`. |
| Conversions.InverseFromBaseThenToBase | Source/GraduatedCylinder.Roslyn/IoT/UnitConverterGenerator.cs:67-69 | `[ScaleInversely(n, s)]` converts from the base unit as `n/(b/s)`, and the intended `ToBase` formula `(n/v)*s` brings it back, for non-zero `n`, `s` and `b`. |
| Conversions.PercentGradeRoundTrip | Source/GraduatedCylinder.Roslyn/IoT/UnitConverterGenerator.cs:127-128 | `[PercentGrade]` converts with `atan(v/100)` and `tan(b)*100`, which give `v` back wherever `tan` undoes `atan`. |
| ConverterSemantics.MemberCaseSpec | Source/GraduatedCylinder.Roslyn/IoT/UnitConverterGenerator.cs:39-52 | A member gets a case exactly when it carries one Scales attribute with enough constructor arguments, labelled with the member's name and value. It gets none exactly when it has no Scales attribute. It throws exactly on two Scales attributes or a missing argument. |
| ConverterSemantics.Cases | Source/GraduatedCylinder.Roslyn/IoT/UnitConverterGenerator.cs:38-78 | The case list has at most one case per member, and every case has the arguments its formula reads. |
| ConverterSemantics.CaseFrom | Source/GraduatedCylinder.Roslyn/IoT/UnitConverterGenerator.cs:36 | The switch jumps to the first case whose label has the unit's value. When no label has it, the switch goes to `default`. |
| ConverterSemantics.CasesFollowDeclarations | Source/GraduatedCylinder.Roslyn/IoT/UnitConverterGenerator.cs:38-52 | Exactly the members carrying a Scales attribute get a case, in declaration order, each with its own name, value and attribute. |
| ConverterSemantics.CaseFromAnnotatedMember | Source/GraduatedCylinder.Roslyn/IoT/UnitConverterGenerator.cs:44-52 | Every case comes from a member of the enum that carries that Scales attribute. |
| ConverterSemantics.AnnotatedMemberHasCase | Source/GraduatedCylinder.Roslyn/IoT/UnitConverterGenerator.cs:44-52 | Every member carrying a Scales attribute has its case. |
| ConverterSemantics.UnannotatedUnitUnsupported | Source/GraduatedCylinder.Roslyn/IoT/UnitConverterGenerator.cs:80-81 | A unit that no annotated member has reaches `default` in both switches and fails with "Unsupported conversion." instead of returning a value. |
| ConverterSemantics.CasesFaultIffMemberFaults | Source/GraduatedCylinder.Roslyn/IoT/UnitConverterGenerator.cs:44-47 | Computing the cases throws exactly when some member throws. |
| ConverterSemantics.TwoScalesAttributesFault | Source/GraduatedCylinder.Roslyn/IoT/UnitConverterGenerator.cs:44-47 | A member with two or more Scales attributes makes generation throw. The generator does not pick the first one. |
| ConverterSemantics.SwitchRoundTrip | Source/GraduatedCylinder.Roslyn/IoT/UnitConverterGenerator.cs:108-129 | For a member whose formula is invertible at `v`, the generated `FromBase` undoes the generated `ToBase`, and the other way round, provided the enum's values are distinct. A `ScaleInversely` member is taken with its intended `ToBase` formula. |
| ConverterSemantics.UnknownScalesClass | Source/GraduatedCylinder.Roslyn/IoT/UnitConverterGenerator.cs:53-77 | A Scales attribute of a class the generator does not know gives a unit for which `FromBase` returns 0. `ToBase` treats that unit as the next case's unit, or throws when it is the last case. |
| ConverterSemantics.KiloExample | Source/GraduatedCylinder.Roslyn/IoT/UnitConverterGenerator.cs:54-58 | A worked enum (Base with scale 1, Kilo with scale 1000): 2 kilo is 2000 in the base unit and back, and an unknown unit fails. |
| UnitConverterGeneration.SwitchFollowsCases | Source/GraduatedCylinder.Roslyn/IoT/UnitConverterGenerator.cs:38-78 | Each switch holds exactly the sections of the computed case list, in order. When computing the cases throws, the switch is interrupted by the same exception. |
| UnitConverterGeneration.SwitchTextLayout | Source/GraduatedCylinder.Roslyn/IoT/UnitConverterGenerator.cs:31-85 | A switch is its header, its member sections and, unless a member threw, the `default` that throws and the method's end. |
| UnitConverterGeneration.ConverterLayout | Source/GraduatedCylinder.Roslyn/IoT/UnitConverterGenerator.cs:143-156 | Without an exception the converter text is the banner, the class opening, `FromBase`, then `ToBase` (each with one section per case), and the class closing. |
| UnitConverterGeneration.ConverterLayoutFault | Source/GraduatedCylinder.Roslyn/IoT/UnitConverterGenerator.cs:152-153 | When computing the cases throws, the text stops inside `FromBase` with that exception, and nothing of `ToBase` is written. |
| UnitConverterGeneration.ConverterRunFiles | Source/GraduatedCylinder.Roslyn/IoT/UnitConverterGenerator.cs:139-161 | From an empty buffer without exception, every enum gives one file, in order. The file is named `<Converter>.g.cs` under the external path and holds exactly that enum's converter text and trailer. The buffer ends empty. |
| UnitConverterGeneration.ConverterRunFault | Source/GraduatedCylinder.Roslyn/IoT/UnitConverterGenerator.cs:20-24 | The loop ends with an exception exactly when some enum's cases fail. It then keeps the files of the enums before the first such enum, and the exception is that enum's. Otherwise there is one file per enum. |
| UnitConverterGeneration.ConverterPartsFaults | Source/GraduatedCylinder.Roslyn/IoT/UnitConverterGenerator.cs:139-161 | Every enum's text is kept, and is interrupted exactly when its cases fail. |
| UnitConverterGeneration.ConverterOpens | Source/GraduatedCylinder.Roslyn/IoT/UnitConverterGenerator.cs:143-150 | Whatever follows, the converter text opens with the nine lines of banner and class opening. |
| UnitConverterGeneration.ConverterFault | Source/GraduatedCylinder.Roslyn/IoT/UnitConverterGenerator.cs:139-161 | The converter text is interrupted exactly when computing the cases throws, and by the same exception. |
| UnitConverterGeneration.AppendMember | Source/GraduatedCylinder.Roslyn/IoT/UnitConverterGenerator.cs:38-78 | One iteration appends the member's section: its label, its formula and, in `FromBase`, `break`. After a missing argument only the label is appended. After `SingleOrDefault` throws, nothing is. |
| UnitConverterGeneration.AppendCases | Source/GraduatedCylinder.Roslyn/IoT/UnitConverterGenerator.cs:38-78 | The member loop appends the sections of all members, and stops at the first exception. |
| UnitConverterGeneration.AppendCasesStep | Source/GraduatedCylinder.Roslyn/IoT/UnitConverterGenerator.cs:92-130 | One iteration extends the text of the members before it by the next member's section. |
| UnitConverterGeneration.GenerateFromBase | Source/GraduatedCylinder.Roslyn/IoT/UnitConverterGenerator.cs:31-85 | Appends the `FromBase` method and reports its exception. |
| UnitConverterGeneration.GenerateToBase | Source/GraduatedCylinder.Roslyn/IoT/UnitConverterGenerator.cs:87-137 | Appends the `ToBase` method and reports its exception. |
| UnitConverterGeneration.GenerateSwitch | Source/GraduatedCylinder.Roslyn/IoT/UnitConverterGenerator.cs:87-137 | Appends the header, the member loop and, unless a member threw, the footer. |
| UnitConverterGeneration.WriteOpening | Source/GraduatedCylinder.Roslyn/IoT/UnitConverterGenerator.cs:143-150 | Appends the banner, the usings and the class opening. |
| UnitConverterGeneration.WriteConverterText | Source/GraduatedCylinder.Roslyn/IoT/UnitConverterGenerator.cs:143-156 | Appends the converter text up to the trailer. An exception in `FromBase` skips `ToBase`. |
| UnitConverterGeneration.GenerateConverterFor | Source/GraduatedCylinder.Roslyn/IoT/UnitConverterGenerator.cs:139-161 | Without an exception, returns the file `<Converter>.g.cs` holding the buffer's earlier text, the converter text and the trailer, and leaves the buffer empty. With one, returns the exception and leaves the partial text in the buffer. |
| UnitConverterGeneration.ExecuteInternal | Source/GraduatedCylinder.Roslyn/IoT/UnitConverterGenerator.cs:14-25 | Adds the files of the converter loop to the compilation, leaves the buffer the loop leaves, and returns the loop's exception. |
| UnitConverterGeneration.ScaleInverselyToBaseUnbalanced | Source/GraduatedCylinder.Roslyn/IoT/UnitConverterGenerator.cs:123 | As written, the `ToBase` line for `ScaleInverselyAttribute` closes one parenthesis more than it opens. |
| UnitConverterGeneration.ScaleInverselyToBaseCorrected | Source/GraduatedCylinder.Roslyn/IoT/UnitConverterGenerator.cs:121 | The line written as its comment reads, `(n / value) * s`, is balanced. |
| Parentheses.ScaleInverselyLineDepths | Source/GraduatedCylinder.Roslyn/IoT/UnitConverterGenerator.cs:123 | For any indentation and arguments without parentheses, the written line has parenthesis depth -1, and the line without its last `)` has depth 0. |
| ExtensionApiGeneration.HasExtensionsSome | Source/GraduatedCylinder.Roslyn/Full/ExtensionApiGenerator.cs:39-58 | `hasExtensions` ends true exactly when some member carries an Extensions attribute. |
| ExtensionApiGeneration.HasExtensionsStep | Source/GraduatedCylinder.Roslyn/Full/ExtensionApiGenerator.cs:58 | One iteration sets the flag exactly when its member is annotated, and never clears it. |
| ExtensionApiGeneration.HasExtensionsConcat | Source/GraduatedCylinder.Roslyn/Full/ExtensionApiGenerator.cs:39-58 | The flag over two runs of members is the disjunction of the flags of each run. |
| ExtensionApiGeneration.MemberExtensionSpec | Source/GraduatedCylinder.Roslyn/Full/ExtensionApiGenerator.cs:52-59 | A member has an extension exactly when it carries an Extensions attribute with a first argument. The extension is named by that argument and builds the member's unit. The member throws exactly on a duplicate attribute (`InvalidOperationException`), a missing argument (`IndexOutOfRangeException`) or a `null` first argument (`NullReferenceException` from `Value!.ToString()`). |
| ExtensionApiGeneration.ExtensionsNonEmpty | Source/GraduatedCylinder.Roslyn/Full/ExtensionApiGenerator.cs:51-58 | Without an exception, an enum has extensions exactly when some member is annotated, and has at most one per member. |
| ExtensionApiGeneration.MethodBlocksLayout | Source/GraduatedCylinder.Roslyn/Full/ExtensionApiGenerator.cs:61-80 | Each value type gets its own five-line method, in the order `int`, `long`, `float`, `double`. |
| ExtensionApiGeneration.MemberLoopFollowsExtensions | Source/GraduatedCylinder.Roslyn/Full/ExtensionApiGenerator.cs:51-82 | The member loop writes exactly the methods of the computed extensions, in order. Members without the attribute add no text. When a member throws, the loop ends with its exception. |
| ExtensionApiGeneration.ClassLayout | Source/GraduatedCylinder.Roslyn/Full/ExtensionApiGenerator.cs:40-84 | Without an exception the class text is the banner, the opening, the methods of every extension, and the closing brace. |
| ExtensionApiGeneration.ClassFault | Source/GraduatedCylinder.Roslyn/Full/ExtensionApiGenerator.cs:51-59 | The class text is interrupted exactly when computing the extensions throws, and by the same exception. |
| ExtensionApiGeneration.ExtensionsTextLength | Source/GraduatedCylinder.Roslyn/Full/ExtensionApiGenerator.cs:61-80 | Every extension contributes exactly twenty lines. |
| ExtensionApiGeneration.ExtensionPartsFaults | Source/GraduatedCylinder.Roslyn/Full/ExtensionApiGenerator.cs:90-94 | An enum's file is kept exactly when the enum has extensions. Its text is interrupted exactly when its extensions fail. |
| ExtensionApiGeneration.ExtensionRunFiles | Source/GraduatedCylinder.Roslyn/Full/ExtensionApiGenerator.cs:33-95 | From an empty buffer without exception, the run saves exactly the files of the enums with extensions, in order, named `Source\<Assembly>.Extensions\<Dimension>Extensions.g.cs`. The buffer ends empty whether or not a file was saved. |
| ExtensionApiGeneration.ExtensionRunWithoutAnnotations | Source/GraduatedCylinder.Roslyn/Full/ExtensionApiGenerator.cs:90-94 | Enums without annotated members save no file. |
| ExtensionApiGeneration.ExtensionRunFault | Source/GraduatedCylinder.Roslyn/Full/ExtensionApiGenerator.cs:23-26 | The loop ends with an exception exactly when some enum's extensions fail. It keeps the saved files of the enums before the first such enum, and the exception is that enum's. |
| ExtensionApiGeneration.AppendMember | Source/GraduatedCylinder.Roslyn/Full/ExtensionApiGenerator.cs:51-82 | One iteration appends the member's four methods, or nothing. It reports the member's exception and whether the member is annotated. |
| ExtensionApiGeneration.AppendBlocks | Source/GraduatedCylinder.Roslyn/Full/ExtensionApiGenerator.cs:61-80 | Appends one method per value type, in order. |
| ExtensionApiGeneration.AppendMembers | Source/GraduatedCylinder.Roslyn/Full/ExtensionApiGenerator.cs:51-82 | The member loop appends the methods of all members, stops at the first exception, and, when there is none, ends with `hasExtensions` telling whether any member is annotated. |
| ExtensionApiGeneration.WriteOpening | Source/GraduatedCylinder.Roslyn/Full/ExtensionApiGenerator.cs:40-49 | Appends the banner, the usings and the class opening. |
| ExtensionApiGeneration.WriteClassText | Source/GraduatedCylinder.Roslyn/Full/ExtensionApiGenerator.cs:40-85 | Appends the class text up to the trailer and reports the exception and the `hasExtensions` flag. |
| ExtensionApiGeneration.GenerateExtensionsFor | Source/GraduatedCylinder.Roslyn/Full/ExtensionApiGenerator.cs:33-95 | Without an exception, saves the buffer's text, the class text and the trailer exactly when the enum has extensions, and leaves the buffer empty either way. With an exception, saves nothing and leaves the partial text in the buffer. |
| ExtensionApiGeneration.ExecuteInternal | Source/GraduatedCylinder.Roslyn/Full/ExtensionApiGenerator.cs:13-27 | Sets and reports the external path. When the path is unusable, processes no enum. Otherwise it writes the files of the extension loop and returns the loop's exception. |
| ExtensionApiGeneration.GenerateAll | Source/GraduatedCylinder.Roslyn/Full/ExtensionApiGenerator.cs:23-26 | The loop over the unit enums writes the run's files and leaves its buffer and exception. |
| FullParsingGeneration.ParserPartsWhole | Source/GraduatedCylinder.Roslyn/Full/ParsingGenerator.cs:19-64 | Every struct's text is complete and kept. |
| FullParsingGeneration.ParserRunFiles | Source/GraduatedCylinder.Roslyn/Full/ParsingGenerator.cs:19-64 | The generator never throws. It adds one file per struct, and after at least one struct the buffer is empty, whatever it held before. |
| FullParsingGeneration.ParserRunFromEmpty | Source/GraduatedCylinder.Roslyn/Full/ParsingGenerator.cs:62-63 | From an empty buffer, file k is `<Dimension>.Parse.g.cs` under the external path and holds exactly struct k's text: banner, struct opening, the `Pair` overload, the `ValueOnly` overload and the closing brace. |
| FullParsingGeneration.WriteParserText | Source/GraduatedCylinder.Roslyn/Full/ParsingGenerator.cs:23-60 | Appends one struct's parser text. |
| FullParsingGeneration.ExecuteInternal | Source/GraduatedCylinder.Roslyn/Full/ParsingGenerator.cs:13-65 | Adds the files of the parser loop to the compilation and leaves the loop's buffer. |
| IoTParsingGeneration.ParseMethod | Source/GraduatedCylinder.Roslyn/IoT/ParsingGenerator.cs:37-54 | Each struct's method has eighteen lines. |
| IoTParsingGeneration.MethodsLayout | Source/GraduatedCylinder.Roslyn/IoT/ParsingGenerator.cs:33-55 | Struct k gets its own method at lines 18k to 18k+17 of the method block, in receiver order. |
| IoTParsingGeneration.ParserTextLayout | Source/GraduatedCylinder.Roslyn/IoT/ParsingGenerator.cs:24-58 | The single file is the eight header lines, one method per struct and the two closing lines, with no banner and no trailer. Struct k's method starts at line 8 + 18k. |
| IoTParsingGeneration.AppendMethods | Source/GraduatedCylinder.Roslyn/IoT/ParsingGenerator.cs:33-55 | The struct loop appends every struct's method, in order. |
| IoTParsingGeneration.MethodsStep | Source/GraduatedCylinder.Roslyn/IoT/ParsingGenerator.cs:33-55 | One more struct appends exactly its method. |
| IoTParsingGeneration.ExecuteInternal | Source/GraduatedCylinder.Roslyn/IoT/ParsingGenerator.cs:15-63 | Builds one file at the fixed path, holding the buffer's earlier text and the parser class, and leaves the buffer empty. When the write succeeds, that file is written to disk. When it fails, nothing is written and the exception names the file. Nothing is added to the compilation. |
| ParseSemantics.ParseWithUnits | Source/GraduatedCylinder.Roslyn/Full/ParsingGenerator.cs:34-45 | The generated `Parse(string)` fails only in two ways: with "Error parsing: <input>", or in the abbreviation lookup on the matched units when the lookup does not know them. On success the number is the value group read, and the units are what the lookup gives for the units group. |
| ParseSemantics.ParseValue | Source/GraduatedCylinder.Roslyn/Full/ParsingGenerator.cs:47-57 | The generated `Parse(string, units)` fails only with "Error parsing: <input>", and when it succeeds the units are exactly the ones given. |
| ParseSemantics.ParseIoT | Source/GraduatedCylinder.Roslyn/IoT/ParsingGenerator.cs:39-53 | The generated IoT `Parse<Dimension>` fails only with "Error parsing: <value>" or in the lookup of the matched units. When `Pair` does not match, a result carries the default units. |
| ParseSemantics.ParseWithUnitsAccepts | Source/GraduatedCylinder.Roslyn/Full/ParsingGenerator.cs:34-45 | With a number reader that accepts what the patterns accept, `Parse(string)` succeeds exactly on the `Pair` language when the lookup knows the units. It fails in the lookup exactly on `Pair` inputs with unknown units. The units come from a word that ends the input; there is no fallback to a default unit. |
| ParseSemantics.ParseValueAccepts | Source/GraduatedCylinder.Roslyn/Full/ParsingGenerator.cs:47-57 | `Parse(string, units)` succeeds exactly on the `ValueOnly` language, and gives the number read in the given units. |
| ParseSemantics.ParseIoTAccepts | Source/GraduatedCylinder.Roslyn/IoT/ParsingGenerator.cs:39-53 | The IoT parser succeeds exactly on `Pair` inputs whose units the lookup knows, and on the other `ValueOnly` inputs. A `Pair` input behaves as `Parse(valueWithUnits)`. Any other input behaves as `Parse(value, defaultUnits)`. |
| ParseSemantics.IoTParseBareInteger | Source/GraduatedCylinder.Roslyn/IoT/ParsingGenerator.cs:39-51 | As written, the bare number "12" matches `ValueOnly`, yet the IoT parser never gives it the default units: the result does not depend on them. It is 1 in the unit abbreviated "2", or the lookup's failure on "2". |
| ParseSemantics.ParseIoTCorrected | Source/GraduatedCylinder.Roslyn/IoT/ParsingGenerator.cs:39-53 | The corrected IoT parser fails only with "Error parsing: <value>" or in the lookup of the matched units. A `ValueOnly` input that succeeds carries the default units. |
| ParseSemantics.IoTParseCorrectedDefaultsUnits | Source/GraduatedCylinder.Roslyn/IoT/ParsingGenerator.cs:47-51 | The corrected parser gives every `ValueOnly` number the default units, and agrees with the written one on every other input. It accepts every input the written one accepts. The only inputs it accepts in addition are bare numbers on which the written one fails in the lookup. |
| ParseSemantics.IoTParseCorrectedSamples | Source/GraduatedCylinder.Roslyn/IoT/ParsingGenerator.cs:39-51 | Under the correction, "12 s" is 12 in the unit "s", or the lookup's failure when "s" is unknown. "12" is 12 in the default units. |
| Regexs.LongestSplit | Source/GraduatedCylinder/Text/Regexs.cs:12 | Finds the largest cut, up to a bound, where the text splits into a number and a white-space-then-word tail. There is no such cut above it, and none at all when it finds nothing. |
| Regexs.InNumberSound | Source/GraduatedCylinder/Text/Regexs.cs:17 | Every text the number recogniser accepts is in the `ValueOnly` language. |
| Regexs.InNumberComplete | Source/GraduatedCylinder/Text/Regexs.cs:17 | The recogniser accepts every text of the `ValueOnly` language. |
| Regexs.InNumberIsLanguage | Source/GraduatedCylinder/Text/Regexs.cs:17 | The recogniser decides the `ValueOnly` language: an optional sign, digits, an optional fraction, an optional exponent, and nothing else. |
| Regexs.UnitTailIsLanguage | Source/GraduatedCylinder/Text/Regexs.cs:12 | The tail recogniser accepts exactly optional white space followed by a word running to the end. The white space is always the longest run. |
| Regexs.IsSplitAtIsLanguage | Source/GraduatedCylinder/Text/Regexs.cs:12 | A cut is accepted exactly when the text before it is a number and the text after it is white space and a word. |
| Regexs.MatchPairIsLanguage | Source/GraduatedCylinder/Text/Regexs.cs:12 | `Pair` matches exactly the texts of its language, after the one final newline that `$` allows. |
| Regexs.MatchPairGroups | Source/GraduatedCylinder/Text/Regexs.cs:12 | The `value` group, the skipped white space and the `units` group make up the whole text. The value is a number and the units are a word. |
| Regexs.InNumberEndsWithDigit | Source/GraduatedCylinder/Text/Regexs.cs:17 | Every accepted number ends with a digit. |
| Regexs.PairValueMatchesValueOnly | Source/GraduatedCylinder/Text/Regexs.cs:12 | Whenever `Pair` matches, its `value` group on its own matches `ValueOnly`. |
| Regexs.ValueOnlySamples | Source/GraduatedCylinder/Text/Regexs.cs:17 | "-3e2" is accepted; "abc" and "12 kg" are rejected. |
| Regexs.ValueOnlyFinalNewline | Source/GraduatedCylinder/Text/Regexs.cs:17 | "12.5" followed by a final newline matches, as "12.5". |
| Regexs.FractionAndExponentNeedDigits | Source/GraduatedCylinder/Text/Regexs.cs:17 | "1.", "1e" and "1e+" are rejected. |
| Regexs.PairDocumentedSample | Source/GraduatedCylinder/Text/Regexs.cs:9 | "12 s" matches with value "12" and units "s". |
| Regexs.PairDocumentedNegativeSample | Source/GraduatedCylinder/Text/Regexs.cs:10 | "-12 s" matches with value "-12" and units "s". |
| Regexs.PairDocumentedDecimalSample | Source/GraduatedCylinder/Text/Regexs.cs:11 | "12.12 s" matches with value "12.12" and units "s". |
| Regexs.PairWithoutSpace | Source/GraduatedCylinder/Text/Regexs.cs:12 | "12kg" matches with value "12" and units "kg": white space is optional. |
| Regexs.PairRejectsSplitUnits | Source/GraduatedCylinder/Text/Regexs.cs:12 | "12 k g" does not match: the units are one word running to the end. |
| Regexs.PairRejectsBareDecimal | Source/GraduatedCylinder/Text/Regexs.cs:12 | "12.5" does not match `Pair`. |
| Regexs.PairSplitsBareInteger | Source/GraduatedCylinder/Text/Regexs.cs:12 | "12" matches `Pair` as value "1" and units "2", and also matches `ValueOnly`. |
| UnitPreferences.ToLowerInvariant | Source/GraduatedCylinder/Units/UnitPreferences.cs:56 | Lower-casing keeps the length and maps every character by itself. |
| UnitPreferences.GetCultureUnits | Source/GraduatedCylinder/Units/UnitPreferences.cs:55-70 | After lower-casing, "en" and "en-us" give exactly the American preset, "en-gb" exactly the British one, and every other code the metric one. `Precision` is 2 in every case. |
| UnitPreferences.ToLowerIdempotent | Source/GraduatedCylinder/Units/UnitPreferences.cs:56 | Lower-casing twice is lower-casing once. |
| UnitPreferences.GetCultureUnitsIgnoresCase | Source/GraduatedCylinder/Units/UnitPreferences.cs:56 | The culture code's case does not change the preset. |
| UnitPreferences.EnglishCultureSamples | Source/GraduatedCylinder/Units/UnitPreferences.cs:58-62 | "EN-GB" gives the British preset and "En-Us" the American one. |
| UnitPreferences.OtherCultureSamples | Source/GraduatedCylinder/Units/UnitPreferences.cs:63-68 | "fr-CA" and the empty code give the metric preset. |
| UnitPreferences.AmericanAndBritishDiffer | Source/GraduatedCylinder/Units/UnitPreferences.cs:8-53 | The British preset is the American one with three fields changed: the volume unit, the volumetric flow rate unit (per hour becomes per second), and the time unit, which only the American preset sets. |
| UnitPreferences.MetricSetsEightFields | Source/GraduatedCylinder/Units/UnitPreferences.cs:72-83 | The metric preset sets exactly eight unit fields. Every other field keeps its default, and `Precision` is 2. |
| Execution.ExecuteInternal | Source/GraduatedCylinder.Roslyn/BaseGenerator.cs:37 | Runs the `ExecuteInternal` of the generator's kind. Its effect on the context and the generator is that kind's outcome. |
| Execution.Execute | Source/GraduatedCylinder.Roslyn/BaseGenerator.cs:26-50 | For an assembly the generator does not name, nothing changes. Otherwise the run's effects hold, plus exactly one error diagnostic, named after the generator type, when `ExecuteInternal` threw. The exception is not rethrown. |
| Execution.Families | Source/GraduatedCylinder.Roslyn/BaseGenerator.cs:27-29 | The IoT generators run for `GraduatedCylinder.IoT` only and the full-library ones for `GraduatedCylinder` only. |
| Execution.ConverterReports | Source/GraduatedCylinder.Roslyn/BaseGenerator.cs:38-42 | The converter reports nothing exactly when every enum's cases resolve. Otherwise it reports one diagnostic: the exception of the first enum whose cases fail. |
| Execution.ExtensionReports | Source/GraduatedCylinder.Roslyn/Full/ExtensionApiGenerator.cs:19-21 | With an unusable path, the extension generator reports only the path diagnostic and writes nothing. With a usable path, it reports nothing exactly when every enum's extensions resolve, and otherwise the exception of a failing enum. |
| Execution.ParsersReportOnlyWriteFailures | Source/GraduatedCylinder.Roslyn/IoT/ParsingGenerator.cs:61-62 | The full-library parsing generator never reports a diagnostic. The IoT one reports exactly one, naming the fixed file, exactly when writing that file fails. |
| Execution.ConverterFaultLeavesText | Source/GraduatedCylinder.Roslyn/BaseGenerator.cs:38-42 | An exception in the converter leaves at least the interrupted enum's banner and class opening in the buffer. |
| Execution.StaleBufferOpensNextFile | Source/GraduatedCylinder.Roslyn/BaseGenerator.cs:38-42 | As written, whatever an interrupted run left in the buffer opens the first converter file of the next run, ahead of that file's banner. |
| Execution.CleanRunStaysClean | Source/GraduatedCylinder.Roslyn/BaseGenerator.cs:61-62 | For every kind, a run that starts from an empty buffer and is not interrupted ends with an empty buffer. |
| Execution.ExecuteClearing | Source/GraduatedCylinder.Roslyn/BaseGenerator.cs:38-42 | `Execute` with a `catch` block that also clears the buffer has the same effects, except that a generator whose buffer was empty before a run has an empty buffer after it. |

## Left out

- Disk and host I/O: `File.WriteAllText`, `SaveToDisk` and `AddToContext` are recorded as appends to `Context` fields. Nothing is written, and the file contents are lines, not one string with the platform's newline. Whether a write to a file name succeeds is the `writable` oracle of `Environment`. Every write failure is modelled as the missing-directory exception; other I/O exception types are not distinguished.
- ExtensionApiGeneration.GenerateExtensionsFor: `SaveToDisk` is taken to succeed; only the IoT parser's direct `File.WriteAllText` consults `writable`.
- Generators.Context.AddSource: the host rejecting a duplicate hint name is not modelled; the generated names are taken to be distinct.
- The environment variable `GraduatedCylinder` and `Directory.Exists` are fields of `Environment`.
- `DateTime.Now` is a clock oracle read once per file. The DEBUG-only log (`Logs`, `Log`, the `_Log.cs` source) is not modelled, because it exists only in debug builds.
- Generators.AppendTrailer: the `Buffer.Capacity` and `Buffer.Length` numbers are readings of an abstract gauge. The StringBuilder's growth policy and the character count are not modelled.
- Execution.Execute: the diagnostic message is only the first line of `Exception.ToString()` (type and message). The stack trace is not modelled.
- Floating point: conversions are computed over reals. `float` rounding, overflow and NaN are not modelled; a division by zero gives `NonFinite`. `Math.Tan` and `Math.Atan` are parameters.
- `float.TryParse` (culture, overflow) and `ShortNames.Get<Units>` are the `Host` oracle of the parse semantics, because their code is not part of this model. The lookup is partial, and its failure is modelled as `UnitsNotFound(abbreviation)`; the exception type it throws is not modelled.
- Regexs: `\d`, `\w` and `\s` are their ASCII parts; .NET's Unicode classes are not modelled.
- UnitPreferences.ToLowerInvariant: lowers the ASCII letters only. No non-ASCII letter lowers into "en", "en-us" or "en-gb", so the culture choice is unaffected.
- `PairRegex` and `ValueOnlyRegex`, which the IoT `Parse` methods call, are not part of this model. `ParseSemantics.ParseIoT` takes them to be the `Regexs.Pair` and `Regexs.ValueOnly` patterns.
- Roslyn plumbing is not modelled: syntax receivers, `GetUnits`, `GetDimensions`, the `SyntaxReceiver` type checks at the start of each `ExecuteInternal`, `InitializeInternal`, and `NameSet` derivation. A compilation is a list of unit enums and dimension structs whose names are already derived.
- A member's `Identifier` and its symbol's `Name` are one `identifier` in the converter. The extension generator uses the symbol's name, which is null when there is no symbol.
- `enumValue?.Name` for a member without a symbol cannot arise in the extension generator: such a member has no attribute and is skipped.
- Source/GraduatedCylinder.Geo/Geo/PrettyPrinter.cs is not part of this model; it only formats doubles.
- The test fixtures serve only as evidence for the round trips. The dimension types they exercise are not part of this model.
- UnitConverterGeneration.ScaleInverselyToBaseUnbalanced: holds for constructor arguments that render without parentheses (`PlainArguments`), as numbers do.
- ConverterSemantics.SwitchRoundTrip: assumes the enum's members have distinct numeric values. With duplicates, C# rejects the switch at compile time.
- The corrected members (`ToBaseFormulaCorrected`, `ParseIoTCorrected`, `ExecuteClearing`) stand beside the members that describe the generators as written. The generated text is modelled as written throughout. The semantics of the generated `ToBase` for `ScaleInversely` is the exception, as the four lines below say.
- Conversions.InverseToBaseThenFromBase: uses the intended `ToBase` formula `(n / value) * s` of the comment at UnitConverterGenerator.cs:121. As written, line 123 has one `)` too many, so a converter for an enum with a `ScaleInversely` member does not compile and computes nothing.
- Conversions.InverseFromBaseThenToBase: its way back is the intended `ToBase` formula, not the line emitted at UnitConverterGenerator.cs:123, which does not compile.
- ConverterSemantics.SwitchRoundTrip: for a `ScaleInversely` member it uses the intended `ToBase` formula; as written, that enum's converter does not compile.
- ConverterSemantics.ToBaseEval: for `ScaleInversely` it evaluates the intended formula (`Conversions.ToBaseValue`), not the uncompilable emitted line.

## Findings

| source | as written | input that shows it | evidently intended | confidence | as-written member | corrected member |
|---|---|---|---|---|---|---|
| Source/GraduatedCylinder.Roslyn/IoT/UnitConverterGenerator.cs:123 | The `ToBase` line for `ScaleInverselyAttribute` is `return (nf / dimension.Value) * sf);`, which has one `)` too many | any unit with `[ScaleInversely(n, s)]` whose arguments render as plain numbers | `return (nf / dimension.Value) * sf;`, as the comment at line 121 reads | not executed | UnitConverterGeneration.ScaleInverselyToBaseUnbalanced | UnitConverterGeneration.ScaleInverselyToBaseCorrected |
| Source/GraduatedCylinder.Roslyn/IoT/ParsingGenerator.cs:39-51 | `Pair` is tried first, and its greedy value group leaves the last digit of a bare integer as the unit word | "12" never takes `defaultUnits`: it is read as 1 in the unit abbreviated "2", or fails in the lookup of "2" | a bare number takes `defaultUnits` | not executed | ParseSemantics.IoTParseBareInteger | ParseSemantics.IoTParseCorrectedDefaultsUnits |
| Source/GraduatedCylinder.Roslyn/BaseGenerator.cs:38-42 | The `catch` block reports the exception but leaves the partial text in the reused buffer | an enum whose member has two Scales attributes, followed by another run of the same generator | the buffer is cleared, so each file holds only its own text | not executed | Execution.StaleBufferOpensNextFile | Execution.ExecuteClearing |
