/** What the generators read from a compilation, with Roslyn's syntax
    receivers and semantic model replaced by plain values: the unit enums
    with their members, the dimension structs, and the attributes on each
    member. Name derivation (`NameSet`) is done by the receivers and arrives
    here already computed. */
module Declarations {
  import opened Wrappers

  /** One attribute constructor argument: `text` is how string
      interpolation renders its `TypedConstant.Value`, `value` the number
      that text denotes when the argument is numeric, and `isNull` marks a
      `null` constant (interpolation renders it as the empty text). Only a
      parameter of reference type can receive `null`: the string argument
      of an Extensions attribute can, the numeric arguments of the Scales
      attributes cannot. */
  datatype Argument = Argument(text: string, value: real, isNull: bool)

  /** An attribute: the namespace of its class, the class's simple name and
      its constructor arguments in order. */
  datatype AttributeData = AttributeData(namespace: string, className: string, arguments: seq<Argument>)

  /** The declared symbol of an enum member (`GetDeclaredSymbol`). */
  datatype Symbol = Symbol(name: string, attributes: seq<AttributeData>)

  /** An enum member: its identifier, its numeric value, and its symbol,
      which the semantic model may fail to produce. */
  datatype EnumMember = EnumMember(identifier: string, tag: int, symbol: Option<Symbol>)

  /** The names `NameSet.FromUnitsType` / `FromDimensionType` derive. */
  datatype NameSet = NameSet(dimensionTypeName: string, unitsTypeName: string,
                             converterTypeName: string, extensionsTypeName: string)

  datatype UnitEnum = UnitEnum(names: NameSet, members: seq<EnumMember>)

  datatype DimensionStruct = DimensionStruct(names: NameSet)

  datatype Compilation = Compilation(assemblyName: string, units: seq<UnitEnum>, dimensions: seq<DimensionStruct>)

  /** The exceptions generation can raise: `SingleOrDefault` finding more
      than one match, `ConstructorArguments[i]` past the end, `ToString()`
      on a `null` argument value, and `File.WriteAllText` failing on a
      file name. */
  datatype Fault = MoreThanOneMatch | IndexOutOfRange | NullReference | WriteFailed(fileName: string)

  /** The exception's message, as `Exception.ToString()` starts. */
  function FaultText(f: Fault): string {
    match f
    case MoreThanOneMatch => "System" + ".InvalidOperation" + "Exception: Sequence " + "contains more than " + "one matching element"
    case IndexOutOfRange => "System" + ".IndexOutOfRange" + "Exception: Index was " + "outside the bounds " + "of the array."
    case NullReference => "System" + ".NullReference" + "Exception: Object " + "reference not set " + "to an instance of " + "an object."
    case WriteFailed(name) => "System.IO" + ".DirectoryNotFound" + "Exception: Could not " + "find a part of the " + "path '" + name + "'."
  }

  const ScalesNamespace := "GraduatedCylinder" + ".Scales"
  const ExtensionsNamespace := "GraduatedCylinder" + ".Extensions"

  /** The attributes whose class lives in namespace `ns`, in order. */
  function InNamespace(attributes: seq<AttributeData>, ns: string): (r: seq<AttributeData>)
    ensures |r| <= |attributes|
    ensures forall a :: a in r <==> a in attributes && a.namespace == ns
  {
    if attributes == [] then []
    else if attributes[0].namespace == ns then [attributes[0]] + InNamespace(attributes[1..], ns)
    else InNamespace(attributes[1..], ns)
  }

  /** `GetAttributes().SingleOrDefault(a => namespace of a's class == ns)`:
      none gives `null`, one gives it, more than one throws. */
  function SingleOrDefault(attributes: seq<AttributeData>, ns: string): (r: Result<Option<AttributeData>, Fault>)
    ensures r.Err? <==> |InNamespace(attributes, ns)| > 1
    ensures r.Err? ==> r.error == MoreThanOneMatch
    ensures r == Ok(None) <==> forall a :: a in attributes ==> a.namespace != ns
    ensures r.Ok? && r.value.Some? ==> r.value.value in attributes && r.value.value.namespace == ns
  {
    var found := InNamespace(attributes, ns);
    if |found| == 0 then Ok(None)
    else if |found| == 1 then Ok(Some(found[0]))
    else assert found[0] in attributes; Err(MoreThanOneMatch)
  }

  /** The attribute a member's symbol carries from `ns`, as `SingleOrDefault`
      resolves it; a member without a symbol has none. */
  function MemberAttribute(m: EnumMember, ns: string): Result<Option<AttributeData>, Fault> {
    match m.symbol
    case None => Ok(None)
    case Some(sym) => SingleOrDefault(sym.attributes, ns)
  }

}
