/** The part of the compiler's symbol graph that the AutoNotify generator queries.
    Symbol identity is modelled by datatype equality. */
module Symbols {

  datatype Option<+T> = None | Some(value: T)
  {
    function GetOr(default: T): T
    {
      match this
      case Some(v) => v
      case None => default
    }
  }

  /** Display name of the marker attribute that the generator looks for. */
  const MarkerAttributeName: string := "SourceGenerators.AutoNotifyAttribute"

  /** The kind of a type symbol; every kind the generator does not name is OtherKind. */
  datatype TypeKind = Class | Struct | Interface | Enum | Delegate | OtherKind

  /** What the generator reads of a type symbol when it renders a header. */
  datatype TypeInfo = TypeInfo(name: string, metadataName: string, kind: TypeKind, isRecord: bool)

  /** A symbol lying between a type and its containing namespace: another type, or
      something that is not a type. */
  datatype Container =
    | TypeContainer(info: TypeInfo)
    | OtherContainer(otherMetadataName: string)
  {
    function MetadataName(): string
    {
      match this
      case TypeContainer(t) => t.metadataName
      case OtherContainer(n) => n
    }
  }

  datatype Namespace = Namespace(displayName: string, metadataName: string)

  /** A named type. Its chain of containing symbols, immediate container first, is
      `containers`, then the containing namespace `ns`, then the metadata names of all
      symbols beyond that namespace (outer namespaces, module, assembly). */
  datatype NamedType = NamedType(
    info: TypeInfo,
    interfaces: seq<string>,
    containers: seq<Container>,
    ns: Namespace,
    beyond: seq<string>)

  /** The named arguments of one marker attribute; an absent argument is None. */
  datatype AttributeArguments = AttributeArguments(
    propertyName: Option<string>,
    getterVisibility: Option<int>,
    setterVisibility: Option<int>,
    checkEquality: Option<int>)

  datatype AttributeData = AttributeData(className: string, arguments: AttributeArguments)

  datatype FieldSymbol = FieldSymbol(
    name: string,
    typeName: string,
    containingType: NamedType,
    attributes: seq<AttributeData>)

  predicate IsMarker(a: AttributeData)
  {
    a.className == MarkerAttributeName
  }

  predicate HasMarker(f: FieldSymbol)
  {
    exists a :: a in f.attributes && IsMarker(a)
  }

  predicate AllMarked(fields: seq<FieldSymbol>)
  {
    forall f :: f in fields ==> HasMarker(f)
  }

  /** The arguments of the marker attribute among `attributes` (the first one found). */
  function MarkerArguments(attributes: seq<AttributeData>): (r: AttributeArguments)
    requires exists a :: a in attributes && IsMarker(a)
    ensures exists a :: a in attributes && IsMarker(a) && a.arguments == r
  {
    if IsMarker(attributes[0]) then attributes[0].arguments
    else
      assert exists a :: a in attributes[1..] && IsMarker(a) by {
        var a :| a in attributes && IsMarker(a);
        assert a != attributes[0];
      }
      MarkerArguments(attributes[1..])
  }

  lemma MarkedParts(a: seq<FieldSymbol>, b: seq<FieldSymbol>)
    ensures AllMarked(a + b) <==> AllMarked(a) && AllMarked(b)
  {
  }
}
