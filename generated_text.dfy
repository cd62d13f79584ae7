/** The generated source text, as a sequence of structural fragments rather than
    characters. */
module GeneratedText {

  /** The equality check placed in front of a setter's assignment. `left` is the operand
      read from the backing field (`this.<field>`); the other operand is `value`. */
  datatype Guard =
    | Unguarded
    | IfNotEquals(left: string)
    | IfNotReferenceEquals(left: string)

  /** The C# text of a guard. */
  function GuardText(g: Guard): (r: string)
    ensures r == [] <==> g.Unguarded?
  {
    match g
    case Unguarded => ""
    case IfNotEquals(left) => "if(!Object.Equals(" + left + ", value))"
    case IfNotReferenceEquals(left) => "if(!Object.ReferenceEquals(" + left + ", value))"
  }

  /** `<modifier> get { return <returned>; }` */
  datatype Getter = Getter(modifier: string, returned: string)

  /** `<modifier> set { <guard> { <target> = value; PropertyChanged?.Invoke(this, nameof(<notifiedName>)); } }` */
  datatype Setter = Setter(modifier: string, guard: Guard, target: string, notifiedName: string)

  /** `<visibility> <typeName> <name> { <getter> <setter> }` */
  datatype Property = Property(visibility: string, typeName: string, name: string, getter: Getter, setter: Setter)

  datatype Fragment =
    | NamespaceHeader(namespaceName: string)                       // `#nullable enable namespace N {`
    | TypeHeader(kind: string, typeName: string)                   // `partial K N {`
    | ClassHeader(classKind: string, className: string, baseList: string)  // `partial K N : I {`
    | EventMember                                                  // the PropertyChanged event
    | PropertyMember(property: Property)
    | CloseBrace                                                   // `}`
  {
    predicate Opens()
    {
      NamespaceHeader? || TypeHeader? || ClassHeader?
    }
  }

  /** What running a generated setter does: the backing field's new value and the
      names passed to PropertyChanged, in order. */
  datatype SetterEffect<V> = SetterEffect(stored: V, raised: seq<string>)

  /** Runs a generated setter on backing-field value `current` and new `value`;
      `objectEquals` and `referenceEquals` stand for Object.Equals and Object.ReferenceEquals. */
  function RunSetter<V>(s: Setter, current: V, value: V,
                        objectEquals: (V, V) -> bool, referenceEquals: (V, V) -> bool): (e: SetterEffect<V>)
    ensures e.stored == value || e.stored == current
    ensures e.raised == [] || e.raised == [s.notifiedName]
    ensures e.raised == [] <==> (s.guard.IfNotEquals? && objectEquals(current, value))
                                || (s.guard.IfNotReferenceEquals? && referenceEquals(current, value))
  {
    var proceed := match s.guard
      case Unguarded => true
      case IfNotEquals(_) => !objectEquals(current, value)
      case IfNotReferenceEquals(_) => !referenceEquals(current, value);
    if proceed then SetterEffect(value, [s.notifiedName]) else SetterEffect(current, [])
  }
}
