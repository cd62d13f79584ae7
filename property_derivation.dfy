/** Per-field property derivation and rendering (ProcessField). */
module PropertyDerivation {
  import opened Symbols
  import opened Naming
  import opened GeneratedText

  /** The attribute's default for an absent visibility argument: Visibility.Public. */
  const PublicLevel: int := 3
  /** The attribute's default for an absent equality argument: EqualityCheck.None. */
  const NoCheckValue: int := 0

  /** Decimal numeral of a natural number. */
  function Digits(n: nat): (r: string)
    ensures r != []
  {
    if n < 10 then ["0123456789"[n]] else Digits(n / 10) + ["0123456789"[n % 10]]
  }

  /** Decimal numeral of an integer, with a leading '-' when negative. */
  function Numeral(n: int): (r: string)
    ensures r != []
  {
    if n < 0 then "-" + Digits(-n) else Digits(n)
  }

  /** `((Visibility)level).ToString().ToLower()`: the enumerator's name, or the numeral of
      a value the enumeration does not define. Never empty. */
  function VisibilityName(level: int): (r: string)
    ensures r != []
    ensures 0 <= level <= 3 ==> r == ["private", "internal", "protected", "public"][level]
    ensures !(0 <= level <= 3) ==> r == Numeral(level)
  {
    if level == 0 then "private"
    else if level == 1 then "internal"
    else if level == 2 then "protected"
    else if level == 3 then "public"
    else Numeral(level)
  }

  function Max(a: int, b: int): (m: int)
    ensures m >= a && m >= b && (m == a || m == b)
  {
    if a >= b then a else b
  }

  /** The modifier written before one accessor: empty unless the accessor's level is
      strictly below the property's declared level. */
  function AccessorModifier(level: int, declared: int): (r: string)
    ensures r != [] <==> level < declared
    ensures r != [] ==> r == VisibilityName(level)
  {
    if level < declared then VisibilityName(level) else ""
  }

  datatype EqualityCheck = NoCheck | ObjectEquals | ObjectReferenceEquals

  /** `(EqualityCheck)n` as the switch of ProcessField reads it: 1 and 2 select a check,
      every other value selects none. */
  function EqualityCheckOf(n: int): (c: EqualityCheck)
    ensures c.ObjectEquals? <==> n == 1
    ensures c.ObjectReferenceEquals? <==> n == 2
  {
    if n == 1 then ObjectEquals else if n == 2 then ObjectReferenceEquals else NoCheck
  }

  /** The setter's guard for a check on backing field `fieldName`. */
  function GuardFor(check: EqualityCheck, fieldName: string): (g: Guard)
    ensures g.Unguarded? <==> check.NoCheck?
    ensures g.IfNotEquals? <==> check.ObjectEquals?
    ensures !g.Unguarded? ==> g.left == "this." + fieldName
  {
    match check
    case NoCheck => Unguarded
    case ObjectEquals => IfNotEquals("this." + fieldName)
    case ObjectReferenceEquals => IfNotReferenceEquals("this." + fieldName)
  }

  /** What ProcessField derives for one field before rendering it. */
  datatype PropertySpec = PropertySpec(
    name: string,
    getterLevel: int,
    setterLevel: int,
    declaredLevel: int,
    check: EqualityCheck)

  function FieldArguments(field: FieldSymbol): AttributeArguments
    requires HasMarker(field)
  {
    MarkerArguments(field.attributes)
  }

  /** The derived name for a field: None when the field is skipped. */
  function PropertyName(field: FieldSymbol): (r: Option<string>)
    requires HasMarker(field)
    ensures r.None? <==> var n := ChooseName(field.name, FieldArguments(field).propertyName);
                         n == [] || n == field.name
    ensures r.Some? ==> r.value != [] && r.value != field.name
  {
    var n := ChooseName(field.name, FieldArguments(field).propertyName);
    if |n| == 0 || n == field.name then None else Some(n)
  }

  /** The specification of the property generated for `field`, or None when it is skipped. */
  function DeriveSpec(field: FieldSymbol): (r: Option<PropertySpec>)
    requires HasMarker(field)
    ensures r.None? <==> PropertyName(field).None?
  {
    match PropertyName(field)
    case None => None
    case Some(name) =>
      var args := FieldArguments(field);
      var getter := args.getterVisibility.GetOr(PublicLevel);
      var setter := args.setterVisibility.GetOr(PublicLevel);
      Some(PropertySpec(name, getter, setter, Max(getter, setter),
                        EqualityCheckOf(args.checkEquality.GetOr(NoCheckValue))))
  }

  /** The text of the property for `field` under `spec`. */
  function Render(field: FieldSymbol, spec: PropertySpec): (r: Property)
    ensures r.name == spec.name && r.typeName == field.typeName
    ensures r.visibility == VisibilityName(spec.declaredLevel)
    ensures r.getter.modifier != [] <==> spec.getterLevel < spec.declaredLevel
    ensures r.setter.modifier != [] <==> spec.setterLevel < spec.declaredLevel
    ensures r.getter.returned == r.setter.target == "this." + field.name
    ensures r.setter.notifiedName == r.name
    ensures r.setter.guard.Unguarded? <==> spec.check.NoCheck?
  {
    Property(
      VisibilityName(spec.declaredLevel),
      field.typeName,
      spec.name,
      Getter(AccessorModifier(spec.getterLevel, spec.declaredLevel), "this." + field.name),
      Setter(AccessorModifier(spec.setterLevel, spec.declaredLevel), GuardFor(spec.check, field.name),
             "this." + field.name, spec.name))
  }

  /** What ProcessField appends for `field`: nothing, or exactly one property. */
  function FieldSource(field: FieldSymbol): (r: seq<Fragment>)
    requires HasMarker(field)
    ensures |r| <= 1
    ensures r != [] ==> r[0].PropertyMember?
  {
    match DeriveSpec(field)
    case None => []
    case Some(spec) => [PropertyMember(Render(field, spec))]
  }

  /** Appends the property generated for `field`, if any, to `source`; the caller's
      builder is passed in and handed back. */
  method ProcessField(source: seq<Fragment>, field: FieldSymbol) returns (appended: seq<Fragment>)
    requires HasMarker(field)
    ensures appended == source + FieldSource(field)
  {
    appended := source;
    var spec := DeriveSpec(field);
    if spec.None? {
      return;
    }
    appended := appended + [PropertyMember(Render(field, spec.value))];
  }

  /** A field yields no property exactly when its derived name is empty or equals the
      field's own name; otherwise it yields one property, named by the derived name and
      typed by the field, whose getter returns and whose setter assigns the backing field
      and raises PropertyChanged with the property's own name. */
  lemma FieldSourceShape(field: FieldSymbol)
    requires HasMarker(field)
    ensures var n := ChooseName(field.name, FieldArguments(field).propertyName);
            && (FieldSource(field) == [] <==> n == [] || n == field.name)
            && (FieldSource(field) != [] ==>
                  var p := FieldSource(field)[0].property;
                  && p.name == n && p.typeName == field.typeName
                  && p.getter.returned == "this." + field.name
                  && p.setter.target == "this." + field.name
                  && p.setter.notifiedName == n)
  {
  }

  /** The declared visibility is the larger of the two accessor levels (each defaulting to
      Public), an accessor carries a modifier exactly when its level is below that, and so
      at most one of the two accessors carries one. */
  lemma VisibilityDerivation(field: FieldSymbol)
    requires HasMarker(field)
    requires FieldSource(field) != []
    ensures var args := FieldArguments(field);
            var g := args.getterVisibility.GetOr(3);
            var s := args.setterVisibility.GetOr(3);
            var p := FieldSource(field)[0].property;
            && p.visibility == VisibilityName(if g >= s then g else s)
            && (p.getter.modifier != [] <==> g < s)
            && (p.setter.modifier != [] <==> s < g)
            && (p.getter.modifier == [] || p.setter.modifier == [])
  {
  }

  /** The equality argument defaults to 0; 1 guards the setter with Object.Equals, 2 with
      Object.ReferenceEquals, both comparing the backing field with `value`; every other
      value leaves the setter unguarded (empty guard text). */
  lemma EqualityGuardSelection(field: FieldSymbol)
    requires HasMarker(field)
    requires FieldSource(field) != []
    ensures var c := FieldArguments(field).checkEquality;
            var g := FieldSource(field)[0].property.setter.guard;
            && (c == Some(1) ==> g == IfNotEquals("this." + field.name))
            && (c == Some(2) ==> g == IfNotReferenceEquals("this." + field.name))
            && (c.None? || (c.value != 1 && c.value != 2) ==> GuardText(g) == "")
  {
  }

  /** The generated setter always assigns and notifies when unguarded; when guarded it
      does both exactly when the guard's comparison says the values differ, and neither
      otherwise. */
  lemma SetterBehaviour<V>(field: FieldSymbol, current: V, value: V,
                           objectEquals: (V, V) -> bool, referenceEquals: (V, V) -> bool)
    requires HasMarker(field)
    requires FieldSource(field) != []
    ensures var p := FieldSource(field)[0].property;
            var c := EqualityCheckOf(FieldArguments(field).checkEquality.GetOr(0));
            var e := RunSetter(p.setter, current, value, objectEquals, referenceEquals);
            var skipped := (c.ObjectEquals? && objectEquals(current, value))
                             || (c.ObjectReferenceEquals? && referenceEquals(current, value));
            && (skipped ==> e == SetterEffect(current, []))
            && (!skipped ==> e == SetterEffect(value, [p.name]))
  {
  }
}
