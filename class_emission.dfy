/** Rendering of one owning type's generated fragment (ProcessClass and GetKind). */
module ClassEmission {
  import opened Symbols
  import opened GeneratedText
  import opened PropertyDerivation

  /** The declaration keyword for a type: class, struct or interface, prefixed by
      "record " for records; None (a null string) for every other kind of non-record. */
  function GetKind(t: TypeInfo): (r: Option<string>)
    ensures r.None? <==> !t.isRecord && t.kind !in {Class, Struct, Interface}
    ensures t.isRecord ==> r.Some? && |r.value| >= 7 && r.value[..7] == "record "
    ensures !t.isRecord && r.Some? ==> r.value in {"class", "struct", "interface"}
    ensures t.kind == Class ==> r == Some(if t.isRecord then "record class" else "class")
    ensures t.kind == Struct ==> r == Some(if t.isRecord then "record struct" else "struct")
    ensures t.kind == Interface ==> r == Some(if t.isRecord then "record interface" else "interface")
    ensures t.isRecord && t.kind !in {Class, Struct, Interface} ==> r == Some("record ")
  {
    var v: Option<string> := match t.kind
      case Class => Some("class")
      case Struct => Some("struct")
      case Interface => Some("interface")
      case _ => None;
    assert "record " + "class" == "record class" && "record " + "struct" == "record struct";
    assert "record " + "interface" == "record interface" && "record " + "" == "record ";
    if t.isRecord then Some("record " + KindString(v)) else v
  }

  /** A possibly-null string as string interpolation writes it: null becomes "". */
  function KindString(v: Option<string>): string
  {
    v.GetOr("")
  }

  /** The keyword text written into a header: an unsupported kind is not skipped, it
      simply leaves the keyword out. */
  function KindText(t: TypeInfo): (r: string)
    ensures r == [] <==> GetKind(t).None?
    ensures GetKind(t).Some? ==> r == GetKind(t).value
  {
    KindString(GetKind(t))
  }

  predicate AllTypeContainers(cs: seq<Container>)
  {
    forall i :: 0 <= i < |cs| ==> cs[i].TypeContainer?
  }

  /** The type symbols among `cs`, in order. */
  function ContainerTypes(cs: seq<Container>): (r: seq<TypeInfo>)
    ensures |r| <= |cs|
    ensures AllTypeContainers(cs) ==> |r| == |cs| && forall i :: 0 <= i < |cs| ==> r[i] == cs[i].info
  {
    if cs == [] then []
    else
      var last := cs[|cs| - 1];
      ContainerTypes(cs[..|cs| - 1]) + (if last.TypeContainer? then [last.info] else [])
  }

  /** The `partial K N {` header that opens the wrapper for one containing type. */
  function WrapperHeader(t: TypeInfo): Fragment
  {
    TypeHeader(KindText(t), t.name)
  }

  /** Appends one wrapper header per queued type, front of the queue first. */
  function OpenWrappers(text: seq<Fragment>, queue: seq<TypeInfo>): seq<Fragment>
    decreases |queue|
  {
    if queue == [] then text
    else OpenWrappers(text + [WrapperHeader(queue[0])], queue[1..])
  }

  /** Appends what ProcessField appends for each field, in order. */
  function AppendProperties(text: seq<Fragment>, fields: seq<FieldSymbol>): seq<Fragment>
    requires AllMarked(fields)
  {
    if fields == [] then text
    else AppendProperties(text, fields[..|fields| - 1]) + FieldSource(fields[|fields| - 1])
  }

  /** Appends `n` closing braces. */
  function AppendCloses(text: seq<Fragment>, n: nat): seq<Fragment>
  {
    if n == 0 then text else AppendCloses(text, n - 1) + [CloseBrace]
  }

  /** The class header, followed by the event member unless the type already declares
      the notification interface. */
  function AppendClassHeader(text: seq<Fragment>, classSymbol: NamedType, notify: string): (r: seq<Fragment>)
    ensures |r| == |text| + 1 <==> notify in classSymbol.interfaces
    ensures |r| == |text| + 2 <==> notify !in classSymbol.interfaces
    ensures r[..|text|] == text
    ensures r[|text|] == ClassHeader(KindText(classSymbol.info), classSymbol.info.name, notify)
    ensures |r| == |text| + 2 ==> r[|text| + 1] == EventMember
  {
    var withHeader := text + [ClassHeader(KindText(classSymbol.info), classSymbol.info.name, notify)];
    if notify in classSymbol.interfaces then withHeader else withHeader + [EventMember]
  }

  /** The text generated for `classSymbol` when its wrappers are opened in the order of
      `queue`: the namespace, the wrappers, the class header and event, the properties,
      one brace per wrapper and "} }" for the class and the namespace. */
  function ClassText(classSymbol: NamedType, queue: seq<TypeInfo>, fields: seq<FieldSymbol>, notify: string): seq<Fragment>
    requires AllMarked(fields)
  {
    var wrapped := OpenWrappers([NamespaceHeader(classSymbol.ns.displayName)], queue);
    var body := AppendProperties(AppendClassHeader(wrapped, classSymbol, notify), fields);
    AppendCloses(body, |queue|) + [CloseBrace] + [CloseBrace]
  }

  /** The fragment ProcessClass generates for `classSymbol`, or None when a symbol
      between it and its namespace is not a type. The wrappers are opened in queue
      order: immediate container first. */
  function ClassSource(classSymbol: NamedType, fields: seq<FieldSymbol>, notify: string): (r: Option<seq<Fragment>>)
    requires AllMarked(fields)
    ensures r.None? <==> exists i :: 0 <= i < |classSymbol.containers| && classSymbol.containers[i].OtherContainer?
  {
    if !AllTypeContainers(classSymbol.containers) then None
    else Some(ClassText(classSymbol, ContainerTypes(classSymbol.containers), fields, notify))
  }

  function Reversed<T>(s: seq<T>): (r: seq<T>)
    ensures |r| == |s| && forall i :: 0 <= i < |s| ==> r[i] == s[|s| - 1 - i]
  {
    if s == [] then [] else [s[|s| - 1]] + Reversed(s[..|s| - 1])
  }

  /** ClassSource with the wrappers opened outermost container first, so that the
      generated nesting is the declared one. */
  function CorrectedClassSource(classSymbol: NamedType, fields: seq<FieldSymbol>, notify: string): (r: Option<seq<Fragment>>)
    requires AllMarked(fields)
    ensures r.None? <==> exists i :: 0 <= i < |classSymbol.containers| && classSymbol.containers[i].OtherContainer?
  {
    if !AllTypeContainers(classSymbol.containers) then None
    else Some(ClassText(classSymbol, Reversed(ContainerTypes(classSymbol.containers)), fields, notify))
  }

  /** Walks the symbols between a type and its namespace, immediate container first,
      queueing each type; None as soon as one of them is not a type. */
  method QueueContainers(containers: seq<Container>) returns (queue: Option<seq<TypeInfo>>)
    ensures queue.None? <==> !AllTypeContainers(containers)
    ensures queue.Some? ==> queue.value == ContainerTypes(containers)
  {
    var queued: seq<TypeInfo> := [];
    var i := 0;
    while i < |containers|
      invariant 0 <= i <= |containers|
      invariant |queued| == i
      invariant forall k :: 0 <= k < i ==> containers[k].TypeContainer? && queued[k] == containers[k].info
    {
      if containers[i].OtherContainer? {
        return None;
      }
      queued := queued + [containers[i].info];
      i := i + 1;
    }
    return Some(queued);
  }

  /** Dequeues the queued types in order, appending one wrapper header for each. */
  method OpenQueued(source: seq<Fragment>, queue: seq<TypeInfo>) returns (wrapped: seq<Fragment>)
    ensures wrapped == OpenWrappers(source, queue)
  {
    wrapped := source;
    var pending := queue;
    while |pending| > 0
      invariant OpenWrappers(wrapped, pending) == OpenWrappers(source, queue)
    {
      var t := pending[0];
      pending := pending[1..];
      wrapped := wrapped + [TypeHeader(KindText(t), t.name)];
    }
  }

  /** Runs ProcessField on each field in order. */
  method ProcessFields(source: seq<Fragment>, fields: seq<FieldSymbol>) returns (body: seq<Fragment>)
    requires AllMarked(fields)
    ensures body == AppendProperties(source, fields)
  {
    body := source;
    for j := 0 to |fields|
      invariant body == AppendProperties(source, fields[..j])
    {
      assert fields[..j + 1][..j] == fields[..j];
      body := ProcessField(body, fields[j]);
    }
    assert fields[..|fields|] == fields;
  }

  /** Appends one closing brace per opened wrapper. */
  method CloseWrappers(source: seq<Fragment>, additionalClasses: nat) returns (closed: seq<Fragment>)
    ensures closed == AppendCloses(source, additionalClasses)
  {
    closed := source;
    for j := 0 to additionalClasses
      invariant closed == AppendCloses(source, j)
    {
      closed := closed + [CloseBrace];
    }
  }

  /** The part of ProcessClass after the walk: emits the text around the queued wrappers. */
  method EmitClass(classSymbol: NamedType, queue: seq<TypeInfo>, fields: seq<FieldSymbol>, notify: string)
    returns (source: seq<Fragment>)
    requires AllMarked(fields)
    ensures source == ClassText(classSymbol, queue, fields, notify)
  {
    source := [NamespaceHeader(classSymbol.ns.displayName)];
    var additionalClasses := |queue|;
    source := OpenQueued(source, queue);
    source := source + [ClassHeader(KindText(classSymbol.info), classSymbol.info.name, notify)];
    if notify !in classSymbol.interfaces {
      source := source + [EventMember];
    }
    source := ProcessFields(source, fields);
    source := CloseWrappers(source, additionalClasses);
    source := source + [CloseBrace];
    source := source + [CloseBrace];
  }

  /** Builds the generated fragment for one owning type and its fields, opening the
      wrappers in the order the walk queued them. */
  method ProcessClass(classSymbol: NamedType, fields: seq<FieldSymbol>, notify: string)
    returns (r: Option<seq<Fragment>>)
    requires AllMarked(fields)
    ensures r == ClassSource(classSymbol, fields, notify)
  {
    var queued := QueueContainers(classSymbol.containers);
    if queued.None? {
      return None;
    }
    var text := EmitClass(classSymbol, queued.value, fields, notify);
    r := Some(text);
  }

  /** ProcessClass with the queue replaced by a stack: the outermost container is
      opened first. */
  method ProcessClassCorrected(classSymbol: NamedType, fields: seq<FieldSymbol>, notify: string)
    returns (r: Option<seq<Fragment>>)
    requires AllMarked(fields)
    ensures r == CorrectedClassSource(classSymbol, fields, notify)
  {
    var queued := QueueContainers(classSymbol.containers);
    if queued.None? {
      return None;
    }
    var text := EmitClass(classSymbol, Reversed(queued.value), fields, notify);
    r := Some(text);
  }
}
