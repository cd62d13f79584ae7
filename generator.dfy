/** The generator's entry point (Execute): group the collected fields by owning type,
    generate one source per type that can be generated, and name it after the type. */
module Generator {
  import opened Symbols
  import opened GeneratedText
  import opened ClassEmission
  import opened ClassLayout
  import opened Grouping
  import opened Discovery

  /** What the generator hands to the compiler for one type: a hint name and a text. */
  datatype GeneratedSource = GeneratedSource(hintName: string, text: seq<Fragment>)

  /** Display name of the notification interface the generated types implement. */
  const NotifyInterfaceName: string := "System.ComponentModel.INotifyPropertyChanged"

  const HintSuffix: string := "_autoNotify.cs"

  /** Metadata names along the containing chain of `t`, starting with `t` itself and
      ending with the outermost symbol. */
  function SymbolPath(t: NamedType): (r: seq<string>)
    ensures |r| == |t.containers| + 2 + |t.beyond|
    ensures r[0] == t.info.metadataName
  {
    [t.info.metadataName] + ContainerNames(t.containers) + [t.ns.metadataName] + t.beyond
  }

  function ContainerNames(cs: seq<Container>): (r: seq<string>)
    ensures |r| == |cs|
  {
    seq(|cs|, i requires 0 <= i < |cs| => cs[i].MetadataName())
  }

  /** What the naming loop leaves in a builder holding `b` once it has appended every name
      of `names`: a '.' before each name unless the builder is still empty, then the name. */
  function Dotted(b: string, names: seq<string>): (r: string)
    ensures |r| >= |b| && r[..|b|] == b
    decreases |names|
  {
    if names == [] then b
    else Dotted((if |b| != 0 then b + "." else b) + names[0], names[1..])
  }

  /** Builds the hint name by walking from the type out to the outermost symbol. */
  method HintName(t: NamedType) returns (hint: string)
    ensures hint == Dotted("", SymbolPath(t))
  {
    var path := SymbolPath(t);
    var b := "";
    var k := 0;
    while k < |path|
      invariant 0 <= k <= |path|
      invariant Dotted(b, path[k..]) == Dotted("", path)
    {
      assert path[k..][1..] == path[k + 1..];
      if |b| != 0 {
        b := b + ".";
      }
      b := b + path[k];
      k := k + 1;
    }
    assert path[k..] == [];
    hint := b;
  }

  /** The names joined with '.' between consecutive names. */
  function DotJoin(names: seq<string>): string
  {
    if names == [] then ""
    else if |names| == 1 then names[0]
    else names[0] + "." + DotJoin(names[1..])
  }

  /** Once the builder is non-empty, each further name is written after a '.'. */
  lemma {:induction false} DottedAfterFirst(b: string, names: seq<string>)
    requires b != []
    ensures Dotted(b, names) == b + (if names == [] then "" else "." + DotJoin(names))
    decreases |names|
  {
    if names != [] {
      var next := b + "." + names[0];
      DottedAfterFirst(next, names[1..]);
      if |names| > 1 {
        assert DotJoin(names) == names[0] + "." + DotJoin(names[1..]);
        assert next + "." + DotJoin(names[1..]) == b + ("." + DotJoin(names));
      } else {
        assert names[1..] == [];
      }
    }
  }

  /** When the type's own metadata name is non-empty, the hint is the metadata names of
      the containing chain joined with '.', starting with the type's own. */
  lemma HintNameIsDotJoin(t: NamedType)
    requires t.info.metadataName != []
    ensures Dotted("", SymbolPath(t)) == DotJoin(SymbolPath(t))
  {
    var path := SymbolPath(t);
    DottedAfterFirst(path[0], path[1..]);
    assert "" + path[0] == path[0];
    assert Dotted("", path) == Dotted(path[0], path[1..]);
  }

  /** The source generated for a group, or None when its type cannot be generated. */
  function GroupSource(g: Group): (r: Option<GeneratedSource>)
    requires AllMarked(g.members)
    ensures r.Some? <==> AllTypeContainers(g.key.containers)
    ensures r.Some? ==> r.value.text == ClassSource(g.key, g.members, NotifyInterfaceName).value
  {
    match ClassSource(g.key, g.members, NotifyInterfaceName)
    case None => None
    case Some(text) => Some(GeneratedSource(Dotted("", SymbolPath(g.key)) + HintSuffix, text))
  }

  predicate AllGroupsMarked(groups: seq<Group>)
  {
    forall i :: 0 <= i < |groups| ==> AllMarked(groups[i].members)
  }

  /** The outcome of ProcessClass for each group, in group order. */
  function Sources(groups: seq<Group>): (r: seq<Option<GeneratedSource>>)
    requires AllGroupsMarked(groups)
    ensures |r| == |groups|
  {
    seq(|groups|, i requires 0 <= i < |groups| => GroupSource(groups[i]))
  }

  /** The values present in `outcomes`, in order. */
  function Present<T>(outcomes: seq<Option<T>>): (r: seq<T>)
    ensures |r| <= |outcomes|
  {
    if outcomes == [] then []
    else Present(outcomes[..|outcomes| - 1]) + Listed(outcomes[|outcomes| - 1])
  }

  /** When no outcome is missing, every one of them is present. */
  lemma {:induction false} PresentAll<T>(outcomes: seq<Option<T>>)
    requires forall i :: 0 <= i < |outcomes| ==> outcomes[i].Some?
    ensures |Present(outcomes)| == |outcomes|
  {
    if outcomes != [] {
      PresentAll(outcomes[..|outcomes| - 1]);
    }
  }

  function Listed<T>(o: Option<T>): seq<T>
  {
    if o.Some? then [o.value] else []
  }

  /** The sources generated for `groups`, in group order, skipping the groups whose type
      cannot be generated. */
  function Emit(groups: seq<Group>): (r: seq<GeneratedSource>)
    requires AllGroupsMarked(groups)
    ensures |r| <= |groups|
  {
    Present(Sources(groups))
  }

  /** When every owning type sits only inside types up to its namespace, every group
      yields a source. */
  lemma EveryGroupEmitted(groups: seq<Group>)
    requires AllGroupsMarked(groups)
    requires forall i :: 0 <= i < |groups| ==> AllTypeContainers(groups[i].key.containers)
    ensures |Emit(groups)| == |groups|
  {
    var outcomes := Sources(groups);
    assert forall i :: 0 <= i < |outcomes| ==> outcomes[i] == GroupSource(groups[i]);
    PresentAll(outcomes);
  }

  /** The body of the generation loop for one group: process the type and, when it can
      be generated, name the source after it. */
  method ProcessGroup(group: Group) returns (generated: Option<GeneratedSource>)
    requires AllMarked(group.members)
    ensures generated == GroupSource(group)
  {
    var classSource := ProcessClass(group.key, group.members, NotifyInterfaceName);
    if classSource.None? {
      return None;
    }
    var b := HintName(group.key);
    generated := Some(GeneratedSource(b + HintSuffix, classSource.value));
  }

  /** Runs one generation pass over what the receiver collected. Without a receiver
      nothing is generated. */
  method Execute(receiver: SyntaxReceiver?) returns (sources: seq<GeneratedSource>)
    requires receiver != null ==> receiver.Valid()
    ensures receiver == null ==> sources == []
    ensures receiver != null ==> AllGroupsMarked(GroupBy(receiver.fields)) && sources == Emit(GroupBy(receiver.fields))
  {
    sources := [];
    if receiver == null {
      return;
    }
    GroupsMarked(receiver.fields);
    sources := ProcessGroups(GroupBy(receiver.fields));
  }

  /** The generation loop: processes the groups in order, collecting the sources. */
  method ProcessGroups(groups: seq<Group>) returns (sources: seq<GeneratedSource>)
    requires AllGroupsMarked(groups)
    ensures sources == Emit(groups)
  {
    sources := [];
    ghost var outcomes := Sources(groups);
    for i := 0 to |groups|
      invariant sources == Present(outcomes[..i])
    {
      assert outcomes[..i + 1][..i] == outcomes[..i];
      var generated := ProcessGroup(groups[i]);
      assert outcomes[i] == generated;
      assert Present(outcomes[..i + 1]) == Present(outcomes[..i]) + Listed(generated);
      if generated.Some? {
        sources := sources + [generated.value];
      }
    }
    assert outcomes[..|groups|] == outcomes;
  }

  lemma GroupsMarked(fields: seq<FieldSymbol>)
    requires AllMarked(fields)
    ensures AllGroupsMarked(GroupBy(fields))
  {
  }

  lemma {:induction false} PresentMembership<T>(outcomes: seq<Option<T>>, x: T)
    ensures x in Present(outcomes) <==> Some(x) in outcomes
  {
    if outcomes != [] {
      var init, last := outcomes[..|outcomes| - 1], outcomes[|outcomes| - 1];
      assert outcomes == init + [last];
      PresentMembership(init, x);
    }
  }

  /** A source is emitted exactly when it is the source of one of the groups, which
      happens exactly for the groups whose type sits only inside types up to its
      namespace. */
  lemma EmitMembership(groups: seq<Group>, s: GeneratedSource)
    requires AllGroupsMarked(groups)
    ensures s in Emit(groups) <==> exists i :: 0 <= i < |groups| && GroupSource(groups[i]) == Some(s)
  {
    var outcomes := Sources(groups);
    PresentMembership(outcomes, s);
    if Some(s) in outcomes {
      var i :| 0 <= i < |outcomes| && outcomes[i] == Some(s);
      assert GroupSource(groups[i]) == Some(s);
    }
    if exists i :: 0 <= i < |groups| && GroupSource(groups[i]) == Some(s) {
      var i :| 0 <= i < |groups| && GroupSource(groups[i]) == Some(s);
      assert outcomes[i] == Some(s);
    }
  }

  /** The source of a group is named `<dotted chain>_autoNotify.cs` and its text opens
      exactly as many braces as it closes: one per containing type, plus the type itself
      and its namespace. */
  lemma GroupSourceWellFormed(g: Group)
    requires AllMarked(g.members)
    requires GroupSource(g).Some?
    ensures GroupSource(g).value.hintName == Dotted("", SymbolPath(g.key)) + HintSuffix
    ensures Openers(GroupSource(g).value.text) == |g.key.containers| + 2
    ensures Closers(GroupSource(g).value.text) == |g.key.containers| + 2
  {
    ClassSourceHeaders(g.key, g.members, NotifyInterfaceName);
  }

  /** Hence every emitted source is so named and so balanced. */
  lemma EmittedSourcesWellFormed(groups: seq<Group>, s: GeneratedSource)
    requires AllGroupsMarked(groups)
    requires s in Emit(groups)
    ensures exists i :: 0 <= i < |groups| && GroupSource(groups[i]) == Some(s)
              && s.hintName == Dotted("", SymbolPath(groups[i].key)) + HintSuffix
              && Openers(s.text) == Closers(s.text) == |groups[i].key.containers| + 2
  {
    EmitMembership(groups, s);
    var i :| 0 <= i < |groups| && GroupSource(groups[i]) == Some(s);
    GroupSourceWellFormed(groups[i]);
  }
}
