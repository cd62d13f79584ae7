/** The shape of the text ProcessClass generates: what it contains, in which order, and
    that every brace it opens is closed. */
module ClassLayout {
  import opened Symbols
  import opened GeneratedText
  import opened PropertyDerivation
  import opened ClassEmission

  /** One wrapper header per queued type, in queue order. */
  function Wrappers(queue: seq<TypeInfo>): seq<Fragment>
  {
    seq(|queue|, i requires 0 <= i < |queue| => WrapperHeader(queue[i]))
  }

  /** The properties generated for `fields`, in field order: each field contributes what
      ProcessField appends for it. */
  function Properties(fields: seq<FieldSymbol>): (r: seq<Fragment>)
    requires AllMarked(fields)
    ensures |r| <= |fields|
    ensures forall i :: 0 <= i < |r| ==> r[i].PropertyMember?
  {
    if fields == [] then [] else FieldSource(fields[0]) + Properties(fields[1..])
  }

  function Closes(n: nat): seq<Fragment>
  {
    seq(n, _ => CloseBrace)
  }

  /** The number of fragments that open a brace. */
  function Openers(text: seq<Fragment>): nat
  {
    if text == [] then 0 else Openers(text[..|text| - 1]) + (if text[|text| - 1].Opens() then 1 else 0)
  }

  /** The number of closing braces. */
  function Closers(text: seq<Fragment>): nat
  {
    if text == [] then 0 else Closers(text[..|text| - 1]) + (if text[|text| - 1].CloseBrace? then 1 else 0)
  }

  lemma {:induction false} OpenWrappersAppends(text: seq<Fragment>, queue: seq<TypeInfo>)
    ensures OpenWrappers(text, queue) == text + Wrappers(queue)
    decreases |queue|
  {
    if queue != [] {
      OpenWrappersAppends(text + [WrapperHeader(queue[0])], queue[1..]);
      assert Wrappers(queue) == [WrapperHeader(queue[0])] + Wrappers(queue[1..]);
    } else {
      assert text + Wrappers(queue) == text;
    }
  }

  lemma {:induction false} AppendClosesAppends(text: seq<Fragment>, n: nat)
    ensures AppendCloses(text, n) == text + Closes(n)
  {
    if n > 0 {
      AppendClosesAppends(text, n - 1);
      assert Closes(n) == Closes(n - 1) + [CloseBrace];
    } else {
      assert text + Closes(n) == text;
    }
  }

  lemma {:induction false} PropertiesSnoc(fields: seq<FieldSymbol>, f: FieldSymbol)
    requires AllMarked(fields) && HasMarker(f)
    ensures AllMarked(fields + [f])
    ensures Properties(fields + [f]) == Properties(fields) + FieldSource(f)
  {
    MarkedParts(fields, [f]);
    if fields != [] {
      assert (fields + [f])[1..] == fields[1..] + [f];
      PropertiesSnoc(fields[1..], f);
    } else {
      assert Properties([f]) == FieldSource(f) + Properties([]);
    }
  }

  lemma {:induction false} AppendPropertiesAppends(text: seq<Fragment>, fields: seq<FieldSymbol>)
    requires AllMarked(fields)
    ensures AppendProperties(text, fields) == text + Properties(fields)
  {
    if fields != [] {
      var init, last := fields[..|fields| - 1], fields[|fields| - 1];
      assert init + [last] == fields;
      AppendPropertiesAppends(text, init);
      PropertiesSnoc(init, last);
      calc {
        AppendProperties(text, fields);
        AppendProperties(text, init) + FieldSource(last);
        (text + Properties(init)) + FieldSource(last);
        text + (Properties(init) + FieldSource(last));
        text + Properties(fields);
      }
    } else {
      assert text + Properties(fields) == text;
    }
  }

  /** The generated text laid out declaratively, in order: the namespace header, one
      wrapper header per queued type, the class header naming the notification interface,
      the event unless the type already declares the interface, the fields' properties,
      and the closing braces. */
  function Layout(classSymbol: NamedType, queue: seq<TypeInfo>, fields: seq<FieldSymbol>, notify: string): seq<Fragment>
    requires AllMarked(fields)
  {
    Opening(classSymbol, queue, notify)
    + EventUnlessDeclared(classSymbol, notify)
    + Properties(fields)
    + Closes(|queue| + 2)
  }

  function EventUnlessDeclared(classSymbol: NamedType, notify: string): seq<Fragment>
  {
    if notify in classSymbol.interfaces then [] else [EventMember]
  }

  /** The text built step by step (wrappers opened one by one, fields processed one by
      one, braces closed one by one) is the declarative layout. */
  lemma ClassTextLayout(classSymbol: NamedType, queue: seq<TypeInfo>, fields: seq<FieldSymbol>, notify: string)
    requires AllMarked(fields)
    ensures ClassText(classSymbol, queue, fields, notify) == Layout(classSymbol, queue, fields, notify)
  {
    var n := |queue|;
    var wrapped := OpenWrappers([NamespaceHeader(classSymbol.ns.displayName)], queue);
    OpenWrappersAppends([NamespaceHeader(classSymbol.ns.displayName)], queue);
    var header := AppendClassHeader(wrapped, classSymbol, notify);
    assert header == wrapped + [ClassHeader(KindText(classSymbol.info), classSymbol.info.name, notify)]
                     + EventUnlessDeclared(classSymbol, notify);
    var body := AppendProperties(header, fields);
    AppendPropertiesAppends(header, fields);
    AppendClosesAppends(body, n);
    ClosingPair(body, n);
  }

  lemma ClosingPair(body: seq<Fragment>, n: nat)
    ensures body + Closes(n) + [CloseBrace] + [CloseBrace] == body + Closes(n + 2)
  {
  }

  lemma {:induction false} CountsAppend(a: seq<Fragment>, b: seq<Fragment>)
    ensures Openers(a + b) == Openers(a) + Openers(b)
    ensures Closers(a + b) == Closers(a) + Closers(b)
  {
    if b != [] {
      assert (a + b)[..|a + b| - 1] == a + b[..|b| - 1];
      CountsAppend(a, b[..|b| - 1]);
    } else {
      assert a + b == a;
    }
  }

  lemma {:induction false} OpenersOnly(text: seq<Fragment>)
    requires forall i :: 0 <= i < |text| ==> text[i].Opens()
    ensures Openers(text) == |text| && Closers(text) == 0
  {
    if text != [] {
      OpenersOnly(text[..|text| - 1]);
    }
  }

  lemma {:induction false} ClosersOnly(text: seq<Fragment>)
    requires forall i :: 0 <= i < |text| ==> text[i].CloseBrace?
    ensures Openers(text) == 0 && Closers(text) == |text|
  {
    if text != [] {
      ClosersOnly(text[..|text| - 1]);
    }
  }

  lemma {:induction false} MembersOnly(text: seq<Fragment>)
    requires forall i :: 0 <= i < |text| ==> text[i].PropertyMember? || text[i].EventMember?
    ensures Openers(text) == 0 && Closers(text) == 0
  {
    if text != [] {
      MembersOnly(text[..|text| - 1]);
    }
  }

  lemma WrappersCounts(queue: seq<TypeInfo>)
    ensures Openers(Wrappers(queue)) == |queue| && Closers(Wrappers(queue)) == 0
  {
    OpenersOnly(Wrappers(queue));
  }

  lemma ClosesCounts(n: nat)
    ensures Openers(Closes(n)) == 0 && Closers(Closes(n)) == n
  {
    ClosersOnly(Closes(n));
  }

  lemma MemberCounts(classSymbol: NamedType, notify: string, fields: seq<FieldSymbol>)
    requires AllMarked(fields)
    ensures Openers(EventUnlessDeclared(classSymbol, notify) + Properties(fields)) == 0
    ensures Closers(EventUnlessDeclared(classSymbol, notify) + Properties(fields)) == 0
  {
    MembersOnly(EventUnlessDeclared(classSymbol, notify) + Properties(fields));
  }

  /** The layout opens exactly as many braces as it closes: one per wrapper, plus the
      class and the namespace. */
  lemma LayoutBalanced(classSymbol: NamedType, queue: seq<TypeInfo>, fields: seq<FieldSymbol>, notify: string)
    requires AllMarked(fields)
    ensures Openers(Layout(classSymbol, queue, fields, notify)) == |queue| + 2
    ensures Closers(Layout(classSymbol, queue, fields, notify)) == |queue| + 2
  {
    var opening := Opening(classSymbol, queue, notify);
    var members := EventUnlessDeclared(classSymbol, notify) + Properties(fields);
    var closes := Closes(|queue| + 2);
    assert Layout(classSymbol, queue, fields, notify) == opening + members + closes;
    WrappersCounts(queue);
    CountsAppend([NamespaceHeader(classSymbol.ns.displayName)], Wrappers(queue));
    CountsAppend([NamespaceHeader(classSymbol.ns.displayName)] + Wrappers(queue),
                 [ClassHeader(KindText(classSymbol.info), classSymbol.info.name, notify)]);
    MemberCounts(classSymbol, notify, fields);
    ClosesCounts(|queue| + 2);
    CountsAppend(opening, members);
    CountsAppend(opening + members, closes);
  }

  /** Where the headers sit in the layout: the namespace first, then the wrappers in
      queue order, then the class header, directly followed by the event exactly when
      the type does not already declare the notification interface. */
  lemma {:induction false} LayoutHeaders(classSymbol: NamedType, queue: seq<TypeInfo>, fields: seq<FieldSymbol>, notify: string)
    requires AllMarked(fields)
    ensures var text := Layout(classSymbol, queue, fields, notify);
            && |text| >= |queue| + 4
            && text[0] == NamespaceHeader(classSymbol.ns.displayName)
            && (forall i :: 0 <= i < |queue| ==> text[1 + i] == WrapperHeader(queue[i]))
            && text[|queue| + 1] == ClassHeader(KindText(classSymbol.info), classSymbol.info.name, notify)
            && (text[|queue| + 2] == EventMember <==> notify !in classSymbol.interfaces)
  {
    var opening := Opening(classSymbol, queue, notify);
    OpeningHeaders(classSymbol, queue, notify);
    var event := EventUnlessDeclared(classSymbol, notify);
    var properties := Properties(fields);
    var closes := Closes(|queue| + 2);
    var text := opening + event + properties + closes;
    assert text == Layout(classSymbol, queue, fields, notify);
    forall k | 0 <= k < |opening|
      ensures text[k] == opening[k]
    {
      assert (opening + event)[k] == opening[k];
      assert (opening + event + properties)[k] == opening[k];
    }
    var after := text[|opening|];
    if notify in classSymbol.interfaces {
      assert after == (properties + closes)[0];
      assert after.PropertyMember? || after.CloseBrace?;
    } else {
      assert after == EventMember;
    }
  }

  /** The headers ahead of the members: namespace, wrappers, class. */
  function Opening(classSymbol: NamedType, queue: seq<TypeInfo>, notify: string): seq<Fragment>
  {
    [NamespaceHeader(classSymbol.ns.displayName)] + Wrappers(queue)
    + [ClassHeader(KindText(classSymbol.info), classSymbol.info.name, notify)]
  }

  lemma OpeningHeaders(classSymbol: NamedType, queue: seq<TypeInfo>, notify: string)
    ensures var opening := Opening(classSymbol, queue, notify);
            && |opening| == |queue| + 2
            && opening[0] == NamespaceHeader(classSymbol.ns.displayName)
            && (forall i :: 0 <= i < |queue| ==> opening[1 + i] == WrapperHeader(queue[i]))
            && opening[|queue| + 1] == ClassHeader(KindText(classSymbol.info), classSymbol.info.name, notify)
  {
  }

  /** The text opens the namespace, then one wrapper per queued type in queue order,
      then the class naming the notification interface, directly followed by the event
      exactly when the type does not already declare the interface; it opens and closes
      one brace per wrapper plus two. */
  predicate WellShaped(text: seq<Fragment>, classSymbol: NamedType, queue: seq<TypeInfo>, notify: string)
  {
    && |text| >= |queue| + 4
    && text[0] == NamespaceHeader(classSymbol.ns.displayName)
    && (forall k :: 0 <= k < |queue| ==> text[1 + k] == WrapperHeader(queue[k]))
    && text[|queue| + 1] == ClassHeader(KindText(classSymbol.info), classSymbol.info.name, notify)
    && (text[|queue| + 2] == EventMember <==> notify !in classSymbol.interfaces)
    && Openers(text) == |queue| + 2 && Closers(text) == |queue| + 2
  }

  lemma ClassTextShape(classSymbol: NamedType, queue: seq<TypeInfo>, fields: seq<FieldSymbol>, notify: string)
    requires AllMarked(fields)
    ensures WellShaped(ClassText(classSymbol, queue, fields, notify), classSymbol, queue, notify)
  {
    ClassTextLayout(classSymbol, queue, fields, notify);
    LayoutHeaders(classSymbol, queue, fields, notify);
    LayoutBalanced(classSymbol, queue, fields, notify);
  }

  /** As ProcessClass is written: the wrappers are opened in the order the walk met the
      containers, so the immediate container is opened first (just inside the namespace)
      and the outermost one last (just around the class). */
  lemma ClassSourceHeaders(classSymbol: NamedType, fields: seq<FieldSymbol>, notify: string)
    requires AllMarked(fields)
    requires AllTypeContainers(classSymbol.containers)
    ensures var text := ClassSource(classSymbol, fields, notify).value;
            var n := |classSymbol.containers|;
            && |text| >= n + 4
            && text[0] == NamespaceHeader(classSymbol.ns.displayName)
            && (forall i :: 0 <= i < n ==> text[1 + i] == WrapperHeader(classSymbol.containers[i].info))
            && text[n + 1] == ClassHeader(KindText(classSymbol.info), classSymbol.info.name, notify)
            && (text[n + 2] == EventMember <==> notify !in classSymbol.interfaces)
            && Openers(text) == n + 2 && Closers(text) == n + 2
  {
    var queue := ContainerTypes(classSymbol.containers);
    var text := ClassSource(classSymbol, fields, notify).value;
    assert text == ClassText(classSymbol, queue, fields, notify);
    ClassTextShape(classSymbol, queue, fields, notify);
  }

  /** The corrected order: the outermost container is opened first and the immediate
      container last, so each wrapper lies inside the wrapper of the type that declares
      it, as in the source the generated file is merged with. */
  lemma CorrectedClassSourceHeaders(classSymbol: NamedType, fields: seq<FieldSymbol>, notify: string)
    requires AllMarked(fields)
    requires AllTypeContainers(classSymbol.containers)
    ensures var text := CorrectedClassSource(classSymbol, fields, notify).value;
            var n := |classSymbol.containers|;
            && |text| >= n + 4
            && text[0] == NamespaceHeader(classSymbol.ns.displayName)
            && (forall i :: 1 <= i <= n ==> text[i] == WrapperHeader(classSymbol.containers[n - i].info))
            && text[n + 1] == ClassHeader(KindText(classSymbol.info), classSymbol.info.name, notify)
            && (text[n + 2] == EventMember <==> notify !in classSymbol.interfaces)
            && Openers(text) == n + 2 && Closers(text) == n + 2
  {
    var n := |classSymbol.containers|;
    var types := ContainerTypes(classSymbol.containers);
    var queue := Reversed(types);
    var text := CorrectedClassSource(classSymbol, fields, notify).value;
    assert text == ClassText(classSymbol, queue, fields, notify);
    ClassTextShape(classSymbol, queue, fields, notify);
    forall i | 1 <= i <= n
      ensures text[i] == WrapperHeader(classSymbol.containers[n - i].info)
    {
      OutermostFirst(types, text, i);
    }
  }

  /** Wrappers opened in reversed walk order start from the last type walked. */
  lemma OutermostFirst(types: seq<TypeInfo>, text: seq<Fragment>, i: int)
    requires |text| > |types|
    requires forall k :: 0 <= k < |types| ==> text[1 + k] == WrapperHeader(Reversed(types)[k])
    requires 1 <= i <= |types|
    ensures text[i] == WrapperHeader(types[|types| - i])
  {
    assert text[1 + (i - 1)] == WrapperHeader(Reversed(types)[i - 1]);
  }

  /** For a type nested in at most one other type the two orders coincide. */
  lemma OrdersAgreeWhenShallow(classSymbol: NamedType, fields: seq<FieldSymbol>, notify: string)
    requires AllMarked(fields)
    requires |classSymbol.containers| <= 1
    ensures CorrectedClassSource(classSymbol, fields, notify) == ClassSource(classSymbol, fields, notify)
  {
    var queue := ContainerTypes(classSymbol.containers);
    assert Reversed(queue) == queue;
  }

  /** A class Inner declared in Middle, itself declared in Outer: ProcessClass as written
      opens Middle directly inside the namespace and Outer inside Middle, so the generated
      partial declarations do not merge with the declared Outer.Middle.Inner. */
  lemma NestedWrappersInverted()
    ensures var outer := TypeInfo("Outer", "Outer", Class, false);
            var middle := TypeInfo("Middle", "Middle", Class, false);
            var inner := NamedType(TypeInfo("Inner", "Inner", Class, false), [],
                                   [TypeContainer(middle), TypeContainer(outer)], Namespace("N", "N"), []);
            var asWritten := ClassSource(inner, [], "I").value;
            var corrected := CorrectedClassSource(inner, [], "I").value;
            && asWritten[1] == TypeHeader("class", "Middle") && asWritten[2] == TypeHeader("class", "Outer")
            && corrected[1] == TypeHeader("class", "Outer") && corrected[2] == TypeHeader("class", "Middle")
  {
  }
}
