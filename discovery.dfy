/** Discovery of candidate fields during the syntax walk (SyntaxReceiver). */
module Discovery {
  import opened Symbols

  /** One declarator of a field declaration, with the field symbol the semantic model
      reports for it. */
  datatype VariableDeclarator = VariableDeclarator(declaredSymbol: FieldSymbol)

  /** The syntax nodes the receiver is shown: field declarations (with the number of
      attribute lists written on them) and every other node. */
  datatype SyntaxNode =
    | FieldDeclaration(attributeLists: nat, variables: seq<VariableDeclarator>)
    | OtherNode

  /** The fields the declarators of a node contribute, in declaration order: for a field
      declaration carrying at least one attribute list, the declared symbols that carry
      the marker; for anything else, none. */
  function Discovered(node: SyntaxNode): (r: seq<FieldSymbol>)
    ensures AllMarked(r)
  {
    if node.OtherNode? || node.attributeLists == 0 then []
    else AnnotatedSymbols(node.variables)
  }

  function AnnotatedSymbols(variables: seq<VariableDeclarator>): (r: seq<FieldSymbol>)
    ensures |r| <= |variables|
    ensures AllMarked(r)
  {
    if variables == [] then []
    else
      var init, last := variables[..|variables| - 1], variables[|variables| - 1];
      AnnotatedSymbols(init) + (if HasMarker(last.declaredSymbol) then [last.declaredSymbol] else [])
  }

  lemma AnnotatedStep(variables: seq<VariableDeclarator>, i: nat)
    requires i < |variables|
    ensures var v := variables[i].declaredSymbol;
            AnnotatedSymbols(variables[..i + 1])
            == AnnotatedSymbols(variables[..i]) + (if HasMarker(v) then [v] else [])
  {
    assert variables[..i + 1][..i] == variables[..i];
  }

  /** A declared symbol is kept exactly when it carries the marker. */
  lemma {:induction false} AnnotatedMembership(variables: seq<VariableDeclarator>, f: FieldSymbol)
    ensures f in AnnotatedSymbols(variables) <==> HasMarker(f) && exists v :: v in variables && v.declaredSymbol == f
  {
    if variables != [] {
      var init, last := variables[..|variables| - 1], variables[|variables| - 1];
      assert variables == init + [last];
      AnnotatedMembership(init, f);
      if exists v :: v in variables && v.declaredSymbol == f {
        var v :| v in variables && v.declaredSymbol == f;
        assert v in init || v == last;
      }
    }
  }

  /** A field is discovered in a node exactly when the node is a field declaration with
      an attribute list, one of its declarators declares the field, and the field carries
      the marker. */
  lemma DiscoveredMembership(node: SyntaxNode, f: FieldSymbol)
    ensures f in Discovered(node) <==>
              node.FieldDeclaration? && node.attributeLists > 0 && HasMarker(f)
              && exists v :: v in node.variables && v.declaredSymbol == f
  {
    if node.FieldDeclaration? {
      AnnotatedMembership(node.variables, f);
    }
  }

  /** Collects, over the whole syntax walk, the fields to generate properties for. */
  class SyntaxReceiver {
    var fields: seq<FieldSymbol>

    /** Every collected field carries the marker. */
    predicate Valid()
      reads this
    {
      AllMarked(fields)
    }

    constructor ()
      ensures fields == []
      ensures Valid()
    {
      fields := [];
    }

    /** Visits one node, appending the annotated fields it declares. */
    method OnVisitSyntaxNode(node: SyntaxNode)
      requires Valid()
      modifies this
      ensures fields == old(fields) + Discovered(node)
      ensures Valid()
    {
      if node.FieldDeclaration? && node.attributeLists > 0 {
        var variables := node.variables;
        var i := 0;
        while i < |variables|
          invariant 0 <= i <= |variables|
          invariant fields == old(fields) + AnnotatedSymbols(variables[..i])
        {
          var fieldSymbol := variables[i].declaredSymbol;
          AnnotatedStep(variables, i);
          if HasMarker(fieldSymbol) {
            fields := fields + [fieldSymbol];
          }
          i := i + 1;
        }
        assert variables[..|variables|] == variables;
      }
      MarkedParts(old(fields), Discovered(node));
    }
  }

  /** The fields collected over a walk of `nodes`, in visiting order. */
  function Walk(nodes: seq<SyntaxNode>): (r: seq<FieldSymbol>)
    ensures AllMarked(r)
  {
    if nodes == [] then [] else Walk(nodes[..|nodes| - 1]) + Discovered(nodes[|nodes| - 1])
  }

  /** Visiting one more node extends the walk's fields exactly as OnVisitSyntaxNode
      extends the receiver's list, so a new receiver that has visited `nodes` in order
      holds Walk(nodes). */
  lemma WalkStep(nodes: seq<SyntaxNode>, node: SyntaxNode)
    ensures Walk(nodes + [node]) == Walk(nodes) + Discovered(node)
  {
    assert (nodes + [node])[..|nodes|] == nodes;
  }

  /** A field is collected over a walk exactly when some visited field declaration with an
      attribute list declares it and it carries the marker. */
  lemma {:induction false} WalkCollects(nodes: seq<SyntaxNode>, f: FieldSymbol)
    ensures f in Walk(nodes) <==>
              HasMarker(f) && exists n :: n in nodes && n.FieldDeclaration? && n.attributeLists > 0
                                          && exists v :: v in n.variables && v.declaredSymbol == f
  {
    if nodes != [] {
      var init, last := nodes[..|nodes| - 1], nodes[|nodes| - 1];
      assert nodes == init + [last];
      WalkCollects(init, f);
      DiscoveredMembership(last, f);
      if f in Discovered(last) {
        assert last in nodes;
      }
      if !(f in Walk(init)) && !(f in Discovered(last)) {
        forall n | n in nodes && n.FieldDeclaration? && n.attributeLists > 0
          ensures !(HasMarker(f) && exists v :: v in n.variables && v.declaredSymbol == f)
        {
          assert n in init || n == last;
          if n in init {
            DiscoveredMembership(n, f);
          }
        }
      }
    }
  }
}
