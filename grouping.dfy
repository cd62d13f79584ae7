/** Grouping of the discovered fields by their containing type, as Execute's
    `GroupBy(f => f.ContainingType)` does it: one group per distinct owning type, in order
    of first occurrence, each holding that type's fields in their original order. */
module Grouping {
  import opened Symbols

  datatype Group = Group(key: NamedType, members: seq<FieldSymbol>)

  predicate Distinct<T(==)>(s: seq<T>)
  {
    forall i, j :: 0 <= i < j < |s| ==> s[i] != s[j]
  }

  /** The distinct containing types of `fields`, in order of first occurrence. */
  function Owners(fields: seq<FieldSymbol>): (r: seq<NamedType>)
    ensures |r| <= |fields|
    ensures Distinct(r)
    ensures forall t :: t in r <==> exists f :: f in fields && f.containingType == t
  {
    if fields == [] then []
    else
      var init, last := fields[..|fields| - 1], fields[|fields| - 1];
      var owners := Owners(init);
      assert forall f :: f in fields <==> f in init || f == last by {
        assert fields == init + [last];
      }
      if last.containingType in owners then owners else owners + [last.containingType]
  }

  /** The fields of `fields` whose containing type is `key`, in their original order. */
  function MembersOf(fields: seq<FieldSymbol>, key: NamedType): (r: seq<FieldSymbol>)
    ensures |r| <= |fields|
    ensures forall f :: f in r <==> f in fields && f.containingType == key
    ensures |fields| == 1 ==> r == (if fields[0].containingType == key then fields else [])
  {
    if fields == [] then []
    else
      var init, last := fields[..|fields| - 1], fields[|fields| - 1];
      assert forall f :: f in fields <==> f in init || f == last by {
        assert fields == init + [last];
      }
      MembersOf(init, key) + (if last.containingType == key then [last] else [])
  }

  function GroupsFor(fields: seq<FieldSymbol>, keys: seq<NamedType>): seq<Group>
  {
    seq(|keys|, i requires 0 <= i < |keys| => Group(keys[i], MembersOf(fields, keys[i])))
  }

  /** The groups, one per owning type, in order of first occurrence. */
  function GroupBy(fields: seq<FieldSymbol>): (r: seq<Group>)
    ensures |r| <= |fields|
    ensures forall i, j :: 0 <= i < j < |r| ==> r[i].key != r[j].key
  {
    GroupsFor(fields, Owners(fields))
  }

  /** A group lists its fields in their original order: the members drawn from a
      concatenation are those drawn from its first part followed by those drawn from
      its second. */
  lemma {:induction false} MembersKeepOrder(a: seq<FieldSymbol>, b: seq<FieldSymbol>, key: NamedType)
    ensures MembersOf(a + b, key) == MembersOf(a, key) + MembersOf(b, key)
  {
    if b == [] {
      assert a + b == a;
    } else {
      var init, last := b[..|b| - 1], b[|b| - 1];
      assert (a + b)[..|a + b| - 1] == a + init;
      assert (a + b)[|a + b| - 1] == last;
      MembersKeepOrder(a, init, key);
    }
  }

  /** The members of all groups, group after group. */
  function Flatten(groups: seq<Group>): seq<FieldSymbol>
  {
    if groups == [] then [] else Flatten(groups[..|groups| - 1]) + groups[|groups| - 1].members
  }

  /** Every group is non-empty, its key is the containing type of each of its members,
      and a field lies in a group exactly when it is one of the grouped fields and the
      group's key is its containing type; the keys are distinct, so each field lies in
      exactly one group. */
  lemma GroupByPartitions(fields: seq<FieldSymbol>)
    ensures var groups := GroupBy(fields);
            && (forall i, j :: 0 <= i < j < |groups| ==> groups[i].key != groups[j].key)
            && (forall i :: 0 <= i < |groups| ==> groups[i].members != [])
            && (forall i, f :: 0 <= i < |groups| ==>
                  (f in groups[i].members <==> f in fields && f.containingType == groups[i].key))
            && (forall f :: f in fields ==> exists i :: 0 <= i < |groups| && f in groups[i].members)
  {
    var groups := GroupBy(fields);
    var owners := Owners(fields);
    forall i | 0 <= i < |groups| ensures groups[i].members != [] {
      assert owners[i] in owners;
      var f :| f in fields && f.containingType == owners[i];
      assert f in groups[i].members;
    }
    forall f | f in fields ensures exists i :: 0 <= i < |groups| && f in groups[i].members {
      assert f.containingType in owners;
      var i :| 0 <= i < |owners| && owners[i] == f.containingType;
      assert f in groups[i].members;
    }
  }

  /** Grouping marked fields yields groups of marked fields. */
  lemma GroupsStayMarked(fields: seq<FieldSymbol>)
    requires AllMarked(fields)
    ensures forall g :: g in GroupBy(fields) ==> AllMarked(g.members)
  {
  }

  /** Appending one field adds it to the group of its containing type, if that type is
      among the keys. */
  lemma {:induction false} FlattenSnoc(fields: seq<FieldSymbol>, f: FieldSymbol, keys: seq<NamedType>)
    requires Distinct(keys)
    ensures multiset(Flatten(GroupsFor(fields + [f], keys)))
            == multiset(Flatten(GroupsFor(fields, keys)))
               + (if f.containingType in keys then multiset{f} else multiset{})
  {
    if keys != [] {
      var init, last := keys[..|keys| - 1], keys[|keys| - 1];
      assert GroupsFor(fields + [f], keys)[..|keys| - 1] == GroupsFor(fields + [f], init);
      assert GroupsFor(fields, keys)[..|keys| - 1] == GroupsFor(fields, init);
      assert (fields + [f])[..|fields + [f]| - 1] == fields;
      assert f.containingType in keys <==> f.containingType in init || f.containingType == last by {
        assert keys == init + [last];
      }
      assert last !in init;
      FlattenSnoc(fields, f, init);
    }
  }

  /** Grouping over distinct keys that cover every field's containing type loses no field
      and adds none. */
  lemma {:induction false} FlattenCovers(fields: seq<FieldSymbol>, keys: seq<NamedType>)
    requires Distinct(keys)
    requires forall f :: f in fields ==> f.containingType in keys
    ensures multiset(Flatten(GroupsFor(fields, keys))) == multiset(fields)
  {
    if fields == [] {
      NoMembers(keys);
    } else {
      var init, last := fields[..|fields| - 1], fields[|fields| - 1];
      assert init + [last] == fields;
      FlattenCovers(init, keys);
      FlattenSnoc(init, last, keys);
    }
  }

  lemma {:induction false} NoMembers(keys: seq<NamedType>)
    ensures Flatten(GroupsFor([], keys)) == []
  {
    if keys != [] {
      assert GroupsFor([], keys)[..|keys| - 1] == GroupsFor([], keys[..|keys| - 1]);
      NoMembers(keys[..|keys| - 1]);
    }
  }

  /** The groups, read one after the other, are a permutation of the grouped fields. */
  lemma GroupByPermutes(fields: seq<FieldSymbol>)
    ensures multiset(Flatten(GroupBy(fields))) == multiset(fields)
  {
    FlattenCovers(fields, Owners(fields));
  }
}
