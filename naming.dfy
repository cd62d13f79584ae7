/** Derivation of a generated property's name from its backing field's name
    (the local function chooseName of ProcessField). */
module Naming {
  import opened Symbols

  predicate IsLowerAscii(c: char)
  {
    'a' <= c <= 'z'
  }

  /** Upper-casing of one character; only the ASCII letters are mapped. */
  function ToUpper(c: char): char
  {
    if IsLowerAscii(c) then (c as int - 32) as char else c
  }

  predicate AllUnderscores(s: string)
  {
    forall i :: 0 <= i < |s| ==> s[i] == '_'
  }

  /** `s` with its whole leading run of '_' removed (string.TrimStart('_')). */
  function TrimLeadingUnderscores(s: string): (r: string)
    ensures |r| <= |s| && r == s[|s| - |r|..]
    ensures r == [] || r[0] != '_'
    ensures AllUnderscores(s[..|s| - |r|])
    decreases |s|
  {
    if |s| > 0 && s[0] == '_' then TrimLeadingUnderscores(s[1..]) else s
  }

  /** The property name for a field: the override when one is given, otherwise the field
      name without its leading underscores and with its first character upper-cased. */
  function ChooseName(fieldName: string, overridden: Option<string>): (r: string)
    ensures overridden.Some? ==> r == overridden.value
    ensures overridden.None? ==> (r == [] <==> AllUnderscores(fieldName))
    ensures overridden.None? && r != [] ==>
              exists k :: 0 <= k < |fieldName| && AllUnderscores(fieldName[..k]) && fieldName[k] != '_'
                          && r == [ToUpper(fieldName[k])] + fieldName[k + 1..]
  {
    if overridden.Some? then overridden.value
    else
      var trimmed := TrimLeadingUnderscores(fieldName);
      var k := |fieldName| - |trimmed|;
      assert AllUnderscores(trimmed) ==> AllUnderscores(fieldName) by {
        if AllUnderscores(trimmed) {
          assert |trimmed| == 0;
          forall i | 0 <= i < |fieldName| ensures fieldName[i] == '_' {
            assert fieldName[i] == fieldName[..k][i];
          }
        }
      }
      if |trimmed| == 0 then ""
      else
        assert trimmed[0] == fieldName[k] && trimmed[1..] == fieldName[k + 1..];
        if |trimmed| == 1 then [ToUpper(trimmed[0])]
        else [ToUpper(trimmed[0])] + trimmed[1..]
  }

  /** Deriving a name from a name already derived changes nothing. */
  lemma ChooseNameIdempotent(fieldName: string)
    ensures ChooseName(ChooseName(fieldName, None), None) == ChooseName(fieldName, None)
  {
  }

  function Underscores(n: nat): (r: string)
    ensures |r| == n && AllUnderscores(r)
  {
    if n == 0 then "" else Underscores(n - 1) + "_"
  }

  /** However many underscores precede a name, the derived property name is the same. */
  lemma {:induction false} LeadingUnderscoresIrrelevant(n: nat, name: string)
    ensures ChooseName(Underscores(n) + name, None) == ChooseName(name, None)
  {
    if n > 0 {
      var s := Underscores(n) + name;
      assert s[0] == '_' && s[1..] == Underscores(n - 1) + name by {
        assert Underscores(n) == "_" + Underscores(n - 1) by { UnderscoresCons(n); }
      }
      assert TrimLeadingUnderscores(s) == TrimLeadingUnderscores(Underscores(n - 1) + name);
      TrimDetermines(s, Underscores(n - 1) + name);
      LeadingUnderscoresIrrelevant(n - 1, name);
    } else {
      assert Underscores(n) + name == name;
    }
  }

  lemma UnderscoresCons(n: nat)
    requires n > 0
    ensures Underscores(n) == "_" + Underscores(n - 1)
  {
  }

  /** Without an override, ChooseName depends on the field name only through its trimmed form. */
  lemma TrimDetermines(a: string, b: string)
    requires TrimLeadingUnderscores(a) == TrimLeadingUnderscores(b)
    ensures ChooseName(a, None) == ChooseName(b, None)
  {
  }

  /** Without an override a field is skipped exactly when its name is all underscores
      or already begins with a character other than '_' that upper-casing leaves alone. */
  lemma SkippedWithoutOverride(fieldName: string)
    ensures var r := ChooseName(fieldName, None);
            (r == [] || r == fieldName)
            <==> (AllUnderscores(fieldName)
                  || (|fieldName| > 0 && fieldName[0] != '_' && !IsLowerAscii(fieldName[0])))
  {
  }
}
