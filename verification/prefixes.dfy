/** CURIE expansion against a frozen prefix subset. The global catalog of
    popular prefixes is a parameter: its contents are not part of this
    model. */
module Prefixes {
  import opened Results

  /** Prefix name to namespace URI. */
  type Catalog = map<string, string>

  predicate NoColon(s: string) {
    forall i :: 0 <= i < |s| ==> s[i] != ':'
  }

  /** The position of the first ':' in `s`, if any. */
  function FirstColon(s: string): (r: Option<nat>)
    ensures r.None? <==> NoColon(s)
    ensures r.Some? ==> r.value < |s| && s[r.value] == ':' && NoColon(s[..r.value])
  {
    if |s| == 0 then None
    else if s[0] == ':' then Some(0)
    else
      match FirstColon(s[1..])
      case None => None
      case Some(i) =>
        assert s[..i + 1] == [s[0]] + s[1..][..i];
        Some(i + 1)
  }

  /** A CURIE `prefix:reference` cut at its first ':'. */
  function ParseCurie(curie: string): (r: Option<(string, string)>)
    ensures r.None? <==> NoColon(curie)
    ensures r.Some? ==> NoColon(r.value.0) && curie == r.value.0 + ":" + r.value.1
  {
    match FirstColon(curie)
    case None => None
    case Some(i) =>
      assert curie == curie[..i] + ":" + curie[i + 1..];
      Some((curie[..i], curie[i + 1..]))
  }

  /** Reading a CURIE back gives the prefix and reference it was written from. */
  lemma ParseCurieRoundTrip(prefix: string, reference: string)
    requires NoColon(prefix)
    ensures ParseCurie(prefix + ":" + reference) == Some((prefix, reference))
  {
    var curie := prefix + ":" + reference;
    var r := ParseCurie(curie);
    assert curie[|prefix|] == ':';
    assert !NoColon(curie);
    var p := r.value.0;
    assert p == prefix;
    assert r.value.1 == curie[|prefix| + 1..] == reference;
  }

  /** `createSubset(names...)`: the catalog entries for the named prefixes. */
  function CreateSubset(catalog: Catalog, names: seq<string>): (sub: Catalog)
    ensures forall p :: p in sub <==> p in names && p in catalog
    ensures forall p :: p in sub ==> sub[p] == catalog[p]
  {
    map p | p in names && p in catalog :: catalog[p]
  }

  /** `expand(curie)`: the namespace of the prefix followed by the
      reference, or `None` (Java `null`) when the CURIE has no ':' or its
      prefix is outside the subset. */
  function Expand(sub: Catalog, curie: string): (r: Option<string>)
    ensures r.Some? ==> ParseCurie(curie).Some? && ParseCurie(curie).value.0 in sub
    ensures r.Some? ==> curie == ParseCurie(curie).value.0 + ":" + ParseCurie(curie).value.1
  {
    match ParseCurie(curie)
    case None => None
    case Some((prefix, reference)) =>
      if prefix in sub then Some(sub[prefix] + reference) else None
  }

  /** A CURIE resolves within a subset exactly when its prefix was one of
      the names the subset was created from and the catalog knows it; the
      result is then that namespace followed by the reference. */
  lemma ExpandInSubset(catalog: Catalog, names: seq<string>, prefix: string, reference: string)
    requires NoColon(prefix)
    ensures Expand(CreateSubset(catalog, names), prefix + ":" + reference).Some?
        <==> prefix in names && prefix in catalog
    ensures prefix in names && prefix in catalog ==>
        Expand(CreateSubset(catalog, names), prefix + ":" + reference) == Some(catalog[prefix] + reference)
  {
    ParseCurieRoundTrip(prefix, reference);
  }
}
