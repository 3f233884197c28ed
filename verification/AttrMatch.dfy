/** Searches over one record's attribute list: the template filter used by
    object search, and the two first-match lookups. Each scan stops at the
    first hit, as the record's list is walked in order; results that point
    into the record are list indices. */
module AttrMatch {
  import opened Pkcs11

  /** The filter's per-attribute test: equal type, equal length, and the
      first `length` bytes equal (nothing is compared when the length is 0). */
  predicate SameAttr(compare: Attribute, search: Attribute) {
    && compare.atype == search.atype
    && compare.Len() == search.Len()
    && compare.value[..search.Len()] == search.value[..search.Len()]
  }

  /** The type/length/bytes test is exactly attribute equality. */
  lemma SameAttrIsEquality(compare: Attribute, search: Attribute)
    ensures SameAttr(compare, search) <==> compare == search
  {
  }

  /** The inner loop of the filter: is `search` among `attrs[j..]`? */
  function HasMatchFrom(attrs: seq<Attribute>, search: Attribute, j: nat): (found: bool)
    requires j <= |attrs|
    ensures found <==> exists k :: j <= k < |attrs| && attrs[k] == search
    decreases |attrs| - j
  {
    if j == |attrs| then false
    else if SameAttr(attrs[j], search) then (SameAttrIsEquality(attrs[j], search); true)
    else (SameAttrIsEquality(attrs[j], search); HasMatchFrom(attrs, search, j + 1))
  }

  /** The outer loop of the filter: does every entry of `templ[i..]` occur in `attrs`? */
  function FilterFrom(attrs: seq<Attribute>, templ: seq<Attribute>, i: nat): (matched: bool)
    requires i <= |templ|
    ensures matched <==> forall k :: i <= k < |templ| ==> templ[k] in attrs
    decreases |templ| - i
  {
    if i == |templ| then true
    else if !HasMatchFrom(attrs, templ[i], 0) then false
    else FilterFrom(attrs, templ, i + 1)
  }

  /** `object_attr_filter`: a record passes a search template when the template
      is a sub-collection of its attributes; an empty template passes every
      record. */
  function AttrFilter(attrs: seq<Attribute>, templ: seq<Attribute>): (matched: bool)
    ensures |templ| == 0 ==> matched
    ensures matched <==> forall k :: 0 <= k < |templ| ==> templ[k] in attrs
  {
    if |templ| == 0 then true
    else FilterFrom(attrs, templ, 0)
  }

  /** A record that fails the filter lacks some template attribute. */
  lemma FilterFailsOnMissing(attrs: seq<Attribute>, templ: seq<Attribute>)
    requires !AttrFilter(attrs, templ)
    ensures exists k :: 0 <= k < |templ| &&
                        (forall j :: 0 <= j < |attrs| ==> !SameAttr(attrs[j], templ[k]))
  {
    var k :| 0 <= k < |templ| && templ[k] !in attrs;
    forall j | 0 <= j < |attrs|
      ensures !SameAttr(attrs[j], templ[k])
    {
      SameAttrIsEquality(attrs[j], templ[k]);
    }
  }

  /** Attributes added to a record never make it fail a template it passed. */
  lemma FilterKeptByAppend(attrs: seq<Attribute>, extra: seq<Attribute>, templ: seq<Attribute>)
    requires AttrFilter(attrs, templ)
    ensures AttrFilter(attrs + extra, templ)
  {
  }

  /** Is `i` the position of the first attribute of type `atype`? */
  ghost predicate IsFirstOfType(attrs: seq<Attribute>, atype: nat, i: nat) {
    i < |attrs| && attrs[i].atype == atype &&
    forall k :: 0 <= k < i ==> attrs[k].atype != atype
  }

  function ByTypeFrom(attrs: seq<Attribute>, atype: nat, i: nat): (r: Option<nat>)
    requires i <= |attrs|
    requires forall k :: 0 <= k < i ==> attrs[k].atype != atype
    ensures r.Some? ==> IsFirstOfType(attrs, atype, r.value)
    ensures r.None? ==> forall k :: 0 <= k < |attrs| ==> attrs[k].atype != atype
    decreases |attrs| - i
  {
    if i == |attrs| then None
    else if attrs[i].atype == atype then Some(i)
    else ByTypeFrom(attrs, atype, i + 1)
  }

  /** `object_get_attribute_by_type`: the position of the first attribute of
      type `atype`, or none when the record has no attribute of that type. */
  function AttributeByType(attrs: seq<Attribute>, atype: nat): (r: Option<nat>)
    ensures r.Some? ==> IsFirstOfType(attrs, atype, r.value)
    ensures r.None? <==> forall k :: 0 <= k < |attrs| ==> attrs[k].atype != atype
  {
    ByTypeFrom(attrs, atype, 0)
  }

  /** Is `i` the position of the first attribute equal to `probe`? */
  ghost predicate IsFirstEqual(attrs: seq<Attribute>, probe: Attribute, i: nat) {
    i < |attrs| && attrs[i] == probe &&
    forall k :: 0 <= k < i ==> attrs[k] != probe
  }

  function FullFrom(attrs: seq<Attribute>, probe: Attribute, i: nat): (r: Option<nat>)
    requires i <= |attrs|
    requires forall k :: 0 <= k < i ==> attrs[k] != probe
    ensures r.Some? ==> IsFirstEqual(attrs, probe, r.value)
    ensures r.None? ==> probe !in attrs
    decreases |attrs| - i
  {
    if i == |attrs| then None
    else
      var a := attrs[i];
      SameAttrIsEquality(a, probe);
      if a.atype == probe.atype && a.Len() == probe.Len() then
        if a.Len() > 0 && a.value[..probe.Len()] != probe.value[..probe.Len()] then
          FullFrom(attrs, probe, i + 1)
        else
          Some(i)
      else
        FullFrom(attrs, probe, i + 1)
  }

  /** `object_get_attribute_full`: the position of the first attribute with the
      probe's type and length whose bytes also match when the length is
      positive, that is, the first attribute equal to the probe. */
  function AttributeFull(attrs: seq<Attribute>, probe: Attribute): (r: Option<nat>)
    ensures r.Some? ==> IsFirstEqual(attrs, probe, r.value)
    ensures r.None? <==> probe !in attrs
  {
    FullFrom(attrs, probe, 0)
  }

  /** The exact lookup and the filter agree: a record holds the probe exactly
      when it passes the one-entry template made of the probe. */
  lemma FullAgreesWithFilter(attrs: seq<Attribute>, probe: Attribute)
    ensures AttributeFull(attrs, probe).Some? <==> AttrFilter(attrs, [probe])
  {
  }

  /** Where the exact lookup succeeds, the lookup by type succeeds at the same
      place or earlier. */
  lemma ByTypeNoLaterThanFull(attrs: seq<Attribute>, probe: Attribute)
    requires AttributeFull(attrs, probe).Some?
    ensures AttributeByType(attrs, probe.atype).Some?
    ensures AttributeByType(attrs, probe.atype).value <= AttributeFull(attrs, probe).value
  {
  }

  /** Appending attributes leaves every earlier lookup by type where it was;
      a type first added by the appended list is found in the new tail. */
  lemma {:induction false} ByTypeUnderAppend(attrs: seq<Attribute>, extra: seq<Attribute>, atype: nat)
    ensures AttributeByType(attrs, atype).Some? ==>
      AttributeByType(attrs + extra, atype) == AttributeByType(attrs, atype)
    ensures AttributeByType(attrs, atype).None? ==>
      match AttributeByType(extra, atype)
      case None => AttributeByType(attrs + extra, atype).None?
      case Some(j) => AttributeByType(attrs + extra, atype) == Some(|attrs| + j)
  {
    var both := attrs + extra;
    match AttributeByType(attrs, atype)
    case Some(i) =>
      assert IsFirstOfType(both, atype, i) by {
        forall k | 0 <= k < i ensures both[k].atype != atype { assert both[k] == attrs[k]; }
      }
      FirstOfTypeUnique(both, atype, i, AttributeByType(both, atype));
    case None =>
      match AttributeByType(extra, atype)
      case None =>
        forall k | 0 <= k < |both| ensures both[k].atype != atype {
          if k < |attrs| { assert both[k] == attrs[k]; } else { assert both[k] == extra[k - |attrs|]; }
        }
      case Some(j) =>
        assert IsFirstOfType(both, atype, |attrs| + j) by {
          forall k | 0 <= k < |attrs| + j ensures both[k].atype != atype {
            if k < |attrs| { assert both[k] == attrs[k]; } else { assert both[k] == extra[k - |attrs|]; }
          }
        }
        FirstOfTypeUnique(both, atype, |attrs| + j, AttributeByType(both, atype));
  }

  lemma FirstOfTypeUnique(attrs: seq<Attribute>, atype: nat, i: nat, r: Option<nat>)
    requires IsFirstOfType(attrs, atype, i)
    requires r.Some? ==> IsFirstOfType(attrs, atype, r.value)
    requires r.None? ==> forall k :: 0 <= k < |attrs| ==> attrs[k].atype != atype
    ensures r == Some(i)
  {
  }

  /** The example record `[(CLASS, "KEY"), (LABEL, "k1")]` passes the template
      `[(CLASS, "KEY")]` and fails `[(CLASS, "CERT")]`. */
  lemma FilterExample()
    ensures var key: seq<byte> := [0x4B, 0x45, 0x59];
            var cert: seq<byte> := [0x43, 0x45, 0x52, 0x54];
            var k1: seq<byte> := [0x6B, 0x31];
            var rec := [Attribute(CKA_CLASS, key), Attribute(CKA_LABEL, k1)];
            AttrFilter(rec, [Attribute(CKA_CLASS, key)]) && !AttrFilter(rec, [Attribute(CKA_CLASS, cert)])
  {
  }
}
