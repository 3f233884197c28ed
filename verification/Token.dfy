/** The token-level half of the object layer: the store of token objects,
    the single operation slot, the three-call object search (initialise,
    page out handles, finalise), and reading attribute values into a
    caller's template. */
module Tokens {
  import opened Pkcs11
  import opened AttrMatch
  import opened Objects

  /** The token's operation slot: free, holding a search (its snapshot of
      matching objects and a forward-only cursor), or holding any other kind
      of operation. */
  datatype Operation = Idle | FindOp(snapshot: seq<TObject>, cursor: nat) | Other

  /** The objects of `objs` that pass the search template, in store order. */
  function MatchingObjects(objs: seq<TObject>, templ: seq<Attribute>): (r: seq<TObject>)
    reads objs
    ensures |r| <= |objs|
    ensures forall i :: 0 <= i < |r| ==> r[i] in objs && AttrFilter(r[i].attrs, templ)
    ensures forall i :: 0 <= i < |objs| && AttrFilter(objs[i].attrs, templ) ==> objs[i] in r
    decreases |objs|
  {
    if |objs| == 0 then []
    else
      var last := objs[|objs| - 1];
      var init := MatchingObjects(objs[..|objs| - 1], templ);
      assert forall i :: 0 <= i < |objs| - 1 ==> objs[..|objs| - 1][i] == objs[i];
      if AttrFilter(last.attrs, templ) then init + [last] else init
  }

  /** Matching distributes over concatenation of stores: together with
      `MatchingOne` this fixes the snapshot's order to the store's. */
  lemma {:induction false} MatchingAppend(a: seq<TObject>, b: seq<TObject>, templ: seq<Attribute>)
    ensures MatchingObjects(a + b, templ) == MatchingObjects(a, templ) + MatchingObjects(b, templ)
    decreases |b|
  {
    if |b| == 0 {
      assert a + b == a;
    } else {
      var b' := b[..|b| - 1];
      assert (a + b)[..|a + b| - 1] == a + b';
      assert (a + b)[|a + b| - 1] == b[|b| - 1];
      MatchingAppend(a, b', templ);
    }
  }

  /** Extending a store by one object extends its matches by that object
      exactly when it passes. */
  lemma MatchingSnoc(objs: seq<TObject>, i: nat, templ: seq<Attribute>)
    requires i < |objs|
    ensures MatchingObjects(objs[..i + 1], templ) ==
            MatchingObjects(objs[..i], templ) + (if AttrFilter(objs[i].attrs, templ) then [objs[i]] else [])
  {
    assert objs[..i + 1][..i] == objs[..i];
  }

  /** A prefix of a store has no more matches than the whole store. */
  lemma MatchingPrefixShorter(objs: seq<TObject>, n: nat, templ: seq<Attribute>)
    requires n <= |objs|
    ensures |MatchingObjects(objs[..n], templ)| <= |MatchingObjects(objs, templ)|
  {
    MatchingAppend(objs[..n], objs[n..], templ);
    assert objs[..n] + objs[n..] == objs;
  }

  /** A one-object store yields that object exactly when it passes. */
  lemma MatchingOne(o: TObject, templ: seq<Attribute>)
    ensures MatchingObjects([o], templ) == if AttrFilter(o.attrs, templ) then [o] else []
  {
  }

  /** The next page of a search: the snapshot entries from the cursor on, as
      many as the caller asked for or as remain, whichever is fewer. */
  function NextPage<T>(snapshot: seq<T>, cursor: nat, max: nat): (page: seq<T>)
    requires cursor <= |snapshot|
    ensures |page| <= max && cursor + |page| <= |snapshot|
    ensures |page| == max || cursor + |page| == |snapshot|
    ensures page == snapshot[cursor..cursor + |page|]
  {
    var n := if max < |snapshot| - cursor then max else |snapshot| - cursor;
    snapshot[cursor..cursor + n]
  }

  function Sum(sizes: seq<nat>): nat {
    if |sizes| == 0 then 0 else sizes[0] + Sum(sizes[1..])
  }

  function Min(a: nat, b: nat): nat { if a < b then a else b }

  /** Everything a caller receives from successive pages of the given sizes. */
  function Drain<T>(snapshot: seq<T>, cursor: nat, sizes: seq<nat>): seq<T>
    requires cursor <= |snapshot|
    decreases |sizes|
  {
    if |sizes| == 0 then []
    else
      var page := NextPage(snapshot, cursor, sizes[0]);
      page + Drain(snapshot, cursor + |page|, sizes[1..])
  }

  /** Successive pages hand out the snapshot from the cursor on, in order, each
      entry once, stopping at the end of the snapshot. */
  lemma {:induction false} DrainInOrder<T>(snapshot: seq<T>, cursor: nat, sizes: seq<nat>)
    requires cursor <= |snapshot|
    ensures Drain(snapshot, cursor, sizes) == snapshot[cursor..Min(|snapshot|, cursor + Sum(sizes))]
    decreases |sizes|
  {
    if |sizes| > 0 {
      var page := NextPage(snapshot, cursor, sizes[0]);
      DrainInOrder(snapshot, cursor + |page|, sizes[1..]);
      var hi := Min(|snapshot|, cursor + Sum(sizes));
      assert Min(|snapshot|, cursor + |page| + Sum(sizes[1..])) == hi;
      assert snapshot[cursor..hi] == page + snapshot[cursor + |page|..hi];
    }
  }

  /** Pages whose sizes add up to at least the snapshot's length return the
      whole snapshot: no entry is skipped, repeated or reordered, and nothing
      is returned beyond it. */
  lemma DrainCoversSnapshot<T>(snapshot: seq<T>, sizes: seq<nat>)
    requires Sum(sizes) >= |snapshot|
    ensures Drain(snapshot, 0, sizes) == snapshot
  {
    DrainInOrder(snapshot, 0, sizes);
  }

  /** `find_object_by_id`: the first store object whose id is `handle`. */
  function FindObjectById(objs: seq<TObject>, handle: nat): (r: Option<TObject>)
    reads objs
    ensures r.Some? ==> exists i :: 0 <= i < |objs| && objs[i] == r.value && IsFirstWithId(objs, handle, i)
    ensures r.None? <==> forall k :: 0 <= k < |objs| ==> objs[k].id as nat != handle
  {
    ByIdFrom(objs, handle, 0)
  }

  ghost predicate IsFirstWithId(objs: seq<TObject>, handle: nat, i: nat)
    reads objs
  {
    i < |objs| && objs[i].id as nat == handle &&
    forall k :: 0 <= k < i ==> objs[k].id as nat != handle
  }

  function ByIdFrom(objs: seq<TObject>, handle: nat, i: nat): (r: Option<TObject>)
    reads objs
    requires i <= |objs|
    requires forall k :: 0 <= k < i ==> objs[k].id as nat != handle
    ensures r.Some? ==> exists j :: i <= j < |objs| && objs[j] == r.value && IsFirstWithId(objs, handle, j)
    ensures r.None? ==> forall k :: 0 <= k < |objs| ==> objs[k].id as nat != handle
    decreases |objs| - i
  {
    if i == |objs| then None
    else if objs[i].id as nat == handle then (assert IsFirstWithId(objs, handle, i); Some(objs[i]))
    else ByIdFrom(objs, handle, i + 1)
  }

  /** One caller `CK_ATTRIBUTE` of a value query: the requested type, the
      caller's buffer (absent for a null pointer) and `ulValueLen`. */
  datatype TemplateEntry = TemplateEntry(atype: nat, pValue: Option<seq<byte>>, ulValueLen: nat)

  /** A caller's buffer holds at least `ulValueLen` bytes. */
  predicate BufferHolds(t: TemplateEntry) {
    t.pValue.Some? ==> t.ulValueLen <= |t.pValue.value|
  }

  /** One template entry after the query, or none when its buffer is too small:
      an absent type becomes (null, 0); a null buffer learns the length; a
      large enough buffer receives the value in its leading bytes. */
  function FillEntry(attrs: seq<Attribute>, t: TemplateEntry): (r: Option<TemplateEntry>)
    requires BufferHolds(t)
    ensures r.Some? ==> r.value.atype == t.atype && BufferHolds(r.value)
    ensures t.pValue.None? ==> r.Some? && r.value.pValue.None?
  {
    match AttributeByType(attrs, t.atype)
    case None => Some(TemplateEntry(t.atype, None, 0))
    case Some(k) =>
      var found := attrs[k];
      if t.pValue.None? then Some(t.(ulValueLen := found.Len()))
      else if found.Len() > t.ulValueLen then None
      else Some(TemplateEntry(t.atype, Some(found.value + t.pValue.value[found.Len()..]), found.Len()))
  }

  /** A type the record lacks is reported as absent, which is not an error. */
  lemma FillAbsentType(attrs: seq<Attribute>, t: TemplateEntry)
    requires BufferHolds(t)
    requires forall k :: 0 <= k < |attrs| ==> attrs[k].atype != t.atype
    ensures FillEntry(attrs, t) == Some(TemplateEntry(t.atype, None, 0))
  {
  }

  /** A null buffer asks for the size: the entry is given the stored length of
      the first attribute of its type and nothing else about it changes. */
  lemma FillSizeQuery(attrs: seq<Attribute>, t: TemplateEntry, i: nat)
    requires t.pValue.None? && IsFirstOfType(attrs, t.atype, i)
    ensures FillEntry(attrs, t) == Some(t.(ulValueLen := attrs[i].Len()))
  {
    FirstOfTypeUnique(attrs, t.atype, i, AttributeByType(attrs, t.atype));
  }

  /** An entry fails exactly when it has a buffer and the first attribute of
      its type is longer than the buffer's stated length. */
  lemma FillTooSmallIff(attrs: seq<Attribute>, t: TemplateEntry)
    requires BufferHolds(t)
    ensures FillEntry(attrs, t).None? <==>
      t.pValue.Some? && exists i: nat :: IsFirstOfType(attrs, t.atype, i) && attrs[i].Len() > t.ulValueLen
  {
  }

  /** A filled entry with a buffer holds the value of the first attribute of
      its type: its length, its bytes at the front of the buffer, and the
      rest of the buffer as the caller left it. */
  lemma FillDelivers(attrs: seq<Attribute>, t: TemplateEntry, i: nat)
    requires BufferHolds(t) && t.pValue.Some?
    requires IsFirstOfType(attrs, t.atype, i)
    requires FillEntry(attrs, t).Some?
    ensures var r := FillEntry(attrs, t).value;
            && r.pValue.Some? && r.ulValueLen == attrs[i].Len()
            && |r.pValue.value| == |t.pValue.value|
            && r.pValue.value[..r.ulValueLen] == attrs[i].value
            && r.pValue.value[r.ulValueLen..] == t.pValue.value[r.ulValueLen..]
  {
  }

  /** The two-call pattern of PKCS #11: ask for the length with a null buffer,
      then pass a buffer of that length; the second call succeeds and yields
      the stored value (or reports the type absent again). */
  lemma SizeQueryThenFetch(attrs: seq<Attribute>, t: TemplateEntry, buf: seq<byte>)
    requires t.pValue.None?
    requires FillEntry(attrs, t).value.ulValueLen <= |buf|
    ensures var sized := FillEntry(attrs, t).value;
            var second := FillEntry(attrs, TemplateEntry(t.atype, Some(buf), sized.ulValueLen));
            && second.Some?
            && ((forall k :: 0 <= k < |attrs| ==> attrs[k].atype != t.atype) ==> second.value.pValue.None?)
            && (forall i: nat :: IsFirstOfType(attrs, t.atype, i) ==>
                  second.value.pValue.Some? &&
                  second.value.pValue.value[..second.value.ulValueLen] == attrs[i].value)
  {
  }

  /** The template as it stands after entries `0 .. k-1` have been filled and
      the rest not yet touched. */
  ghost predicate FilledUpTo(attrs: seq<Attribute>, before: seq<TemplateEntry>, after: seq<TemplateEntry>, k: nat)
    requires forall i :: 0 <= i < |before| ==> BufferHolds(before[i])
  {
    && |after| == |before| && k <= |before|
    && (forall i :: 0 <= i < k ==> FillEntry(attrs, before[i]).Some? && after[i] == FillEntry(attrs, before[i]).value)
    && (forall i :: k <= i < |before| ==> after[i] == before[i])
  }

  /** The search-state allocation and the match-list loop of
      `object_find_init`: walks the store in order, keeping the objects that
      pass the template, one allocation each after the first for the search
      state. Fails when `allocs` grants too few. */
  method BuildSnapshot(store: seq<TObject>, templ: seq<Attribute>, allocs: nat)
    returns (ok: bool, matches: seq<TObject>)
    ensures ok <==> 1 + |MatchingObjects(store, templ)| <= allocs
    ensures ok ==> matches == MatchingObjects(store, templ)
  {
    if allocs == 0 {
      return false, [];
    }
    matches := [];
    var i := 0;
    while i < |store|
      invariant 0 <= i <= |store|
      invariant matches == MatchingObjects(store[..i], templ)
      invariant 1 + |matches| <= allocs
    {
      var tobj := store[i];
      MatchingSnoc(store, i, templ);
      if AttrFilter(tobj.attrs, templ) {
        if 1 + |matches| == allocs {
          MatchingPrefixShorter(store, i + 1, templ);
          return false, [];
        }
        matches := matches + [tobj];
      }
      i := i + 1;
    }
    assert store[..i] == store;
    ok := true;
  }

  class Token {
    /** The token's objects (`tok->tobjects`; `object_find_init` treats a
        missing list as empty). */
    var tobjects: seq<TObject>
    /** The single operation slot. */
    var op: Operation

    /** A token with no objects and a free operation slot. */
    constructor ()
      ensures tobjects == [] && op == Idle && Valid()
    {
      tobjects, op := [], Idle;
    }

    /** A search's cursor never passes the end of its snapshot. */
    ghost predicate Valid()
      reads this
    {
      op.FindOp? ==> op.cursor <= |op.snapshot|
    }

    /** `object_find_init`. Refused with CKR_OPERATION_ACTIVE, slot untouched,
        while any operation holds the slot. Otherwise it needs one allocation
        for the search state and one per matching object; `allocs` is how
        many the allocator grants. With enough, the slot holds a search over
        the objects that pass the template, in store order, cursor at the
        start; with too few, CKR_HOST_MEMORY and the slot stays free. */
    method FindInit(templ: seq<Attribute>, allocs: nat) returns (rv: CkRv)
      requires Valid()
      modifies this`op
      ensures Valid()
      ensures !old(op).Idle? ==> rv == OperationActive && op == old(op)
      ensures old(op).Idle? && allocs < 1 + |MatchingObjects(tobjects, templ)| ==>
                rv == HostMemory && op == Idle
      ensures old(op).Idle? && allocs >= 1 + |MatchingObjects(tobjects, templ)| ==>
                rv == Ok && op == FindOp(MatchingObjects(tobjects, templ), 0)
    {
      if !op.Idle? {
        return OperationActive;
      }
      var ok, matches := BuildSnapshot(tobjects, templ, allocs);
      if !ok {
        return HostMemory;
      }
      op := FindOp(matches, 0);
      rv := Ok;
    }

    /** `object_find`. Without a search in the slot, CKR_OPERATION_NOT_INITIALIZED
        and nothing changes. Otherwise the ids of the next page of the snapshot
        go to the front of `objects`, the count is returned, the cursor moves
        past them, and the rest of `objects` is left alone. */
    method Find(objects: array<nat>, maxObjectCount: nat) returns (rv: CkRv, objectCount: nat)
      requires Valid()
      requires maxObjectCount <= objects.Length
      modifies this`op, objects
      ensures Valid()
      ensures !old(op).FindOp? ==>
                rv == OperationNotInitialized && op == old(op) && objectCount == 0 &&
                objects[..] == old(objects[..])
      ensures old(op).FindOp? ==>
                var page := NextPage(old(op).snapshot, old(op).cursor, maxObjectCount);
                && rv == Ok && objectCount == |page|
                && op == FindOp(old(op).snapshot, old(op).cursor + objectCount)
                && (forall k :: 0 <= k < objectCount ==> objects[k] == page[k].id as nat)
                && (forall k :: objectCount <= k < objects.Length ==> objects[k] == old(objects[k]))
    {
      if !op.FindOp? {
        return OperationNotInitialized, 0;
      }
      var snapshot := op.snapshot;
      ghost var start := op.cursor;
      var count := 0;
      while op.cursor < |snapshot| && count < maxObjectCount
        invariant op == FindOp(snapshot, start + count) && start + count <= |snapshot|
        invariant count <= maxObjectCount
        invariant forall k :: 0 <= k < count ==> objects[k] == snapshot[start + k].id as nat
        invariant forall k :: count <= k < objects.Length ==> objects[k] == old(objects[k])
      {
        objects[count] := snapshot[op.cursor].id as nat;
        op := FindOp(snapshot, op.cursor + 1);
        count := count + 1;
      }
      rv, objectCount := Ok, count;
    }

    /** `object_find_final`: ends the search and frees the slot; without a
        search in the slot, CKR_OPERATION_NOT_INITIALIZED and nothing changes. */
    method FindFinal() returns (rv: CkRv)
      requires Valid()
      modifies this`op
      ensures Valid()
      ensures old(op).FindOp? ==> rv == Ok && op == Idle
      ensures !old(op).FindOp? ==> rv == OperationNotInitialized && op == old(op)
    {
      if !op.FindOp? {
        return OperationNotInitialized;
      }
      op := Idle;
      rv := Ok;
    }

    /** `object_get_attributes`. CKR_OBJECT_HANDLE_INVALID, template untouched,
        when no object has id `handle`. Otherwise the entries are filled in
        order; the first one whose buffer is too small stops the call with
        CKR_BUFFER_TOO_SMALL, leaving the entries before it filled and it and
        those after it as they were; if none fails, CKR_OK. */
    method GetAttributes(handle: nat, templ: array<TemplateEntry>) returns (rv: CkRv)
      requires forall i :: 0 <= i < templ.Length ==> BufferHolds(templ[i])
      modifies templ
      ensures FindObjectById(tobjects, handle).None? ==>
                rv == ObjectHandleInvalid && templ[..] == old(templ[..])
      ensures FindObjectById(tobjects, handle).Some? ==>
                var attrs := FindObjectById(tobjects, handle).value.attrs;
                && (rv == Ok <==> forall i :: 0 <= i < templ.Length ==> FillEntry(attrs, old(templ[i])).Some?)
                && (rv == Ok ==> FilledUpTo(attrs, old(templ[..]), templ[..], templ.Length))
                && (rv != Ok ==>
                      && rv == BufferTooSmall
                      && exists k :: 0 <= k < templ.Length && FillEntry(attrs, old(templ[k])).None? &&
                                     FilledUpTo(attrs, old(templ[..]), templ[..], k))
    {
      var tobj := FindObjectById(tobjects, handle);
      if tobj.None? {
        return ObjectHandleInvalid;
      }
      var attrs := tobj.value.attrs;
      var i := 0;
      while i < templ.Length
        invariant 0 <= i <= templ.Length
        invariant FilledUpTo(attrs, old(templ[..]), templ[..], i)
      {
        var t := templ[i];
        assert t == old(templ[..])[i];
        var found := AttributeByType(attrs, t.atype);
        if found.Some? {
          var a := attrs[found.value];
          if t.pValue.None? {
            templ[i] := t.(ulValueLen := a.Len());
            i := i + 1;
            continue;
          }
          if a.Len() > t.ulValueLen {
            return BufferTooSmall;
          }
          templ[i] := TemplateEntry(t.atype, Some(a.value + t.pValue.value[a.Len()..]), a.Len());
        } else {
          templ[i] := TemplateEntry(t.atype, None, 0);
        }
        i := i + 1;
      }
      rv := Ok;
    }
  }

  /** A search that is initialised and then finalised frees the slot, so the
      next initialisation is accepted; a second initialisation while a search
      is live is refused and leaves that search as it was. */
  method SearchLifecycle(tok: Token, first: seq<Attribute>, second: seq<Attribute>, allocs: nat)
    returns (rv1: CkRv, rv2: CkRv, rv3: CkRv, rv4: CkRv)
    requires tok.Valid() && tok.op == Idle
    requires allocs >= 1 + |tok.tobjects|
    modifies tok
    ensures rv1 == Ok && rv2 == OperationActive && rv3 == Ok && rv4 == Ok
    ensures tok.op == FindOp(MatchingObjects(tok.tobjects, second), 0)
  {
    rv1 := tok.FindInit(first, allocs);
    ghost var live := tok.op;
    rv2 := tok.FindInit(second, allocs);
    assert tok.op == live;
    rv3 := tok.FindFinal();
    rv4 := tok.FindInit(second, allocs);
  }
}
