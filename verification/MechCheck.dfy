/** Whether a record can be used with a requested mechanism and parameters.
    The record's mechanism list is scanned in order; an entry with the
    requested tag is usable when its parameters are compatible under the
    rule of that tag. */
module MechCheck {
  import opened Pkcs11

  /** Wherever an OAEP structure is dereferenced, it must hold at least the
      hashAlg and mgf words the comparison reads. */
  predicate OaepReadable(m: Mechanism) {
    m.mechanism == CKM_RSA_PKCS_OAEP ==> |m.parameter| >= OAEP_FIELDS_READ
  }

  /** `object_CKM_RSA_PKCS_OAEP_params_supported`: only hashAlg and mgf are
      compared; source and label are free. */
  predicate OaepParamsSupported(requested: seq<byte>, got: seq<byte>): (ok: bool)
    requires |requested| >= OAEP_FIELDS_READ && |got| >= OAEP_FIELDS_READ
    ensures ok <==> requested[..OAEP_FIELDS_READ] == got[..OAEP_FIELDS_READ]
  {
    OaepLeadingWords(requested, got);
    OaepHashAlg(requested) == OaepHashAlg(got) && OaepMgf(requested) == OaepMgf(got)
  }

  /** Comparing the hashAlg and mgf words is comparing the structures' first
      two words byte for byte. */
  lemma OaepLeadingWords(p: seq<byte>, q: seq<byte>)
    requires |p| >= OAEP_FIELDS_READ && |q| >= OAEP_FIELDS_READ
    ensures (OaepHashAlg(p) == OaepHashAlg(q) && OaepMgf(p) == OaepMgf(q)) <==>
            p[..OAEP_FIELDS_READ] == q[..OAEP_FIELDS_READ]
  {
    DecodeUlongInjective(p[0..CK_ULONG_SIZE], q[0..CK_ULONG_SIZE]);
    DecodeUlongInjective(p[CK_ULONG_SIZE..OAEP_FIELDS_READ], q[CK_ULONG_SIZE..OAEP_FIELDS_READ]);
    assert p[..OAEP_FIELDS_READ] == p[0..CK_ULONG_SIZE] + p[CK_ULONG_SIZE..OAEP_FIELDS_READ];
    assert q[..OAEP_FIELDS_READ] == q[0..CK_ULONG_SIZE] + q[CK_ULONG_SIZE..OAEP_FIELDS_READ];
    if p[..OAEP_FIELDS_READ] == q[..OAEP_FIELDS_READ] {
      assert p[0..CK_ULONG_SIZE] == p[..OAEP_FIELDS_READ][0..CK_ULONG_SIZE];
      assert q[0..CK_ULONG_SIZE] == q[..OAEP_FIELDS_READ][0..CK_ULONG_SIZE];
      assert p[CK_ULONG_SIZE..OAEP_FIELDS_READ] == p[..OAEP_FIELDS_READ][CK_ULONG_SIZE..];
      assert q[CK_ULONG_SIZE..OAEP_FIELDS_READ] == q[..OAEP_FIELDS_READ][CK_ULONG_SIZE..];
    }
  }

  /** `object_CKM_AES_CBC_params_supported`: the requested IV is one AES block;
      the stored entry's parameter is not looked at. */
  predicate AesCbcParamsSupported(requested: Mechanism): (ok: bool)
    ensures ok <==> |requested.parameter| == 16
  {
    |requested.parameter| == AES_BLOCK_SIZE
  }

  /** The per-tag rule applied to a stored entry carrying the requested tag;
      the default rule is equal length and identical bytes. An OAEP pair too
      short to hold hashAlg and mgf is never reached by the scan under
      `ReadableFor`; it counts as incompatible so that the rule is total. */
  predicate ParamsSupported(req: Mechanism, stored: Mechanism)
    requires stored.mechanism == req.mechanism
  {
    if req.mechanism == CKM_RSA_X_509 then true
    else if req.mechanism == CKM_RSA_PKCS_OAEP then
      OaepReadable(req) && OaepReadable(stored) && OaepParamsSupported(req.parameter, stored.parameter)
    else if req.mechanism == CKM_AES_CBC then AesCbcParamsSupported(req)
    else |req.parameter| == |stored.parameter|
         && req.parameter[..|stored.parameter|] == stored.parameter[..|stored.parameter|]
  }

  /** Entry `i` carries the requested tag and compatible parameters. */
  predicate UsableEntry(mechs: seq<Mechanism>, req: Mechanism, i: int) {
    0 <= i < |mechs| && mechs[i].mechanism == req.mechanism && ParamsSupported(req, mechs[i])
  }

  /** Entry `i` carries the requested tag. */
  predicate TagEntry(mechs: seq<Mechanism>, req: Mechanism, i: int) {
    0 <= i < |mechs| && mechs[i].mechanism == req.mechanism
  }

  /** The scan reaches entry `i` with the requested tag: no earlier entry was
      usable. */
  predicate Reached(mechs: seq<Mechanism>, req: Mechanism, i: int) {
    TagEntry(mechs, req, i) && forall k :: 0 <= k < i ==> !UsableEntry(mechs, req, k)
  }

  /** What the check dereferences: the request's parameter and the stored
      entry's, at each entry with the requested tag that the scan reaches.
      Entries with other tags, and entries after the first usable one, are
      never read, and neither is the request when no entry has its tag. */
  predicate ReadableFor(mechs: seq<Mechanism>, req: Mechanism) {
    forall i :: 0 <= i < |mechs| && Reached(mechs, req, i) ==> OaepReadable(req) && OaepReadable(mechs[i])
  }

  /** The scan from entry `i`, `gotToParams` recording whether an entry with the
      requested tag has been seen before `i`. */
  function ScanFrom(mechs: seq<Mechanism>, req: Mechanism, i: nat, gotToParams: bool): (rv: CkRv)
    requires i <= |mechs| && ReadableFor(mechs, req)
    requires gotToParams <==> exists k :: 0 <= k < i && TagEntry(mechs, req, k)
    requires forall k :: 0 <= k < i ==> !UsableEntry(mechs, req, k)
    ensures rv == Ok <==> exists k :: i <= k < |mechs| && UsableEntry(mechs, req, k)
    ensures rv == MechanismInvalid <==> forall k :: 0 <= k < |mechs| ==> !TagEntry(mechs, req, k)
    ensures rv == Ok || rv == MechanismInvalid || rv == MechanismParamInvalid
    decreases |mechs| - i
  {
    if i == |mechs| then
      if gotToParams then MechanismParamInvalid else MechanismInvalid
    else if mechs[i].mechanism != req.mechanism then
      ScanFrom(mechs, req, i + 1, gotToParams)
    else if !ParamsSupported(req, mechs[i]) then
      assert TagEntry(mechs, req, i);
      ScanFrom(mechs, req, i + 1, true)
    else
      assert UsableEntry(mechs, req, i) && TagEntry(mechs, req, i);
      Ok
  }

  /** `object_mech_is_supported`: CKR_OK when some entry with the requested tag
      has compatible parameters, CKR_MECHANISM_INVALID when no entry has the
      tag, CKR_MECHANISM_PARAM_INVALID when entries have the tag but none is
      compatible. */
  function MechIsSupported(mechs: seq<Mechanism>, req: Mechanism): (rv: CkRv)
    requires ReadableFor(mechs, req)
    ensures rv == Ok <==> exists k :: 0 <= k < |mechs| && UsableEntry(mechs, req, k)
    ensures rv == MechanismInvalid <==> forall k :: 0 <= k < |mechs| ==> mechs[k].mechanism != req.mechanism
    ensures rv == MechanismParamInvalid <==>
      (exists k :: 0 <= k < |mechs| && mechs[k].mechanism == req.mechanism) &&
      (forall k :: 0 <= k < |mechs| ==> !UsableEntry(mechs, req, k))
  {
    var rv := ScanFrom(mechs, req, 0, false);
    assert forall k :: TagEntry(mechs, req, k) <==> 0 <= k < |mechs| && mechs[k].mechanism == req.mechanism;
    rv
  }

  /** A record without the requested tag rejects the request with
      CKR_MECHANISM_INVALID and reads no parameter, so a request with a null
      or short parameter is answered too. */
  lemma AbsentTagReadsNothing(mechs: seq<Mechanism>, req: Mechanism)
    requires forall k :: 0 <= k < |mechs| ==> mechs[k].mechanism != req.mechanism
    ensures ReadableFor(mechs, req)
    ensures MechIsSupported(mechs, req) == MechanismInvalid
  {
  }

  /** The first usable entry ends what is read: whatever follows it, however
      short its parameters, the record stays checkable. */
  lemma {:induction false} ReadsStopAtFirstUsable(mechs: seq<Mechanism>, rest: seq<Mechanism>, req: Mechanism)
    requires ReadableFor(mechs, req)
    requires |mechs| > 0 && UsableEntry(mechs, req, |mechs| - 1)
    ensures ReadableFor(mechs + rest, req)
  {
    var both := mechs + rest;
    forall i | Reached(both, req, i)
      ensures OaepReadable(req) && OaepReadable(both[i])
    {
      assert UsableEntry(both, req, |mechs| - 1) by { assert both[|mechs| - 1] == mechs[|mechs| - 1]; }
      assert i < |mechs|;
      assert both[i] == mechs[i];
      forall k | 0 <= k < i ensures !UsableEntry(mechs, req, k) {
        assert both[k] == mechs[k];
        assert !UsableEntry(both, req, k);
      }
      assert Reached(mechs, req, i);
    }
  }

  /** The scan stops at the first usable entry: entries after it, whatever
      their parameters, cannot change the answer. */
  lemma LaterEntriesIgnored(mechs: seq<Mechanism>, rest: seq<Mechanism>, req: Mechanism)
    requires ReadableFor(mechs, req)
    requires |mechs| > 0 && UsableEntry(mechs, req, |mechs| - 1)
    ensures ReadableFor(mechs + rest, req)
    ensures MechIsSupported(mechs + rest, req) == Ok
  {
    ReadsStopAtFirstUsable(mechs, rest, req);
    assert UsableEntry(mechs + rest, req, |mechs| - 1) by { assert (mechs + rest)[|mechs| - 1] == mechs[|mechs| - 1]; }
  }

  /** A raw RSA request is accepted whenever the tag is present. */
  lemma RawRsaNeedsOnlyTag(mechs: seq<Mechanism>, req: Mechanism)
    requires req.mechanism == CKM_RSA_X_509 && ReadableFor(mechs, req)
    ensures MechIsSupported(mechs, req) == Ok <==> exists k :: 0 <= k < |mechs| && mechs[k].mechanism == CKM_RSA_X_509
  {
    if exists k :: 0 <= k < |mechs| && mechs[k].mechanism == CKM_RSA_X_509 {
      var k :| 0 <= k < |mechs| && mechs[k].mechanism == CKM_RSA_X_509;
      assert UsableEntry(mechs, req, k);
    }
  }

  /** A CBC request is accepted, whatever IV the record stores, exactly when the
      tag is present and the requested IV is one AES block long. */
  lemma CbcDependsOnRequestOnly(mechs: seq<Mechanism>, req: Mechanism)
    requires req.mechanism == CKM_AES_CBC && ReadableFor(mechs, req)
    requires exists k :: 0 <= k < |mechs| && mechs[k].mechanism == CKM_AES_CBC
    ensures MechIsSupported(mechs, req) == Ok <==> |req.parameter| == AES_BLOCK_SIZE
    ensures MechIsSupported(mechs, req) == MechanismParamInvalid <==> |req.parameter| != AES_BLOCK_SIZE
  {
    var k :| 0 <= k < |mechs| && mechs[k].mechanism == CKM_AES_CBC;
    if |req.parameter| == AES_BLOCK_SIZE {
      assert UsableEntry(mechs, req, k);
    }
  }

  /** For an OAEP request, the parameter words after hashAlg and mgf never
      affect the answer. */
  lemma OaepIgnoresSourceAndLabel(mechs: seq<Mechanism>, req: Mechanism, req': Mechanism)
    requires req.mechanism == CKM_RSA_PKCS_OAEP && req'.mechanism == CKM_RSA_PKCS_OAEP
    requires ReadableFor(mechs, req) && ReadableFor(mechs, req')
    requires OaepReadable(req) && OaepReadable(req')
    requires OaepHashAlg(req.parameter) == OaepHashAlg(req'.parameter)
    requires OaepMgf(req.parameter) == OaepMgf(req'.parameter)
    ensures MechIsSupported(mechs, req) == MechIsSupported(mechs, req')
  {
    assert forall k :: UsableEntry(mechs, req, k) <==> UsableEntry(mechs, req', k);
  }

  /** Under the default rule a request is accepted exactly when the record
      lists that very mechanism with that very parameter. */
  lemma DefaultRuleIsMembership(mechs: seq<Mechanism>, req: Mechanism)
    requires req.mechanism != CKM_RSA_X_509 && req.mechanism != CKM_RSA_PKCS_OAEP
    requires req.mechanism != CKM_AES_CBC
    ensures ReadableFor(mechs, req)
    ensures MechIsSupported(mechs, req) == Ok <==> req in mechs
  {
    forall k | 0 <= k < |mechs|
      ensures UsableEntry(mechs, req, k) <==> mechs[k] == req
    {
      var stored := mechs[k];
      if stored.mechanism == req.mechanism && |req.parameter| == |stored.parameter| {
        assert req.parameter[..|stored.parameter|] == req.parameter;
        assert stored.parameter[..|stored.parameter|] == stored.parameter;
      }
    }
  }

  /** Adding mechanisms never withdraws support: an accepted request stays
      accepted, and a known tag stays known. */
  lemma SupportKeptByAppend(mechs: seq<Mechanism>, extra: seq<Mechanism>, req: Mechanism)
    requires ReadableFor(mechs + extra, req)
    ensures ReadableFor(mechs, req)
    ensures MechIsSupported(mechs, req) == Ok ==> MechIsSupported(mechs + extra, req) == Ok
    ensures MechIsSupported(mechs, req) != MechanismInvalid ==>
            MechIsSupported(mechs + extra, req) != MechanismInvalid
  {
    var both := mechs + extra;
    forall i | 0 <= i < |mechs| ensures both[i] == mechs[i] { }
    forall i | Reached(mechs, req, i) ensures Reached(both, req, i) {
      forall k | 0 <= k < i ensures !UsableEntry(both, req, k) {
        assert !UsableEntry(mechs, req, k);
      }
    }
    if MechIsSupported(mechs, req) == Ok {
      var k :| 0 <= k < |mechs| && UsableEntry(mechs, req, k);
      assert UsableEntry(both, req, k);
    }
    if MechIsSupported(mechs, req) != MechanismInvalid {
      var k :| 0 <= k < |mechs| && mechs[k].mechanism == req.mechanism;
      assert both[k].mechanism == req.mechanism;
    }
  }

  /** The record stores one OAEP entry with SHA-256 and MGF1-SHA-256: the same
      request is accepted, a SHA-1 or an MGF1-SHA-1 request has invalid
      parameters, and an unrelated mechanism is unknown. */
  lemma OaepExample(rest: seq<byte>)
    requires |rest| == 3 * CK_ULONG_SIZE
    ensures var stored := Mechanism(CKM_RSA_PKCS_OAEP, EncodeOaepParams(CKM_SHA256, CKG_MGF1_SHA256, rest));
            var sha1 := Mechanism(CKM_RSA_PKCS_OAEP, EncodeOaepParams(CKM_SHA_1, CKG_MGF1_SHA256, rest));
            var mgfSha1 := Mechanism(CKM_RSA_PKCS_OAEP, EncodeOaepParams(CKM_SHA256, CKG_MGF1_SHA1, rest));
            && MechIsSupported([stored], stored) == Ok
            && MechIsSupported([stored], sha1) == MechanismParamInvalid
            && MechIsSupported([stored], mgfSha1) == MechanismParamInvalid
            && MechIsSupported([stored], Mechanism(CKM_AES_CBC, [])) == MechanismInvalid
  {
    var stored := Mechanism(CKM_RSA_PKCS_OAEP, EncodeOaepParams(CKM_SHA256, CKG_MGF1_SHA256, rest));
    var sha1 := Mechanism(CKM_RSA_PKCS_OAEP, EncodeOaepParams(CKM_SHA_1, CKG_MGF1_SHA256, rest));
    var mgfSha1 := Mechanism(CKM_RSA_PKCS_OAEP, EncodeOaepParams(CKM_SHA256, CKG_MGF1_SHA1, rest));
    assert Pow256(CK_ULONG_SIZE) == 0x1_0000_0000_0000_0000;
    OaepFieldsRoundTrip(CKM_SHA256, CKG_MGF1_SHA256, rest);
    OaepFieldsRoundTrip(CKM_SHA_1, CKG_MGF1_SHA256, rest);
    OaepFieldsRoundTrip(CKM_SHA256, CKG_MGF1_SHA1, rest);
    assert UsableEntry([stored], stored, 0);
    assert !UsableEntry([stored], sha1, 0);
    assert !UsableEntry([stored], mgfSha1, 0);
  }

  /** The record stores a CBC entry: a 16-byte IV is accepted, a 12-byte IV is not. */
  lemma CbcExample(storedIv: seq<byte>, iv16: seq<byte>, iv12: seq<byte>)
    requires |iv16| == 16 && |iv12| == 12
    ensures MechIsSupported([Mechanism(CKM_AES_CBC, storedIv)], Mechanism(CKM_AES_CBC, iv16)) == Ok
    ensures MechIsSupported([Mechanism(CKM_AES_CBC, storedIv)], Mechanism(CKM_AES_CBC, iv12)) == MechanismParamInvalid
  {
  }
}
