/** Vocabulary shared by the token's object layer: the PKCS #11 scalar types,
    the return values it produces, attributes, mechanisms, and the two fields
    of a CK_RSA_PKCS_OAEP_PARAMS structure that the mechanism check reads. */
module Pkcs11 {

  /** One byte of an attribute value or a mechanism parameter. */
  newtype byte = x: int | 0 <= x < 0x100

  /** C `unsigned` / `uint32_t`: the width of a token object's id and handle. */
  newtype uint32 = x: int | 0 <= x < 0x1_0000_0000

  datatype Option<T> = None | Some(value: T)

  /** The `CK_RV` values the object layer returns. */
  datatype CkRv =
    | Ok
    | HostMemory
    | MechanismInvalid
    | MechanismParamInvalid
    | ObjectHandleInvalid
    | OperationActive
    | OperationNotInitialized
    | BufferTooSmall
  {
    /** The number PKCS #11 assigns to each return value. */
    function Code(): nat {
      match this
      case Ok => 0x000
      case HostMemory => 0x002
      case MechanismInvalid => 0x070
      case MechanismParamInvalid => 0x071
      case ObjectHandleInvalid => 0x082
      case OperationActive => 0x090
      case OperationNotInitialized => 0x091
      case BufferTooSmall => 0x150
    }
  }

  /** Distinct return values have distinct PKCS #11 codes. */
  lemma CodeInjective(a: CkRv, b: CkRv)
    ensures a.Code() == b.Code() ==> a == b
  {
  }

  // Mechanism types (`CK_MECHANISM_TYPE`) with a rule of their own.
  const CKM_RSA_X_509: nat := 0x0003
  const CKM_RSA_PKCS_OAEP: nat := 0x0009
  const CKM_AES_CBC: nat := 0x1082

  // Values that appear inside OAEP parameters.
  const CKM_SHA_1: nat := 0x0220
  const CKM_SHA256: nat := 0x0250
  const CKG_MGF1_SHA1: nat := 0x0001
  const CKG_MGF1_SHA256: nat := 0x0002

  // Attribute types (`CK_ATTRIBUTE_TYPE`).
  const CKA_CLASS: nat := 0x0000
  const CKA_LABEL: nat := 0x0003

  /** AES block size: the length of a CBC initialisation vector. */
  const AES_BLOCK_SIZE: nat := 16

  /** Width of `CK_ULONG` on the LP64 targets the token is built for. */
  const CK_ULONG_SIZE: nat := 8

  /** `sizeof(CK_RSA_PKCS_OAEP_PARAMS)`: hashAlg, mgf, source, pSourceData,
      ulSourceDataLen, each one word wide. */
  const OAEP_PARAMS_SIZE: nat := 5 * CK_ULONG_SIZE

  /** The leading part of a CK_RSA_PKCS_OAEP_PARAMS that the mechanism check
      reads: hashAlg and mgf. */
  const OAEP_FIELDS_READ: nat := 2 * CK_ULONG_SIZE

  /** A `CK_ATTRIBUTE` held by a record or given in a search template; its
      `ulValueLen` is the length of `value`. */
  datatype Attribute = Attribute(atype: nat, value: seq<byte>) {
    function Len(): nat { |value| }
  }

  /** A `CK_MECHANISM`; an absent parameter is the empty sequence. */
  datatype Mechanism = Mechanism(mechanism: nat, parameter: seq<byte>)

  /** A little-endian machine word. */
  function DecodeUlong(b: seq<byte>): (x: nat)
    ensures |b| == 0 ==> x == 0
  {
    if |b| == 0 then 0 else b[0] as nat + 0x100 * DecodeUlong(b[1..])
  }

  /** The `n` low-order bytes of `x`, least significant first. */
  function EncodeUlong(x: nat, n: nat): (b: seq<byte>)
    ensures |b| == n
  {
    if n == 0 then [] else [(x % 0x100) as byte] + EncodeUlong(x / 0x100, n - 1)
  }

  /** The largest value `n` bytes can hold, plus one. */
  function Pow256(n: nat): (p: nat)
    ensures p > 0
  {
    if n == 0 then 1 else 0x100 * Pow256(n - 1)
  }

  lemma {:induction false} DecodeEncodeUlong(x: nat, n: nat)
    requires x < Pow256(n)
    ensures DecodeUlong(EncodeUlong(x, n)) == x
  {
    if n > 0 {
      var b := EncodeUlong(x, n);
      assert b[1..] == EncodeUlong(x / 0x100, n - 1);
      DecodeEncodeUlong(x / 0x100, n - 1);
    }
  }

  /** Encoding a decoded word gives back its bytes. */
  lemma {:induction false} EncodeDecodeUlong(b: seq<byte>)
    ensures EncodeUlong(DecodeUlong(b), |b|) == b
  {
    if |b| > 0 {
      var x := DecodeUlong(b);
      assert x % 0x100 == b[0] as nat && x / 0x100 == DecodeUlong(b[1..]);
      EncodeDecodeUlong(b[1..]);
    }
  }

  /** Words of the same width are equal exactly when their values are. */
  lemma DecodeUlongInjective(a: seq<byte>, b: seq<byte>)
    requires |a| == |b|
    ensures DecodeUlong(a) == DecodeUlong(b) <==> a == b
  {
    EncodeDecodeUlong(a);
    EncodeDecodeUlong(b);
  }

  /** The `hashAlg` field of a CK_RSA_PKCS_OAEP_PARAMS laid out in `p`. */
  function OaepHashAlg(p: seq<byte>): nat
    requires |p| >= OAEP_FIELDS_READ
  {
    DecodeUlong(p[0..CK_ULONG_SIZE])
  }

  /** The `mgf` field of a CK_RSA_PKCS_OAEP_PARAMS laid out in `p`. */
  function OaepMgf(p: seq<byte>): nat
    requires |p| >= OAEP_FIELDS_READ
  {
    DecodeUlong(p[CK_ULONG_SIZE..2 * CK_ULONG_SIZE])
  }

  /** Lays out an OAEP parameter structure: hashAlg, mgf, then the remaining
      three words (source, pSourceData, ulSourceDataLen) as given. */
  function EncodeOaepParams(hashAlg: nat, mgf: nat, rest: seq<byte>): (p: seq<byte>)
    requires |rest| == 3 * CK_ULONG_SIZE
    ensures |p| == OAEP_PARAMS_SIZE
  {
    EncodeUlong(hashAlg, CK_ULONG_SIZE) + EncodeUlong(mgf, CK_ULONG_SIZE) + rest
  }

  /** Reading the two fields back gives what was laid out. */
  lemma OaepFieldsRoundTrip(hashAlg: nat, mgf: nat, rest: seq<byte>)
    requires |rest| == 3 * CK_ULONG_SIZE
    requires hashAlg < Pow256(CK_ULONG_SIZE) && mgf < Pow256(CK_ULONG_SIZE)
    ensures OaepHashAlg(EncodeOaepParams(hashAlg, mgf, rest)) == hashAlg
    ensures OaepMgf(EncodeOaepParams(hashAlg, mgf, rest)) == mgf
  {
    var p := EncodeOaepParams(hashAlg, mgf, rest);
    assert p[0..CK_ULONG_SIZE] == EncodeUlong(hashAlg, CK_ULONG_SIZE);
    assert p[CK_ULONG_SIZE..2 * CK_ULONG_SIZE] == EncodeUlong(mgf, CK_ULONG_SIZE);
    DecodeEncodeUlong(hashAlg, CK_ULONG_SIZE);
    DecodeEncodeUlong(mgf, CK_ULONG_SIZE);
  }
}
