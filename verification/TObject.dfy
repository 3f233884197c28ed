/** A token object record (`tobject`): its id and handle, the attribute and
    mechanism lists that only ever grow, and the opaque key-material blobs. */
module Objects {
  import opened Pkcs11

  class TObject {
    var id: uint32
    var handle: uint32
    var attrs: seq<Attribute>
    var mechs: seq<Mechanism>
    var pub: Option<seq<byte>>
    var priv: Option<seq<byte>>
    var objauth: Option<seq<byte>>
    var unsealedAuth: Option<seq<byte>>

    /** `tobject_new`: a zero-filled record owning nothing. */
    constructor ()
      ensures id == 0 && handle == 0 && attrs == [] && mechs == []
      ensures pub == None && priv == None && objauth == None && unsealedAuth == None
    {
      id, handle := 0, 0;
      attrs, mechs := [], [];
      pub, priv, objauth, unsealedAuth := None, None, None, None;
    }

    /** `tobject_set_blob_data`: takes the public and private blobs. */
    method SetBlobData(pubBlob: seq<byte>, privBlob: seq<byte>)
      modifies this`pub, this`priv
      ensures pub == Some(pubBlob) && priv == Some(privBlob)
    {
      pub, priv := Some(pubBlob), Some(privBlob);
    }

    /** `tobject_set_auth`: takes the unsealed auth value and the wrapped one. */
    method SetAuth(authBin: seq<byte>, wrappedAuthHex: seq<byte>)
      modifies this`unsealedAuth, this`objauth
      ensures unsealedAuth == Some(authBin) && objauth == Some(wrappedAuthHex)
    {
      unsealedAuth, objauth := Some(authBin), Some(wrappedAuthHex);
    }

    /** `tobject_set_handle`. */
    method SetHandle(h: uint32)
      modifies this`handle
      ensures handle == h
    {
      handle := h;
    }

    /** `tobject_set_id`. */
    method SetId(i: uint32)
      modifies this`id
      ensures id == i
    {
      id := i;
    }

    /** `tobject_append_attrs`: returns CKR_OK and changes nothing when the
        first supplied attribute is empty (even if later ones are not);
        otherwise grows the list by the supplied attributes, or, when the
        reallocation fails (`oom`), returns CKR_HOST_MEMORY and keeps the list
        as it was. */
    method AppendAttrs(added: seq<Attribute>, oom: bool) returns (rv: CkRv)
      modifies this`attrs
      ensures |added| > 0 && added[0].Len() == 0 ==> rv == Ok && attrs == old(attrs)
      ensures !(|added| > 0 && added[0].Len() == 0) && oom ==> rv == HostMemory && attrs == old(attrs)
      ensures !(|added| > 0 && added[0].Len() == 0) && !oom ==> rv == Ok && attrs == old(attrs) + added
    {
      if |added| > 0 && added[0].Len() == 0 {
        return Ok;
      }
      if oom {
        return HostMemory;
      }
      attrs := attrs + added;
      rv := Ok;
    }

    /** `tobject_append_mechs`: grows the mechanism list by the supplied
        mechanisms, or, when the reallocation fails (`oom`), returns
        CKR_HOST_MEMORY and keeps the list as it was. */
    method AppendMechs(added: seq<Mechanism>, oom: bool) returns (rv: CkRv)
      modifies this`mechs
      ensures oom ==> rv == HostMemory && mechs == old(mechs)
      ensures !oom ==> rv == Ok && mechs == old(mechs) + added
    {
      if oom {
        return HostMemory;
      }
      mechs := mechs + added;
      rv := Ok;
    }
  }
}
