# Object layer of a PKCS #11 token (tpm2-pkcs11 `object.c`)

This project models the object-management core of the tpm2-pkcs11 token in
Dafny and proves properties of that model. The core covers the object-search
and attribute calls of the PKCS #11 v2.40 Base Specification, section 5.7:
`C_FindObjectsInit`, `C_FindObjects`, `C_FindObjectsFinal` and
`C_GetAttributeValue`. It also covers the check that a key supports a
requested mechanism.

- `Pkcs11.dfy` (module `Pkcs11`) defines the shared pieces:
  - bytes and 32-bit ids;
  - the `CK_RV` values with their PKCS #11 codes;
  - the mechanism and attribute constants;
  - `Attribute` (type and value; the length is the value's length);
  - `Mechanism` (tag and parameter bytes);
  - the little-endian layout of the `hashAlg` and `mgf` words of a
    `CK_RSA_PKCS_OAEP_PARAMS` structure.
- `AttrMatch.dfy` (module `AttrMatch`) holds the read-only scans of a record's
  attribute list as recursive functions:
  - the search-template filter `object_attr_filter`;
  - the first-match lookups `object_get_attribute_by_type` and
    `object_get_attribute_full`.

  The filter's type/length/`memcmp` test is proved to be attribute equality.
  So a record passes a template exactly when every template entry occurs
  among its attributes.
- `MechCheck.dfy` (module `MechCheck`) holds `object_mech_is_supported` and its
  per-tag rules:
  - `CKM_RSA_X_509` is always compatible;
  - OAEP compares `hashAlg` and `mgf` only;
  - AES-CBC looks only at the requested IV length (16);
  - every other tag needs identical parameter bytes.
- `TObject.dfy` (module `Objects`) holds the `TObject` record as a class. Its
  attribute and mechanism lists grow in place through `AppendAttrs` and
  `AppendMechs`, and it has one-line setters.
- `Token.dfy` (module `Tokens`) holds the `Token` class with its store and its
  single operation slot (`Idle`, a search `FindOp(snapshot, cursor)`, or
  `Other`). It has:
  - search initialisation, paging and finalisation as methods with loops;
  - `object_get_attributes` as a method that fills the caller's template
    array in place.

Quirks of the code that the model keeps:

- `object_find` marks `max_object_count` unused, yet its loop is bounded by
  it. The model bounds the page by it.
- On `CKR_BUFFER_TOO_SMALL`, `object_get_attributes` returns at once. The
  failing entry keeps the caller's length; it is not set to the stored
  length, so a caller learns the needed size only from a query with a null
  buffer. The model follows the code: the failing entry and all later
  entries are left as they were.
- `tobject_append_attrs` does nothing, and returns `CKR_OK`, when the first
  supplied attribute is empty. This holds even when later attributes in the
  same call are not empty.

Allocation failure is an input. `FindInit` takes the number of allocations
the allocator will grant: one for the search state plus one per matching
object. The append methods take an `oom` flag for their reallocation.

## Model

| member | source | states |
|---|---|---|
| Pkcs11.OaepFieldsRoundTrip | src/lib/object.c:72-78 | the `hashAlg` and `mgf` words read from an OAEP parameter structure are the ones laid out in it |
| AttrMatch.SameAttrIsEquality | src/lib/object.c:156-168 | the filter's test (same type, same length, equal bytes over that length) holds exactly for equal attributes |
| AttrMatch.AttrFilter | src/lib/object.c:139-190 | an empty template passes every record; otherwise a record passes iff every template attribute occurs among its attributes |
| AttrMatch.FilterFailsOnMissing | src/lib/object.c:171-179 | a record that fails has a template attribute with no type/length/bytes match in the record |
| AttrMatch.FilterKeptByAppend | src/lib/object.c:139-190 | adding attributes to a record never makes it fail a template it passed |
| AttrMatch.FilterExample | src/lib/object.c:139-190 | record [(CLASS,"KEY"),(LABEL,"k1")] passes [(CLASS,"KEY")] and fails [(CLASS,"CERT")] |
| AttrMatch.AttributeByType | src/lib/object.c:356-369 | the result is the position of the first attribute of the type, and none iff no attribute has that type |
| AttrMatch.AttributeFull | src/lib/object.c:371-391 | the result is the position of the first attribute equal to the probe (zero-length values compared on type and length), and none iff the probe is absent |
| AttrMatch.FullAgreesWithFilter | src/lib/object.c:371-391 | the exact lookup succeeds iff the record passes the one-entry template made of the probe |
| AttrMatch.ByTypeNoLaterThanFull | src/lib/object.c:356-391 | where the exact lookup finds the probe, the lookup by its type finds an attribute at that position or earlier |
| AttrMatch.ByTypeUnderAppend | src/lib/object.c:356-369 | after appending, a type found before is found at the same place; a type found only in the appended part is found there, shifted by the old length |
| MechCheck.OaepParamsSupported | src/lib/object.c:72-78 | an OAEP request is compatible with a stored OAEP entry iff the first two words (hashAlg and mgf) of the two structures are equal byte for byte |
| MechCheck.OaepLeadingWords | src/lib/object.c:76-77 | comparing the decoded hashAlg and mgf values is the same as comparing the structures' first 16 bytes |
| MechCheck.AesCbcParamsSupported | src/lib/object.c:80-86 | a CBC request is compatible iff its IV is 16 bytes long; the stored entry is not an input |
| MechCheck.MechIsSupported | src/lib/object.c:88-137 | CKR_OK iff some entry with the requested tag has compatible parameters; CKR_MECHANISM_INVALID iff no entry has the tag; CKR_MECHANISM_PARAM_INVALID iff the tag is present but no entry is compatible |
| MechCheck.LaterEntriesIgnored | src/lib/object.c:128-133 | once a compatible entry is reached, entries after it, whatever their parameters, cannot change the CKR_OK answer |
| MechCheck.AbsentTagReadsNothing | src/lib/object.c:96-98 | a record without the requested tag answers CKR_MECHANISM_INVALID for any request parameter, including a null or short one, since no parameter is read |
| MechCheck.ReadsStopAtFirstUsable | src/lib/object.c:128-133 | entries after the first compatible one are never read, so appending any entries, however short their parameters, keeps the check defined |
| MechCheck.RawRsaNeedsOnlyTag | src/lib/object.c:107-111 | a CKM_RSA_X_509 request succeeds iff the record lists that tag, whatever the parameters |
| MechCheck.CbcDependsOnRequestOnly | src/lib/object.c:80-86 | with a CBC entry present, a CBC request succeeds iff its IV is 16 bytes, and otherwise gets CKR_MECHANISM_PARAM_INVALID, whatever the stored parameter |
| MechCheck.OaepIgnoresSourceAndLabel | src/lib/object.c:72-78 | two OAEP requests with the same hashAlg and mgf get the same answer, whatever their other parameter words |
| MechCheck.DefaultRuleIsMembership | src/lib/object.c:122-125 | for any other tag a request succeeds iff the record lists exactly that mechanism with exactly those parameter bytes |
| MechCheck.SupportKeptByAppend | src/lib/object.c:88-137 | appending mechanisms keeps a supported request supported and a known tag known |
| MechCheck.OaepExample | src/lib/object.c:107-136 | against one stored OAEP(SHA-256, MGF1-SHA-256) entry: the same request gives CKR_OK, a SHA-1 or an MGF1-SHA-1 request gives CKR_MECHANISM_PARAM_INVALID, an AES-CBC request gives CKR_MECHANISM_INVALID |
| MechCheck.CbcExample | src/lib/object.c:118-121 | against a stored CBC entry, a 16-byte IV gives CKR_OK and a 12-byte IV gives CKR_MECHANISM_PARAM_INVALID |
| Objects.TObject.constructor | src/lib/object.c:436-445 | a new record is zero-filled: id and handle 0, empty lists, no blobs |
| Objects.TObject.SetBlobData | src/lib/object.c:447-453 | the record holds the given public and private blobs |
| Objects.TObject.SetAuth | src/lib/object.c:455-462 | the record holds the given unsealed and wrapped auth values |
| Objects.TObject.SetHandle | src/lib/object.c:464-468 | the handle becomes the given value |
| Objects.TObject.SetId | src/lib/object.c:495-498 | the id becomes the given value |
| Objects.TObject.AppendAttrs | src/lib/object.c:470-493 | first supplied attribute empty: CKR_OK and no change; reallocation failure: CKR_HOST_MEMORY and no change; otherwise CKR_OK and the list is the old list followed by the supplied attributes |
| Objects.TObject.AppendMechs | src/lib/object.c:500-520 | reallocation failure: CKR_HOST_MEMORY and no change; otherwise CKR_OK and the list is the old list followed by the supplied mechanisms |
| Tokens.MatchingObjects | src/lib/object.c:235-271 | the result holds only store objects that pass the template, and every store object that passes |
| Tokens.MatchingAppend | src/lib/object.c:235-271 | the matches of two stores joined are the matches of the first followed by those of the second (store order is kept) |
| Tokens.MatchingSnoc | src/lib/object.c:237-271 | one more store object adds itself to the matches exactly when it passes |
| Tokens.MatchingOne | src/lib/object.c:243-258 | a one-object store yields that object iff it passes the template |
| Tokens.MatchingPrefixShorter | src/lib/object.c:237-271 | a prefix of the store has no more matches than the whole store |
| Tokens.BuildSnapshot | src/lib/object.c:225-273 | succeeds iff the allocator grants one allocation for the search state plus one per match, and then yields exactly the matching objects in store order |
| Tokens.Token.FindInit | src/lib/object.c:208-287 | a busy slot gives CKR_OPERATION_ACTIVE and is left as it was; too few allocations give CKR_HOST_MEMORY and a free slot; otherwise CKR_OK and the slot holds a search over exactly the matching objects in store order, cursor at 0 |
| Tokens.NextPage | src/lib/object.c:304-315 | a page holds at most the requested number, and no more than remain; it stops short only at the end of the snapshot; it is the snapshot's run from the cursor |
| Tokens.DrainInOrder | src/lib/object.c:289-320 | successive pages return the snapshot from the cursor on, in order, each entry once, up to the total requested |
| Tokens.DrainCoversSnapshot | src/lib/object.c:289-320 | pages requesting in total at least the snapshot's size return the whole snapshot, with no duplicates and no omissions |
| Tokens.Token.Find | src/lib/object.c:289-320 | with a search in the slot: CKR_OK; the ids of the next page go to the front of the caller's array and the rest of it is untouched; the count is the page size; the cursor moves by the count; the snapshot is unchanged. Without one: CKR_OPERATION_NOT_INITIALIZED and nothing changes |
| Tokens.Token.FindFinal | src/lib/object.c:322-338 | with a search in the slot: CKR_OK and the slot is free; without one: CKR_OPERATION_NOT_INITIALIZED and nothing changes |
| Tokens.SearchLifecycle | src/lib/object.c:208-338 | init succeeds; a second init while the search is live gives CKR_OPERATION_ACTIVE; final succeeds; a new init then succeeds |
| Tokens.FindObjectById | src/lib/object.c:340-354 | the result is the first store object whose id equals the handle, and none iff no object has that id |
| Tokens.FillEntry | src/lib/object.c:409-430 | a filled entry keeps its type and still fits its buffer; an entry with a null buffer is always filled and keeps a null buffer |
| Tokens.FillSizeQuery | src/lib/object.c:413-416 | a null buffer receives the stored length of the first attribute of its type, and nothing else in the entry changes |
| Tokens.FillAbsentType | src/lib/object.c:426-430 | a type the record lacks yields (null, 0), not an error |
| Tokens.FillTooSmallIff | src/lib/object.c:419-422 | an entry fails iff it has a buffer and the first attribute of its type is longer than the stated buffer length |
| Tokens.FillDelivers | src/lib/object.c:419-425 | a filled buffer starts with the stored value of the first attribute of the type; the length is set to that value's length; the rest of the buffer is unchanged |
| Tokens.SizeQueryThenFetch | src/lib/object.c:411-425 | a length query with a null buffer, then a buffer of the reported length, succeeds and delivers the stored value (or absent again) |
| Tokens.Token.GetAttributes | src/lib/object.c:393-434 | unknown handle: CKR_OBJECT_HANDLE_INVALID and the template untouched; otherwise CKR_OK iff every entry can be filled, and then all are filled; else CKR_BUFFER_TOO_SMALL at the first failing entry, with earlier entries filled and that entry and later ones untouched |

## Left out

- Memory release (`tobject_free`, `sobject_free`, `wrappingobject_free`, `sealobject_free`, `free_object_find_data`): values have no owner to free. The session, wrapping and seal object kinds are touched only by these, so they are not modelled.
- The operation-slot helpers `token_opdata_is_active`, `token_opdata_set`, `token_opdata_get` and `token_opdata_clear` live in `token.c`, which is not part of this model. The slot is the `op` variant. When no search is in the slot, the lookup's failure is modelled as CKR_OPERATION_NOT_INITIALIZED.
- Tokens.Token.Find: on that failure path, the model returns a count of 0. The code leaves `*object_count` unwritten.
- `utils_attr_deep_copy` and `utils_mech_deep_copy` are foreign helpers, so a deep copy is a value copy. A failure inside them is not modelled. In the code, that failure comes after the list's count has already grown.
- Objects.TObject.constructor: `tobject_new` can return NULL when allocation fails; the constructor always succeeds.
- Objects.TObject.AppendAttrs: when the supplied list is empty, the first-entry guard does not fire and the list grows by nothing. The code reads `attrs->ulValueLen` through the pointer whatever the count.
- Objects.TObject.AppendMechs: `realloc` to zero bytes, when both counts are 0, is treated like any other reallocation.
- `check_pointer`, `assert`, `LOGE` and NULL arguments: inputs are well-formed sequences.
- Raw `calloc`/`realloc` layout, the linked match list and `list_entry` arithmetic become sequences and an index cursor. Only the possibility of allocation failure is kept.
- MechCheck.MechIsSupported requires the hashAlg and mgf words (16 bytes) of the request's and the stored entry's OAEP structure at each entry with the OAEP tag that the scan reaches, since the code dereferences them there without a length check. Entries with other tags, entries after the first compatible one, and a request whose tag the record lacks are not constrained. Both words are taken as read even when hashAlg already differs and `&&` skips mgf. Words are 8-byte little-endian `CK_ULONG`s (LP64).
- MechCheck.ParamsSupported: an OAEP pair too short to hold both words counts as incompatible, which keeps the rule total. The scan never applies it to such a pair under the precondition above.
- Tokens.FindObjectById: an empty store gives no object, so `GetAttributes` answers CKR_OBJECT_HANDLE_INVALID. `find_object_by_id` (src/lib/object.c:342) has no guard against a missing list, unlike `object_find_init` (231-233). It forms the list pointer from NULL, which is undefined behaviour in C.
- Tokens.Token.GetAttributes: each caller buffer is held inside its template entry, so two entries sharing one buffer are not modelled. The caller must state buffer lengths no larger than the buffers.
- The opaque key-material blobs are stored and never inspected, as in the code.
