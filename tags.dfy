/** The one-byte type tags that prefix every encoded value. Their numeric
    values belong to a protocol table that is not part of this model, so a
    table is a parameter: any assignment of bytes to tags. */
module Tags {
  import opened Wrappers
  import opened Bytes

  /** The tags the encoder writes. */
  datatype TypeTag =
    | BoolFalse
    | BoolTrue
    | Int8
    | UInt8
    | Int16
    | UInt16
    | Int32
    | UInt32
    | String

  const AllTags: seq<TypeTag> :=
    [BoolFalse, BoolTrue, Int8, UInt8, Int16, UInt16, Int32, UInt32, String]

  datatype TagTable = TagTable(code: TypeTag -> byte) {
    /** No two tags share a byte: what lets a reader tell them apart. */
    ghost predicate Distinct() {
      forall s: TypeTag, t: TypeTag :: code(s) == code(t) ==> s == t
    }
  }

  /** The first tag in `ts` whose byte is `b`. */
  function LookupIn(tags: TagTable, b: byte, ts: seq<TypeTag>): (r: Option<TypeTag>)
    ensures r.Some? ==> r.value in ts && tags.code(r.value) == b
    ensures r.None? ==> forall t :: t in ts ==> tags.code(t) != b
  {
    if ts == [] then None
    else if tags.code(ts[0]) == b then Some(ts[0])
    else LookupIn(tags, b, ts[1..])
  }

  /** The tag a reader sees in byte `b`, if any. */
  function Lookup(tags: TagTable, b: byte): Option<TypeTag>
  {
    LookupIn(tags, b, AllTags)
  }

  /** With distinct bytes, every tag is recognised from its own byte. */
  lemma LookupCode(tags: TagTable, t: TypeTag)
    requires tags.Distinct()
    ensures Lookup(tags, tags.code(t)) == Some(t)
  {
  }
}
