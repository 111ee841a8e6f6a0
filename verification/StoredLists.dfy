/** `Vec<Vec<u8>>` values as the store keeps them: JSON arrays of arrays of bytes. */
module StoredLists {
  import opened Bytes
  import opened Json

  function BytesJson(b: Bytes): (j: Json) {
    Arr(seq(|b|, i requires 0 <= i < |b| => Num(b[i])))
  }

  function ListJson(list: seq<Bytes>): (j: Json) {
    Arr(seq(|list|, i requires 0 <= i < |list| => BytesJson(list[i])))
  }

  function JsonBytes(j: Json): (b: Option<Bytes>) {
    if j.Arr? && forall i :: 0 <= i < |j.items| ==> j.items[i].Num? && j.items[i].n < 256 then
      Some(seq(|j.items|, i requires 0 <= i < |j.items| => j.items[i].n))
    else None
  }

  function JsonList(j: Json): (list: Option<seq<Bytes>>) {
    if j.Arr? && forall i :: 0 <= i < |j.items| ==> JsonBytes(j.items[i]).Some? then
      Some(seq(|j.items|, i requires 0 <= i < |j.items| => JsonBytes(j.items[i]).value))
    else None
  }

  function EncodeList(list: seq<Bytes>): (t: Bytes) {
    Encode(ListJson(list))
  }

  function DecodeList(t: Bytes): (list: Option<seq<Bytes>>) {
    match Decode(t)
    case Some(j) => JsonList(j)
    case None => None
  }

  lemma ListRoundTrip(list: seq<Bytes>)
    ensures DecodeList(EncodeList(list)) == Some(list)
  {
    DecodeEncode(ListJson(list));
    forall i | 0 <= i < |list|
      ensures JsonBytes(ListJson(list).items[i]) == Some(list[i])
    {
      assert JsonBytes(BytesJson(list[i])).value == list[i];
    }
    assert JsonList(ListJson(list)).value == list;
  }
}
