/** A Go value encoded into a body of its own, and decoded again. */
module GoCodec {
  import opened Varint
  import opened Wire
  import opened GoSpec
  import opened GoEncoder
  import opened GoDecoder

  /** The encoder starts behind one byte that is not part of the body, so that offsets count from one. */
  method RoundTrip(v: Value, disableDedup: bool) returns (body: seq<byte>, back: Option<Res<Value>>)
    requires Fits(v)
    ensures back.Some? <==> |body| <= 0x7fff_ffff_ffff_ffff
    ensures back.Some? && NoUint(v) ==> back.value == Good(v, |body|)
    ensures back.Some? ==> back.value.Good? && back.value.next == |body| && Comes(v, back.value.value)
  {
    hide ValueAt, Normal, Fits, StringAt, Comes, NoUint;
    var encoder := new Encoder(disableDedup);
    body := encoder.Encode([0], v);
    if |body| > MAX_LEN {
      return body, None;
    }
    WrittenBack([0], body, v);
    var decoder := new Decoder();
    var r := decoder.Decode(body, 1);
    back := Some(r);
  }
}
