/**
 * The JPEG 2000 association box of `ASOCBox`: a box with the type tag
 * `asoc`, built from its raw payload bytes. Its header is the 4-byte LBox
 * (total length) and the 4-byte TBox (type) of Annex I.4 of ISO/IEC 15444-1.
 *
 * In this class `compose` yields no encoding and `parse` does nothing; the
 * model says exactly that and no more.
 */
module ASOCBox {
  import opened JavaLang

  /** Bytes of the LBox field (total box length) of a box header. */
  const LBOX_BYTES: nat := 4

  /** Bytes of the TBox field (box type) of a box header. */
  const TBOX_BYTES: nat := 4

  /** The header that `8 + data.length` accounts for. */
  const HEADER_BYTES: nat := LBOX_BYTES + TBOX_BYTES

  /** `ASOCBox.BOX_TYPE`. */
  const BOX_TYPE: int32 := 0x61736F63

  /** `ASOCBox.NAME`. */
  const NAME: string := "asoc"

  /** `ASOCBox.JP2K_MD_NAME`, the name of the box's metadata node. */
  const JP2K_MD_NAME: string := "JP2KAsocBox"

  /** What the box passes to its super-constructor: total length, type tag and payload. */
  datatype Box = Box(length: int32, boxType: int32, data: seq<int8>)

  /**
   * `new ASOCBox(data)`, that is `super(8 + data.length, BOX_TYPE, data)`.
   * The sum is Java `int` arithmetic: it is the true total length exactly
   * when the payload has at most `INT_MAX - 8` bytes, and wraps to a
   * negative value beyond.
   */
  function FromData(data: seq<int8>): (b: Box)
    requires |data| <= INT_MAX
    ensures b.boxType == BOX_TYPE
    ensures b.data == data
    ensures b.length as int >= HEADER_BYTES <==> |data| <= INT_MAX - HEADER_BYTES
    ensures |data| <= INT_MAX - HEADER_BYTES ==> b.length as int == HEADER_BYTES + |data|
    ensures |data| > INT_MAX - HEADER_BYTES ==>
              b.length < 0 && b.length as int == HEADER_BYTES + |data| - 0x1_0000_0000
  {
    Box(WrapInt32(HEADER_BYTES + |data|), BOX_TYPE, data)
  }

  /** `compose()`: this box kind yields no encoding (null), whatever the box. */
  function Compose(b: Box): (r: Option<seq<int8>>)
    ensures r == None
  {
    None
  }

  /** `parse(data)`: the body is empty, so the box after the call is the box before it. */
  function Parse(b: Box, data: seq<int8>): (r: Box)
    ensures r == b
  {
    b
  }

  /** The four bytes of a type tag, most significant first, each in 0..255. */
  function TagBytes(tag: int32): (r: seq<int>)
    ensures |r| == 4
    ensures forall k :: 0 <= k < |r| ==> 0 <= r[k] < 0x100
  {
    var u := tag as int % 0x1_0000_0000;
    [u / 0x100_0000, u / 0x1_0000 % 0x100, u / 0x100 % 0x100, u % 0x100]
  }

  /** The big-endian value of four bytes. */
  function TagOfBytes(b: seq<int>): int
    requires |b| == 4
  {
    ((b[0] * 0x100 + b[1]) * 0x100 + b[2]) * 0x100 + b[3]
  }

  /** The character codes of a string. */
  function AsciiCodes(s: string): seq<int>
  {
    seq(|s|, k requires 0 <= k < |s| => s[k] as int)
  }

  /**
   * Reading the bytes of a tag back gives the tag as an unsigned 32-bit
   * value, which is the tag itself when it is non-negative.
   */
  lemma TagBytesRoundTrip(tag: int32)
    ensures TagOfBytes(TagBytes(tag)) == tag as int % 0x1_0000_0000
    ensures tag >= 0 ==> TagOfBytes(TagBytes(tag)) == tag as int
  {
    var u := tag as int % 0x1_0000_0000;
    var b := TagBytes(tag);
    assert b[0] * 0x100 + b[1] == u / 0x1_0000;
    assert (u / 0x1_0000) * 0x100 + b[2] == u / 0x100;
    assert (u / 0x100) * 0x100 + b[3] == u;
  }

  /** `BOX_TYPE` is the four-character code `NAME`: its bytes are 0x61 0x73 0x6F 0x63, "asoc". */
  lemma BoxTypeSpellsName()
    ensures TagBytes(BOX_TYPE) == [0x61, 0x73, 0x6F, 0x63]
    ensures TagBytes(BOX_TYPE) == AsciiCodes(NAME)
    ensures TagOfBytes(AsciiCodes(NAME)) == BOX_TYPE as int
  {
  }

  /** The type tag of a box does not depend on its payload. */
  lemma TypeIndependentOfData(d1: seq<int8>, d2: seq<int8>)
    requires |d1| <= INT_MAX && |d2| <= INT_MAX
    ensures FromData(d1).boxType == FromData(d2).boxType == BOX_TYPE
  {
  }

  /** The payload is kept as given, so two boxes are equal exactly when their payloads are. */
  lemma FromDataIsInjective(d1: seq<int8>, d2: seq<int8>)
    requires |d1| <= INT_MAX && |d2| <= INT_MAX
    ensures FromData(d1) == FromData(d2) <==> d1 == d2
  {
  }

  /** A box with a four-byte payload is twelve bytes long. */
  lemma FourBytePayload()
    ensures FromData([1, 2, 3, 4]).length == 12
  {
  }
}
