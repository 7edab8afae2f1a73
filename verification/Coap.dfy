/** The CoAP vocabulary shared by every component: machine integers, endpoints, block options
    and messages, together with the two value encoders of src/observer.rs. */
module Coap {

  type Byte = b: nat | b < 256

  type Bytes = seq<Byte>

  type U16 = n: nat | n < 0x1_0000

  type U32 = n: nat | n < 0x1_0000_0000

  datatype Option<+T> = None | Some(value: T)

  datatype Result<+T, +E> = Ok(value: T) | Err(error: E)

  function Min(a: nat, b: nat): nat {
    if a <= b then a else b
  }

  // `n + 1` on a u16, wrapping as release builds do.
  function Successor(n: U16): U16 {
    if n == 0xFFFF then 0 else n + 1
  }

  // The message id `count` increments later.
  function IdAfter(id: U16, count: nat): U16 {
    if count == 0 then id else Successor(IdAfter(id, count - 1))
  }

  // ---------------------------------------------------------------- endpoints

  // Everything Rust prints in a socket address: decimal and hexadecimal digits, dots, colons,
  // brackets, and the percent sign before a scope id.
  const ADDRESS_CHARS := "0123456789abcdef.:[]%"

  type AddressText = string

  predicate Printed(text: AddressText) {
    forall c | c in text :: c in ADDRESS_CHARS
  }

  /** A socket address: its printed form, and the IPv6 flow information, which is compared by
      `==` but never printed. */
  datatype SocketAddr = SocketAddr(text: AddressText, flowinfo: U32)

  // ---------------------------------------------------------------- block options

  // The size exponent of a block option, section 2.2 of RFC 7959 (with 7 usable, as coap-lite has it).
  type Exponent = e: nat | e < 8

  function SizeOf(e: Exponent): (size: nat)
    ensures 16 <= size <= 2048
  {
    [16, 32, 64, 128, 256, 512, 1024, 2048][e]
  }

  predicate ValidBlockSize(size: nat) {
    size in [16, 32, 64, 128, 256, 512, 1024, 2048]
  }

  // The largest exponent whose block size does not exceed `size`, or 0 below 16.
  function ExponentFor(size: nat): (e: Exponent)
    ensures size >= 16 ==> SizeOf(e) <= size
    ensures ValidBlockSize(size) ==> SizeOf(e) == size
  {
    if size >= 2048 then 7 else if size >= 1024 then 6 else if size >= 512 then 5
    else if size >= 256 then 4 else if size >= 128 then 3 else if size >= 64 then 2
    else if size >= 32 then 1 else 0
  }

  /** The exponent declared for a size is that of the largest block that fits into it. */
  lemma ExponentIsLargest(size: nat, e: Exponent)
    ensures SizeOf(e) <= size ==> e <= ExponentFor(size)
    ensures ValidBlockSize(size) <==> SizeOf(ExponentFor(size)) == size
  {
  }

  datatype BlockValue = BlockValue(num: U16, more: bool, exponent: Exponent) {
    function Size(): (size: nat)
      ensures 16 <= size <= 2048
    {
      SizeOf(exponent)
    }
  }

  /** coap-lite's `BlockValue::new`: no value when the number does not fit u16 or the size
      has no exponent. */
  function NewBlockValue(num: nat, more: bool, size: nat): (r: Option<BlockValue>)
    ensures r.Some? <==> num < 0x1_0000 && 0 < size < 4096
    ensures r.Some? ==> r.value.num == num && r.value.more == more
    ensures r.Some? && ValidBlockSize(size) ==> r.value.Size() == size
  {
    if num < 0x1_0000 && 0 < size < 4096 then Some(BlockValue(num, more, ExponentFor(size))) else None
  }

  // A Block1 or Block2 option as a receiver sees it.
  datatype BlockOption = Absent | Malformed | Block(value: BlockValue)

  // ---------------------------------------------------------------- messages

  datatype MessageType = Confirmable | NonConfirmable | Acknowledgement | Reset

  datatype Status = Content | Changed | Continue | NotFound | OtherStatus(code: nat)

  /** The parts of a response message the modelled code reads or writes. */
  datatype Message = Message(
    mtype: MessageType,
    status: Status,
    id: U16,
    token: Bytes,
    observe: Option<U32>,
    etag: Option<Bytes>,
    size2: Option<Bytes>,
    block1: BlockOption,
    block2: BlockOption,
    payload: Bytes)

  datatype ErrorKind = InvalidData | InvalidInput | Unsupported | Interrupted | TimedOut
                     | WouldBlock | KindNotFound | OtherKind

  type IoResult<+T> = Result<T, ErrorKind>

  // ---------------------------------------------------------------- CoAP uint

  function BigEndian(v: U32): (b: Bytes)
    ensures |b| == 4
  {
    [v / 0x100_0000, v / 0x1_0000 % 256, v / 256 % 256, v % 256]
  }

  function SkipZeros(b: Bytes): (r: Bytes)
    ensures |r| <= |b|
    ensures r != [] ==> r[0] != 0
  {
    if b == [] || b[0] != 0 then b else SkipZeros(b[1..])
  }

  /** The value of a CoAP uint option: big-endian, no leading zeros, saturated at 2^32 - 1. */
  function EncodeCoapUint(value: nat): (r: Bytes)
    ensures |r| <= 4 && (r != [] ==> r[0] != 0)
  {
    var saturated: U32 := if value < 0x1_0000_0000 then value else 0xFFFF_FFFF;
    SkipZeros(BigEndian(saturated))
  }

  function DecodeCoapUint(b: Bytes): nat {
    if b == [] then 0 else 256 * DecodeCoapUint(b[..|b| - 1]) + b[|b| - 1]
  }

  lemma {:induction false} LeadingZeroDecodes(b: Bytes)
    requires b != [] && b[0] == 0
    ensures DecodeCoapUint(b) == DecodeCoapUint(b[1..])
  {
    if |b| > 1 {
      LeadingZeroDecodes(b[..|b| - 1]);
      assert b[1..][..|b[1..]| - 1] == b[..|b| - 1][1..];
    }
  }

  lemma {:induction false} SkipZerosDecodes(b: Bytes)
    ensures DecodeCoapUint(SkipZeros(b)) == DecodeCoapUint(b)
  {
    if b != [] && b[0] == 0 {
      LeadingZeroDecodes(b);
      SkipZerosDecodes(b[1..]);
    }
  }

  lemma DecodeSnoc(b: Bytes, x: Byte)
    ensures DecodeCoapUint(b + [x]) == 256 * DecodeCoapUint(b) + x
  {
    assert (b + [x])[..|b|] == b;
  }

  lemma DecodeFour(a: Byte, b: Byte, c: Byte, d: Byte)
    ensures DecodeCoapUint([a, b, c, d]) == 256 * (256 * (256 * a + b) + c) + d
  {
    DecodeSnoc([], a);
    DecodeSnoc([a], b);
    DecodeSnoc([a, b], c);
    DecodeSnoc([a, b, c], d);
    assert [] + [a] == [a];
    assert [a] + [b] == [a, b];
    assert [a, b] + [c] == [a, b, c];
    assert [a, b, c] + [d] == [a, b, c, d];
  }

  lemma DigitsSum(v: U32)
    ensures v == 256 * (256 * (256 * (v / 0x100_0000) + v / 0x1_0000 % 256) + v / 256 % 256) + v % 256
  {
  }

  lemma DecodeBigEndian(v: U32)
    ensures DecodeCoapUint(BigEndian(v)) == v
  {
    DigitsSum(v);
    DecodeFour(v / 0x100_0000, v / 0x1_0000 % 256, v / 256 % 256, v % 256);
  }

  /** Decoding undoes encoding up to the saturation, so distinct sizes below 2^32 stay distinct. */
  lemma CoapUintRoundTrip(value: nat)
    ensures DecodeCoapUint(EncodeCoapUint(value)) == if value < 0x1_0000_0000 then value else 0xFFFF_FFFF
  {
    var saturated: U32 := if value < 0x1_0000_0000 then value else 0xFFFF_FFFF;
    DecodeBigEndian(saturated);
    SkipZerosDecodes(BigEndian(saturated));
  }
}
