/** The 64-bit byte-order helpers that payload fields go through. Words of 32 bits are
    kept in the lower half of a 64-bit value. */
module ByteOrder {

  function SwapBytes(x: bv64): bv64 {
    ((x >> 24) & 0xff) | ((x >> 8) & 0xff00) | ((x << 8) & 0xff_0000) | ((x << 24) & 0xff00_0000)
  }

  /** `htonl` and `ntohl` on a host of either byte order. */
  function Htonl(x: bv64, littleEndian: bool): bv64 {
    if littleEndian then SwapBytes(x) else x
  }

  function HighWord(value: bv64): bv64 {
    value >> 32
  }

  function LowWord(value: bv64): bv64 {
    value & 0xffff_ffff
  }

  /** `host_to_net_u64`, and `net_to_host_u64` with the same body. */
  function HostToNet(value: bv64, littleEndian: bool): bv64 {
    (Htonl(LowWord(value), littleEndian) << 32) | Htonl(HighWord(value), littleEndian)
  }

  /** The bytes of a value, the least significant one first. */
  function BytesUp(v: bv64): seq<bv64> {
    [v & 0xff, (v >> 8) & 0xff, (v >> 16) & 0xff, (v >> 24) & 0xff,
     (v >> 32) & 0xff, (v >> 40) & 0xff, (v >> 48) & 0xff, (v >> 56) & 0xff]
  }

  /** The bytes of a value, the most significant one first. */
  function BytesDown(v: bv64): seq<bv64> {
    [(v >> 56) & 0xff, (v >> 48) & 0xff, (v >> 40) & 0xff, (v >> 32) & 0xff,
     (v >> 24) & 0xff, (v >> 16) & 0xff, (v >> 8) & 0xff, v & 0xff]
  }

  /** What a host's memory holds, by rising address. */
  function Stored(v: bv64, littleEndian: bool): seq<bv64> {
    if littleEndian then BytesUp(v) else BytesDown(v)
  }

  lemma RoundTripLittle(value: bv64)
    ensures HostToNet(HostToNet(value, true), true) == value
  {
  }

  lemma RoundTripBig(value: bv64)
    ensures HostToNet(HostToNet(value, false), false) == value
  {
  }

  /** Converting twice gives the value back, on either host. */
  lemma RoundTrip(value: bv64, littleEndian: bool)
    ensures HostToNet(HostToNet(value, littleEndian), littleEndian) == value
  {
    RoundTripLittle(value);
    RoundTripBig(value);
  }

  function Assembled(bytes: seq<bv64>): bv64
    requires |bytes| == 8
  {
    (bytes[0] << 56) | (bytes[1] << 48) | (bytes[2] << 40) | (bytes[3] << 32)
    | (bytes[4] << 24) | (bytes[5] << 16) | (bytes[6] << 8) | bytes[7]
  }

  lemma BytesDetermine(v: bv64)
    ensures Assembled(BytesDown(v)) == v
  {
  }

  /** On a little-endian host the stored bytes are the value's, most significant one first. */
  lemma LittleEndianHost(value: bv64)
    ensures BytesUp(HostToNet(value, true)) == BytesDown(value)
  {
  }

  /** On a big-endian host the two words trade places. */
  lemma BigEndianHost(value: bv64)
    ensures BytesDown(HostToNet(value, false)) == BytesDown(value) <==> HighWord(value) == LowWord(value)
  {
    BytesDetermine(value);
    BytesDetermine(HostToNet(value, false));
    SameWords(value);
    hide BytesDown, HostToNet, HighWord, LowWord;
  }

  lemma SameWords(value: bv64)
    ensures HostToNet(value, false) == value <==> HighWord(value) == LowWord(value)
  {
    hide HighWord, LowWord;
    WordsTradePlaces(value);
    WordsJoin(value);
  }

  lemma WordsTradePlaces(value: bv64)
    ensures HighWord(HostToNet(value, false)) == LowWord(value)
  {
  }

  lemma WordsJoin(value: bv64)
    ensures (HighWord(value) << 32) | LowWord(value) == value
  {
  }

  /** The wire carries big-endian bytes exactly when the host is little-endian or the two
      words of the value are equal. */
  lemma StoredBigEndian(value: bv64, littleEndian: bool)
    ensures Stored(HostToNet(value, littleEndian), littleEndian) == BytesDown(value)
      <==> littleEndian || HighWord(value) == LowWord(value)
  {
    LittleEndianHost(value);
    BigEndianHost(value);
  }
}
