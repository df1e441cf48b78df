/** The wire format of src/serializer.c: what a frame is, and what decoding accepts. */
module Frame {
  import opened Bytes
  import opened Types

  const SOH: byte := 1
  const STX: byte := 2
  const ETX: byte := 3

  /** Overread: the C code copies bytes from beyond the end of its input. */
  datatype Outcome = Decoded(message: Message) | Rejected(error: Error) | Overread

  /** A version-1 frame up to, and without, its final ETX. */
  function Stem(m: Message, checksum: byte): (s: Data)
    ensures |s| == m.FrameSize() - 1
  {
    [SOH, m.version, Low8(|m.origin|)] + m.origin + [Low8(|m.remote|)] + m.remote
    + [m.ttl] + BigEndian(|m.data|, 8) + [m.options, checksum, STX] + m.data
  }

  /** calculate_checksum: a variable that starts as SOH and is XORed with one field after the other. */
  function Checksum(m: Message): (c: byte) {
    if m.version != VERSION_1 then Xor(SOH, ETX) else
    var c := XorFold(Xor(Xor(SOH, m.version), Low8(|m.origin|)), m.origin);
    var c := XorFold(Xor(c, Low8(|m.remote|)), m.remote);
    var c := XorFold(Xor(c, m.ttl), BigEndian(|m.data|, 8));
    var c := XorFold(Xor(Xor(c, m.options), STX), m.data);
    Xor(c, ETX)
  }

  /** The message as octopipes_encode leaves it: its checksum field set. */
  function Sealed(m: Message): (r: Message) {
    m.(checksum := if m.IgnoresChecksum() then 0 else Checksum(m))
  }

  function Encoded(m: Message): (s: Data)
    ensures |s| == m.FrameSize()
  {
    Stem(m, Sealed(m).checksum) + [ETX]
  }

  function OriginLength(b: Data): nat
    requires |b| >= 3
  {
    b[2]
  }

  function RemoteLength(b: Data): nat
    requires |b| >= 3 && |b| > 3 + OriginLength(b)
  {
    b[3 + OriginLength(b)]
  }

  /** Both names fit in front of the fixed part of the header. */
  predicate NamesFit(b: Data) {
    |b| >= 17 && |b| >= 17 + OriginLength(b) && |b| >= 17 + OriginLength(b) + RemoteLength(b)
  }

  /** Offset of the ttl byte, which follows the two names. */
  function TtlOffset(b: Data): (p: nat)
    requires NamesFit(b)
    ensures p + 13 <= |b|
  {
    4 + OriginLength(b) + RemoteLength(b)
  }

  function DataLength(b: Data): nat
    requires NamesFit(b)
  {
    FromBigEndian(b[TtlOffset(b) + 1..TtlOffset(b) + 9])
  }

  /** Everything octopipes_decode checks before it looks at the payload. */
  predicate WellMarked(b: Data) {
    && |b| >= 17 && b[0] == SOH && b[|b| - 1] == ETX && b[1] == VERSION_1
    && NamesFit(b) && b[TtlOffset(b) + 11] == STX
  }

  function Fields(b: Data): (m: Message)
    requires NamesFit(b) && TtlOffset(b) + 12 + DataLength(b) <= |b|
  {
    var o, p := OriginLength(b), TtlOffset(b);
    Message(b[1], b[3..3 + o], b[4 + o..p], b[p], b[p + 9], b[p + 10], b[p + 12..p + 12 + DataLength(b)])
  }

  /**
   octopipes_decode. The running minimum size counts the payload, but the source then compares the buffer
   with the payload size alone; Documented compares it with the running minimum.
   */
  function Decode(b: Data, reading: Reading): (r: Outcome) {
    if |b| < 17 || b[0] != SOH || b[|b| - 1] != ETX then Rejected(BAD_PACKET)
    else if b[1] != VERSION_1 then Rejected(UNSUPPORTED_VERSION)
    else if !NamesFit(b) || b[TtlOffset(b) + 11] != STX then Rejected(BAD_PACKET)
    else
      var p, d := TtlOffset(b), DataLength(b);
      if |b| < (if reading == AsWritten then d else p + 13 + d) then Rejected(BAD_PACKET)
      else if |b| < p + 12 + d then Overread
      else
        var m := Fields(b);
        if !m.IgnoresChecksum() && Checksum(m) != m.checksum then Rejected(BAD_CHECKSUM) else Decoded(m)
  }

  /** What it means for a buffer to carry a message: no reference to how decoding walks the bytes. */
  predicate Carries(b: Data, m: Message, reading: Reading) {
    && m.version == VERSION_1 && |m.origin| <= 255 && |m.remote| <= 255 && |m.data| < SIZE_LIMIT
    && Stem(m, m.checksum) <= b && b[|b| - 1] == ETX
    && 17 + |m.origin| + |m.remote| + (if reading == AsWritten then 0 else |m.data|) <= |b|
    && (m.IgnoresChecksum() || m.checksum == Checksum(m))
  }

  /** Where the fields of a message are found in its stem. */
  predicate HasLayout(s: Data, m: Message, c: byte) {
    && |s| == m.FrameSize() - 1
    && var o, r := |m.origin|, |m.remote|;
       var p := 4 + o + r;
       && s[0] == SOH && s[1] == m.version && s[2] == Low8(o) && s[3..3 + o] == m.origin
       && s[3 + o] == Low8(r) && s[4 + o..p] == m.remote
       && s[p] == m.ttl && s[p + 1..p + 9] == BigEndian(|m.data|, 8) && s[p + 9] == m.options
       && s[p + 10] == c && s[p + 11] == STX && s[p + 12..] == m.data
  }

  lemma StemLayout(m: Message, c: byte)
    ensures HasLayout(Stem(m, c), m, c)
  {
    var s, o, r := Stem(m, c), |m.origin|, |m.remote|;
    var p := 4 + o + r;
    var h := [SOH, m.version, Low8(o)] + m.origin + [Low8(r)] + m.remote;
    var t := [m.ttl] + BigEndian(|m.data|, 8) + [m.options, c, STX];
    assert s == h + t + m.data;
    assert s[..p] == h && s[p..p + 12] == t;
    assert h[3..3 + o] == m.origin && h[4 + o..] == m.remote;
    assert s[3..3 + o] == h[3..3 + o] && s[4 + o..p] == h[4 + o..];
    assert t[1..9] == BigEndian(|m.data|, 8);
    assert s[p + 1..p + 9] == t[1..9];
  }

  /** The layout determines every byte. */
  lemma StemFromLayout(b: Data, m: Message, c: byte)
    requires HasLayout(b, m, c)
    ensures b == Stem(m, c)
  {
    var s, o, r := Stem(m, c), |m.origin|, |m.remote|;
    var p := 4 + o + r;
    StemLayout(m, c);
    SameSlice(s, b, 3, 3 + o);
    SameSlice(s, b, 4 + o, p);
    SameSlice(s, b, p + 1, p + 9);
    SameSlice(s, b, p + 12, |s|);
  }

  lemma SameSlice(s: Data, t: Data, lo: nat, hi: nat)
    requires lo <= hi <= |s| && hi <= |t| && s[lo..hi] == t[lo..hi]
    ensures forall i :: lo <= i < hi ==> s[i] == t[i]
  {
    forall i | lo <= i < hi ensures s[i] == t[i] {
      assert s[lo..hi][i - lo] == t[lo..hi][i - lo];
    }
  }
}
