/** Laws of the wire format: round trip, canonicity, the XOR invariant and error detection. */
module FrameLaws {
  import opened Bytes
  import opened Types
  import opened Frame

  // ----- Decoding accepts exactly the buffers that carry a message -----

  lemma FieldsStem(b: Data)
    requires WellMarked(b) && TtlOffset(b) + 12 + DataLength(b) <= |b|
    ensures Stem(Fields(b), Fields(b).checksum) == b[..TtlOffset(b) + 12 + DataLength(b)]
    ensures DataLength(b) < SIZE_LIMIT
  {
    hide Stem, BigEndian, FromBigEndian, Checksum;
    var m, p, o := Fields(b), TtlOffset(b), OriginLength(b);
    var s := b[..p + 12 + DataLength(b)];
    FromBigEndianRoundTrip(b[p + 1..p + 9]);
    PowOf256();
    SliceOfPrefix(b, |s|, 3, 3 + o);
    SliceOfPrefix(b, |s|, 4 + o, p);
    SliceOfPrefix(b, |s|, p + 1, p + 9);
    SliceOfPrefix(b, |s|, p + 12, |s|);
    StemFromLayout(s, m, m.checksum);
  }

  lemma SliceOfPrefix(b: Data, n: nat, lo: nat, hi: nat)
    requires lo <= hi <= n <= |b|
    ensures b[..n][lo..hi] == b[lo..hi]
  {
  }

  lemma DecodedIsCarried(b: Data, m: Message, reading: Reading)
    requires Decode(b, reading) == Decoded(m)
    ensures Carries(b, m, reading)
  {
    FieldsStem(b);
  }

  lemma CarriedLayout(b: Data, m: Message, reading: Reading)
    requires Carries(b, m, reading)
    ensures WellMarked(b)
    ensures OriginLength(b) == |m.origin| && RemoteLength(b) == |m.remote| && DataLength(b) == |m.data|
    ensures Fields(b) == m
  {
    var n, p := |Stem(m, m.checksum)|, 4 + |m.origin| + |m.remote|;
    StemLayout(m, m.checksum);
    CarriedNames(b, m, reading);
    CarriedSize(b, m, reading);
    SliceOfPrefix(b, n, p + 12, n);
    assert b[..n] == Stem(m, m.checksum);
  }

  lemma CarriedSize(b: Data, m: Message, reading: Reading)
    requires Carries(b, m, reading) && NamesFit(b) && TtlOffset(b) == 4 + |m.origin| + |m.remote|
    ensures DataLength(b) == |m.data|
  {
    var n, p := |Stem(m, m.checksum)|, TtlOffset(b);
    assert b[p + 1..p + 9] == BigEndian(|m.data|, 8) by {
      StemLayout(m, m.checksum);
      assert b[..n] == Stem(m, m.checksum);
      SliceOfPrefix(b, n, p + 1, p + 9);
    }
    SizeRoundTrip(|m.data|);
  }

  lemma SizeRoundTrip(n: nat)
    requires n < SIZE_LIMIT
    ensures FromBigEndian(BigEndian(n, 8)) == n
  {
    BigEndianRoundTrip(n, 8);
    PowOf256();
  }

  lemma CarriedNames(b: Data, m: Message, reading: Reading)
    requires Carries(b, m, reading)
    ensures b[0] == SOH && b[1] == m.version && NamesFit(b)
    ensures OriginLength(b) == |m.origin| && RemoteLength(b) == |m.remote|
    ensures b[3..3 + |m.origin|] == m.origin && b[4 + |m.origin|..4 + |m.origin| + |m.remote|] == m.remote
  {
    hide Stem, BigEndian, Checksum;
    var n, o, r := |Stem(m, m.checksum)|, |m.origin|, |m.remote|;
    StemLayout(m, m.checksum);
    assert b[..n] == Stem(m, m.checksum);
    assert b[2] == b[..n][2] == o && b[3 + o] == b[..n][3 + o] == r;
    SliceOfPrefix(b, n, 3, 3 + o);
    SliceOfPrefix(b, n, 4 + o, 4 + o + r);
  }

  lemma DecodesIffCarries(b: Data, m: Message, reading: Reading)
    ensures Decode(b, reading) == Decoded(m) <==> Carries(b, m, reading)
  {
    if Carries(b, m, reading) {
      CarriedLayout(b, m, reading);
    }
    if Decode(b, reading) == Decoded(m) {
      DecodedIsCarried(b, m, reading);
    }
  }

  // ----- Round trip and canonicity -----

  /** Whatever follows a frame is ignored, as long as the buffer still ends in ETX. */
  lemma DecodeInvertsEncode(m: Message, rest: Data, reading: Reading)
    requires m.version == VERSION_1 && m.Sized()
    ensures Decode(Encoded(m) + rest, reading) == Decoded(Sealed(m)) <==> rest == [] || rest[|rest| - 1] == ETX
  {
    var b := Encoded(m) + rest;
    var n := Sealed(m);
    assert Stem(m, n.checksum) == Stem(n, n.checksum);
    assert Stem(n, n.checksum) <= b;
    DecodesIffCarries(b, n, reading);
  }

  /** Of two concatenated frames the first one is returned, so a second message in one read is lost. */
  lemma FirstOfTwoFrames(m: Message, n: Message, reading: Reading)
    requires m.version == VERSION_1 && m.Sized()
    ensures Decode(Encoded(m) + Encoded(n), reading) == Decoded(Sealed(m))
  {
    DecodeInvertsEncode(m, Encoded(n), reading);
  }

  /** Two messages with the same frame agree on everything but the checksum the encoder overwrites. */
  lemma EncodingIsInjective(m: Message, n: Message)
    requires m.version == n.version == VERSION_1 && m.Sized() && n.Sized()
    ensures Encoded(m) == Encoded(n) <==> m.(checksum := 0) == n.(checksum := 0)
  {
    if Encoded(m) == Encoded(n) {
      DecodeInvertsEncode(m, [], Documented);
      DecodeInvertsEncode(n, [], Documented);
      assert Encoded(m) + [] == Encoded(n) + [];
    }
  }

  /** A decoded buffer re-encodes to itself iff it has no trailing bytes and its checksum is the encoder's. */
  lemma Canonicity(b: Data, m: Message, reading: Reading)
    requires Decode(b, reading) == Decoded(m)
    ensures m.FrameSize() - 1 <= |b|
    ensures reading == Documented ==> m.FrameSize() <= |b|
    ensures Encoded(m) == b <==> |b| == m.FrameSize() && (!m.IgnoresChecksum() || m.checksum == 0)
  {
    DecodesIffCarries(b, m, reading);
    var s := Stem(m, m.checksum);
    assert b[..|s|] == s;
    if |b| == m.FrameSize() {
      assert b == s + [ETX];
      StemLayout(m, m.checksum);
      StemLayout(m, Sealed(m).checksum);
    }
  }

  // ----- The comparison that does not use the running minimum -----

  /** The payload size passes the comparison as written although the frame does not fit the buffer. */
  predicate Truncated(b: Data) {
    WellMarked(b) && DataLength(b) <= |b| < TtlOffset(b) + 13 + DataLength(b)
  }

  /** The copy leaves the buffer exactly for truncated frames that lack more than their last byte. */
  lemma OverreadsExactlyWhen(b: Data)
    ensures Decode(b, AsWritten) == Overread <==> Truncated(b) && |b| < TtlOffset(b) + 12 + DataLength(b)
    ensures Decode(b, Documented) != Overread
  {
  }

  /** Such an input: a header of 17 bytes that announces two payload bytes. */
  lemma HeaderOverread()
    ensures Decode([1, 1, 0, 0, 0, 0, 0, 0, 0, 0, 0, 0, 2, 0, 0, 2, 3], AsWritten) == Overread
    ensures Decode([1, 1, 0, 0, 0, 0, 0, 0, 0, 0, 0, 0, 2, 0, 0, 2, 3], Documented) == Rejected(BAD_PACKET)
  {
    hide Decode, FromBigEndian, BigEndian;
    var b: Data := [1, 1, 0, 0, 0, 0, 0, 0, 0, 0, 0, 0, 2, 0, 0, 2, 3];
    assert TtlOffset(b) == 4 && b[5..13] == [0, 0, 0, 0, 0, 0, 0, 2];
    SizeRoundTrip(2);
    TwoInEightBytes();
    OverreadsExactlyWhen(b);
    ReadingsDifferExactlyWhen(b);
  }

  lemma TwoInEightBytes()
    ensures BigEndian(2, 8) == [0, 0, 0, 0, 0, 0, 0, 2]
  {
    assert BigEndian(0, 7) == [0, 0, 0, 0, 0, 0, 0];
  }

  /** The two comparisons disagree exactly on truncated frames; the documented one rejects all of them. */
  lemma ReadingsDifferExactlyWhen(b: Data)
    ensures Decode(b, AsWritten) != Decode(b, Documented) <==> Truncated(b)
    ensures Truncated(b) ==> Decode(b, Documented) == Rejected(BAD_PACKET)
  {
  }

  /** A frame whose ETX was lost is accepted as written whenever its payload happens to end in ETX. */
  lemma LostEtxAccepted(m: Message)
    requires m.version == VERSION_1 && m.Sized() && m == Sealed(m) && m.data != []
    ensures Decode(Stem(m, m.checksum), AsWritten) == Decoded(m) <==> m.data[|m.data| - 1] == ETX
    ensures Decode(Stem(m, m.checksum), Documented).Rejected?
  {
    hide Stem, BigEndian, Checksum, FromBigEndian;
    var b := Stem(m, m.checksum);
    StemLayout(m, m.checksum);
    assert b[|b| - 1] == m.data[|m.data| - 1];
    DecodesIffCarries(b, m, AsWritten);
    if b[|b| - 1] == ETX {
      CarriedLayout(b, m, AsWritten);
    }
  }

  /** Such an input: the payload [ETX], sent without a checksum. */
  lemma ShortFrameAccepted()
    ensures var m := Message(VERSION_1, [], [], 0, IGNORE_CHECKSUM, 0, [ETX]);
            Decode(Stem(m, 0), AsWritten) == Decoded(m) && Decode(Stem(m, 0), Documented).Rejected?
  {
    LostEtxAccepted(Message(VERSION_1, [], [], 0, IGNORE_CHECKSUM, 0, [ETX]));
  }

  // ----- The XOR of a frame -----

  /** The field-wise checksum is a fold over the buffer. */
  lemma ChecksumIsFold(m: Message, c: byte)
    requires m.version == VERSION_1
    ensures XorFold(0, Stem(m, c) + [ETX]) == Xor(Checksum(m), c)
  {
    hide Xor, XorFold, BigEndian;
    var h := [SOH, m.version, Low8(|m.origin|)] + m.origin + [Low8(|m.remote|)] + m.remote
             + [m.ttl] + BigEndian(|m.data|, 8);
    var t := [STX] + m.data + [ETX];
    var x := XorFold(0, h);
    HeaderFold(m);
    assert Stem(m, c) + [ETX] == h + [m.options, c] + t;
    XorFoldConcat(0, h + [m.options, c], t);
    XorFoldConcat(0, h, [m.options, c]);
    FoldTwo(x, m.options, c);
    XorFoldShift(Xor(x, m.options), c, t);
    XorFoldConcat(Xor(x, m.options), [STX] + m.data, [ETX]);
    XorFoldConcat(Xor(x, m.options), [STX], m.data);
    FoldOne(Xor(x, m.options), STX);
    FoldOne(XorFold(Xor(Xor(x, m.options), STX), m.data), ETX);
  }

  lemma FoldOne(x: byte, a: byte)
    ensures XorFold(x, [a]) == Xor(x, a)
  {
    assert [a][1..] == [];
  }

  lemma FoldTwo(x: byte, a: byte, b: byte)
    ensures XorFold(x, [a, b]) == Xor(Xor(x, a), b)
  {
    assert [a, b] == [a] + [b];
    XorFoldConcat(x, [a], [b]);
    FoldOne(x, a);
    FoldOne(Xor(x, a), b);
  }

  lemma HeaderFold(m: Message)
    ensures var h := [SOH, m.version, Low8(|m.origin|)] + m.origin + [Low8(|m.remote|)] + m.remote
                     + [m.ttl] + BigEndian(|m.data|, 8);
            var c := XorFold(Xor(Xor(SOH, m.version), Low8(|m.origin|)), m.origin);
            var c := XorFold(Xor(c, Low8(|m.remote|)), m.remote);
            XorFold(0, h) == XorFold(Xor(c, m.ttl), BigEndian(|m.data|, 8))
  {
    var a := [SOH, m.version, Low8(|m.origin|)];
    var h1 := a + m.origin;
    var h2 := h1 + [Low8(|m.remote|)] + m.remote;
    XorLaws(SOH, 0, 0);
    assert a == [SOH] + [m.version, Low8(|m.origin|)];
    XorFoldConcat(0, [SOH], [m.version, Low8(|m.origin|)]);
    FoldOne(0, SOH);
    FoldTwo(SOH, m.version, Low8(|m.origin|));
    XorFoldConcat(0, a, m.origin);
    XorFoldConcat(0, h1 + [Low8(|m.remote|)], m.remote);
    XorFoldConcat(0, h1, [Low8(|m.remote|)]);
    FoldOne(XorFold(0, h1), Low8(|m.remote|));
    XorFoldConcat(0, h2 + [m.ttl], BigEndian(|m.data|, 8));
    XorFoldConcat(0, h2, [m.ttl]);
    FoldOne(XorFold(0, h2), m.ttl);
  }

  /** A frame sent with its checksum in force XORs to zero. */
  lemma FrameXorsToZero(m: Message)
    requires m.version == VERSION_1
    ensures !m.IgnoresChecksum() ==> XorFold(0, Encoded(m)) == 0
  {
    ChecksumIsFold(m, Sealed(m).checksum);
    XorLaws(Checksum(m), Checksum(m), 0);
  }

  /** A well-marked buffer that is exactly one frame. */
  predicate ExactFrame(b: Data) {
    WellMarked(b) && |b| == TtlOffset(b) + 13 + DataLength(b)
  }

  lemma ExactFrameIsStem(b: Data)
    requires ExactFrame(b)
    ensures b == Stem(Fields(b), Fields(b).checksum) + [ETX]
  {
    FieldsStem(b);
    assert b == b[..|b| - 1] + [b[|b| - 1]];
  }

  /** With the checksum in force, an exact frame is accepted iff the XOR of all its bytes is zero. */
  lemma AcceptedIffXorZero(b: Data, reading: Reading)
    requires ExactFrame(b) && !Fields(b).IgnoresChecksum()
    ensures Decode(b, reading).Decoded? <==> XorFold(0, b) == 0
    ensures XorFold(0, b) != 0 ==> Decode(b, reading) == Rejected(BAD_CHECKSUM)
  {
    ExactFrameIsStem(b);
    ChecksumIsFold(Fields(b), Fields(b).checksum);
    XorIsZero(Checksum(Fields(b)), Fields(b).checksum);
  }

  /** With the checksum in force, whatever follows the frame: accepted iff the frame XORs to zero. */
  lemma ChecksumDecides(b: Data, reading: Reading)
    requires WellMarked(b) && TtlOffset(b) + 13 + DataLength(b) <= |b| && !Fields(b).IgnoresChecksum()
    ensures Decode(b, reading) == if XorFold(0, b[..TtlOffset(b) + 12 + DataLength(b)] + [ETX]) == 0
                                  then Decoded(Fields(b)) else Rejected(BAD_CHECKSUM)
  {
    hide XorFold, Xor, Checksum, Stem, FromBigEndian;
    FieldsStem(b);
    ChecksumIsFold(Fields(b), Fields(b).checksum);
    XorIsZero(Checksum(Fields(b)), Fields(b).checksum);
  }

  /** The version is looked at after the two markers and before everything else. */
  lemma VersionRefusedIff(b: Data, reading: Reading)
    ensures Decode(b, reading) == Rejected(UNSUPPORTED_VERSION)
            <==> |b| >= 17 && b[0] == 1 && b[|b| - 1] == 3 && b[1] != 1
  {
  }

  /** The bits of the options byte. */
  lemma OptionBits(m: Message)
    ensures m.RequiresAck() <==> m.options % 2 == 1
    ensures m.IgnoresChecksum() <==> m.options % 8 >= 4
  {
  }

  /** A message of another version has the checksum of the two markers. */
  lemma OtherVersionChecksum(m: Message)
    requires m.version != 1
    ensures Checksum(m) == 2
  {
  }

  /** A frame in bytes: a sends [7] to b, to be acknowledged, for 60 seconds. */
  lemma FrameInBytes()
    ensures Encoded(Message(1, [97], [98], 60, 1, 0, [7]))
         == [1, 1, 1, 97, 1, 98, 60, 0, 0, 0, 0, 0, 0, 0, 1, 1, 57, 2, 7, 3]
  {
    hide Checksum, BigEndian;
    ChecksumInBytes();
    SmallInEightBytes();
  }

  lemma ChecksumInBytes()
    ensures Checksum(Message(1, [97], [98], 60, 1, 0, [7])) == 57
  {
    hide Xor, XorFold, BigEndian;
    SomeXors();
    SmallInEightBytes();
    FoldOne(1, 97);
    FoldOne(97, 98);
    FoldOne(61, 7);
    XorFoldConcat(63, [0, 0, 0, 0, 0, 0, 0], [1]);
    assert [0, 0, 0, 0, 0, 0, 0] + [1] == [0, 0, 0, 0, 0, 0, 0, 1];
    FoldZeros(63, [0, 0, 0, 0, 0, 0, 0]);
    FoldOne(63, 1);
  }

  lemma SomeXors()
    ensures Xor(1, 1) == 0 && Xor(0, 1) == 1 && Xor(1, 97) == 96 && Xor(96, 1) == 97 && Xor(97, 98) == 3
    ensures Xor(3, 60) == 63 && Xor(63, 1) == 62 && Xor(62, 1) == 63 && Xor(63, 2) == 61 && Xor(61, 7) == 58
    ensures Xor(58, 3) == 57
  {
  }

  lemma {:induction false} FoldZeros(x: byte, zeros: Data)
    requires forall z :: z in zeros ==> z == 0
    ensures XorFold(x, zeros) == x
  {
    hide Xor;
    if zeros != [] {
      assert zeros[0] in zeros && forall z :: z in zeros[1..] ==> z in zeros;
      XorLaws(x, 0, 0);
      FoldZeros(x, zeros[1..]);
    }
  }

  lemma SmallInEightBytes()
    ensures BigEndian(0, 8) == [0, 0, 0, 0, 0, 0, 0, 0]
    ensures BigEndian(1, 8) == [0, 0, 0, 0, 0, 0, 0, 1]
  {
    assert BigEndian(0, 7) == [0, 0, 0, 0, 0, 0, 0];
  }

  /** And one sent without a checksum. */
  lemma UncheckedFrameInBytes()
    ensures Encoded(Message(1, [], [], 0, 4, 0, [])) == [1, 1, 0, 0, 0, 0, 0, 0, 0, 0, 0, 0, 0, 4, 0, 2, 3]
  {
    hide Checksum, BigEndian;
    SmallInEightBytes();
  }

  // ----- Detection of a corrupted byte -----

  /** Positions of the three length fields. */
  predicate IsLengthByte(m: Message, i: nat) {
    var p := 4 + |m.origin| + |m.remote|;
    i == 2 || i == 3 + |m.origin| || p + 1 <= i < p + 9
  }

  function OptionsOffset(m: Message): nat {
    4 + |m.origin| + |m.remote| + 9
  }

  lemma EncodedLayout(m: Message)
    requires m.version == VERSION_1 && m.Sized()
    ensures ExactFrame(Encoded(m)) && Fields(Encoded(m)) == Sealed(m)
    ensures TtlOffset(Encoded(m)) == 4 + |m.origin| + |m.remote| && DataLength(Encoded(m)) == |m.data|
    ensures OriginLength(Encoded(m)) == |m.origin| && RemoteLength(Encoded(m)) == |m.remote|
  {
    DecodeInvertsEncode(m, [], Documented);
    assert Encoded(m) + [] == Encoded(m);
    DecodesIffCarries(Encoded(m), Sealed(m), Documented);
    CarriedLayout(Encoded(m), Sealed(m), Documented);
  }

  /** Away from the length fields a corrupted frame keeps its framing, or a marker or version check fails. */
  lemma CorruptedFraming(a: Data, i: nat, c: byte)
    requires ExactFrame(a) && i < |a|
    requires var p := TtlOffset(a); i != 2 && i != 3 + OriginLength(a) && !(p + 1 <= i < p + 9)
    ensures var b := a[i := c];
            && NamesFit(b) && TtlOffset(b) == TtlOffset(a) && DataLength(b) == DataLength(a)
            && (if WellMarked(b) then ExactFrame(b) && Fields(b).options == b[TtlOffset(a) + 9]
                else i != TtlOffset(a) + 9 && Decode(b, AsWritten).Rejected? && Decode(b, Documented).Rejected?)
  {
    var b, p := a[i := c], TtlOffset(a);
    assert b[2] == a[2] && b[3 + OriginLength(a)] == a[3 + OriginLength(a)];
    assert b[p + 1..p + 9] == a[p + 1..p + 9];
  }

  /**
   Replacing one byte outside the length fields of a frame sent with its checksum in force goes unnoticed
   iff that byte is the options byte and its new value switches the checksum off.
   */
  lemma SingleByteDetection(m: Message, i: nat, c: byte, reading: Reading)
    requires m.version == VERSION_1 && m.Sized() && !m.IgnoresChecksum()
    requires i < m.FrameSize() && c != Encoded(m)[i] && !IsLengthByte(m, i)
    ensures Decode(Encoded(m)[i := c], reading).Decoded? <==> i == OptionsOffset(m) && c / IGNORE_CHECKSUM % 2 == 1
    ensures !Decode(Encoded(m)[i := c], reading).Overread?
  {
    var a := Encoded(m);
    EncodedLayout(m);
    FrameXorsToZero(m);
    ByteReplaced(a, i, c, reading);
  }

  /** The same for any exact frame that XORs to zero. */
  lemma ByteReplaced(a: Data, i: nat, c: byte, reading: Reading)
    requires ExactFrame(a) && XorFold(0, a) == 0 && !Fields(a).IgnoresChecksum()
    requires i < |a| && c != a[i]
    requires var p := TtlOffset(a); i != 2 && i != 3 + OriginLength(a) && !(p + 1 <= i < p + 9)
    ensures Decode(a[i := c], reading).Decoded? <==> i == TtlOffset(a) + 9 && c / IGNORE_CHECKSUM % 2 == 1
    ensures !Decode(a[i := c], reading).Overread?
  {
    var b := a[i := c];
    CorruptedFraming(a, i, c);
    XorFoldUpdate(a, i, c);
    XorIsZero(a[i], c);
    XorLaws(0, 0, 0);
    if WellMarked(b) {
      assert Fields(b).IgnoresChecksum() <==> i == TtlOffset(a) + 9 && c / IGNORE_CHECKSUM % 2 == 1;
      ExactFrameOutcome(b, reading);
      if !Fields(b).IgnoresChecksum() {
        AcceptedIffXorZero(b, reading);
      }
    }
  }

  lemma ExactFrameOutcome(b: Data, reading: Reading)
    requires ExactFrame(b)
    ensures Decode(b, reading) == (if !Fields(b).IgnoresChecksum() && Checksum(Fields(b)) != Fields(b).checksum
                                   then Rejected(BAD_CHECKSUM) else Decoded(Fields(b)))
  {
  }

  /**
   Even in a length field: what is accepted is a strictly shorter frame, one without a checksum or, as written,
   a truncated frame that is one byte longer than the buffer.
   */
  lemma LengthByteDetection(m: Message, i: nat, c: byte, n: Message, reading: Reading)
    requires m.version == VERSION_1 && m.Sized() && !m.IgnoresChecksum()
    requires i < m.FrameSize() && c != Encoded(m)[i]
    requires Decode(Encoded(m)[i := c], reading) == Decoded(n)
    ensures n.IgnoresChecksum() || n.FrameSize() < m.FrameSize()
            || (reading == AsWritten && Truncated(Encoded(m)[i := c]) && n.FrameSize() == m.FrameSize() + 1)
  {
    hide Checksum, Stem;
    var a := Encoded(m);
    var b := a[i := c];
    Canonicity(b, n, reading);
    DecodesIffCarries(b, n, reading);
    CarriedLayout(b, n, reading);
    FrameXorsToZero(m);
    XorFoldUpdate(a, i, c);
    XorIsZero(a[i], c);
    XorLaws(0, 0, 0);
    if n.FrameSize() == |b| && !n.IgnoresChecksum() {
      AcceptedIffXorZero(b, reading);
    }
  }

  /** A well-marked buffer that lacks exactly the last byte of its frame. */
  predicate OneShort(b: Data) {
    WellMarked(b) && |b| == TtlOffset(b) + 12 + DataLength(b)
  }

  /** As written, a frame one byte short is accepted with its checksum in force iff its bytes XOR to ETX. */
  lemma OneShortAcceptedIff(b: Data)
    requires OneShort(b) && !Fields(b).IgnoresChecksum()
    ensures Decode(b, AsWritten).Decoded? <==> XorFold(0, b) == ETX
    ensures Decode(b, AsWritten).Decoded? ==> Decode(b, AsWritten) == Decoded(Fields(b))
  {
    hide XorFold, Xor, Checksum, Stem;
    var m := Fields(b);
    FieldsStem(b);
    assert b[..|b|] == b;
    ChecksumIsFold(m, m.checksum);
    XorFoldConcat(0, b, [ETX]);
    FoldOne(XorFold(0, b), ETX);
    XorIsZero(Checksum(m), m.checksum);
    XorIsZero(XorFold(0, b), ETX);
  }

  /**
   The longer frames exactly: a corrupted byte of a frame sent with its checksum makes the source accept a message
   one byte longer, with its checksum in force, iff the corruption makes the frame one byte short and is by ETX.
   */
  lemma LongerFrameAcceptedIff(m: Message, i: nat, c: byte)
    requires m.version == VERSION_1 && m.Sized() && !m.IgnoresChecksum()
    requires i < m.FrameSize() && c != Encoded(m)[i]
    ensures var b := Encoded(m)[i := c];
            (exists n :: Decode(b, AsWritten) == Decoded(n) && !n.IgnoresChecksum() && n.FrameSize() > m.FrameSize())
            <==> OneShort(b) && !Fields(b).IgnoresChecksum() && Xor(Encoded(m)[i], c) == ETX
  {
    hide Checksum, Stem, XorFold;
    var a := Encoded(m);
    var b := a[i := c];
    FrameXorsToZero(m);
    XorFoldUpdate(a, i, c);
    XorLaws(0, XorFold(0, b), 0);
    XorLaws(XorFold(0, b), 0, 0);
    assert XorFold(0, b) == Xor(a[i], c);
    if OneShort(b) && !Fields(b).IgnoresChecksum() {
      OneShortAcceptedIff(b);
      if XorFold(0, b) == ETX {
        var n := Fields(b);
        assert Decode(b, AsWritten) == Decoded(n) && n.FrameSize() > m.FrameSize();
      }
    }
    forall n | Decode(b, AsWritten) == Decoded(n) && !n.IgnoresChecksum() && n.FrameSize() > m.FrameSize()
      ensures OneShort(b) && Fields(b) == n
    {
      Canonicity(b, n, AsWritten);
      DecodesIffCarries(b, n, AsWritten);
      CarriedLayout(b, n, AsWritten);
    }
  }

  /** Such an input, whatever its payload byte x: the size of [x] goes from 1 to 2, and [x, ETX] is accepted. */
  lemma LongerFrameAccepted(x: byte)
    ensures var m := Message(VERSION_1, [], [], 0, 0, 0, [x]);
            Decode(Encoded(m)[12 := 2], AsWritten) == Decoded(Sealed(m).(data := [x, ETX]))
  {
    hide Checksum, Stem, XorFold, Decode, WellMarked, DataLength;
    var m := Message(VERSION_1, [], [], 0, 0, 0, [x]);
    var n := Sealed(m).(data := [x, ETX]);
    var b := Encoded(m)[12 := 2];
    GrownByteFrame(m, x);
    FrameXorsToZero(m);
    assert Xor(1, 2) == ETX;
    XorFoldUpdate(Encoded(m), 12, 2);
    XorLaws(0, XorFold(0, b), 0);
    XorLaws(XorFold(0, b), 0, 0);
    OneShortAcceptedIff(b);
  }

  lemma GrownByteFrame(m: Message, x: byte)
    requires m == Message(VERSION_1, [], [], 0, 0, 0, [x])
    ensures Encoded(m)[12] == 1 && OneShort(Encoded(m)[12 := 2])
    ensures Fields(Encoded(m)[12 := 2]) == Sealed(m).(data := [x, ETX])
  {
    hide Stem, Checksum, OneShort, Fields;
    GrownByteStem(m, x);
    OneShortStem(Sealed(m).(data := [x, ETX]));
  }

  lemma GrownByteStem(m: Message, x: byte)
    requires m == Message(VERSION_1, [], [], 0, 0, 0, [x])
    ensures Encoded(m)[12] == 1
    ensures Encoded(m)[12 := 2] == Stem(Sealed(m).(data := [x, ETX]), Sealed(m).checksum)
  {
    hide Checksum, Stem, BigEndian;
    var n := Sealed(m).(data := [x, ETX]);
    StemSplit(m, n.checksum);
    StemSplit(n, n.checksum);
    ReplaceMiddle(StemHead(m), 1, 2, [0, n.checksum, STX] + [x] + [ETX]);
    assert Encoded(m) == StemHead(m) + [1] + ([0, n.checksum, STX] + [x] + [ETX]);
    assert [0, n.checksum, STX] + [x] + [ETX] == [0, n.checksum, STX] + [x, ETX];
  }

  /** A stem whose payload ends in ETX is a frame that lacks its last byte. */
  lemma OneShortStem(n: Message)
    requires n.version == VERSION_1 && n.Sized() && n.data != [] && n.data[|n.data| - 1] == ETX
    ensures var b := Stem(n, n.checksum); OneShort(b) && Fields(b) == n
  {
    hide Stem, BigEndian, FromBigEndian, Checksum, Low8;
    var b := Stem(n, n.checksum);
    StemLayout(n, n.checksum);
    SmallSizes(n);
    SizeRoundTrip(|n.data|);
    assert b[|b| - 1] == b[16 + |n.origin| + |n.remote|..][|n.data| - 1];
  }

  lemma SmallSizes(m: Message)
    requires m.Sized()
    ensures Low8(|m.origin|) == |m.origin| && Low8(|m.remote|) == |m.remote|
  {
  }

  /**
   The length fields are really excluded. When the last size byte drops by one, the decoder sees a frame
   without its last payload byte, and misses the change iff that byte is the XOR of the two sizes.
   */
  lemma LostByteUndetected(m: Message, reading: Reading)
    requires m.version == VERSION_1 && m.Sized() && !m.IgnoresChecksum() && |m.data| % 256 != 0
    ensures IsLengthByte(m, LastSizeByte(m)) && Encoded(m)[LastSizeByte(m)] == Low8(|m.data|)
    ensures m.data != []
    ensures Decode(Encoded(m)[LastSizeByte(m) := Low8(|m.data| - 1)], reading) == Decoded(Shrunk(m))
            <==> m.data[|m.data| - 1] == Xor(Low8(|m.data|), Low8(|m.data| - 1))
  {
    hide Stem, Checksum, Decode, Carries;
    var d := |m.data|;
    var n := Shrunk(m);
    var b := Stem(n, n.checksum) + [m.data[d - 1], ETX];
    LostByteFrame(m);
    StemIgnoresField(m.(data := n.data), n.checksum);
    LostByteCarries(m, reading);
    DecodesIffCarries(b, n, reading);
  }

  function LastSizeByte(m: Message): (i: nat)
    ensures i < m.FrameSize()
  {
    4 + |m.origin| + |m.remote| + 8
  }

  /** The message as sent, without its last payload byte. */
  function Shrunk(m: Message): (n: Message)
    requires m.data != []
  {
    Sealed(m).(data := m.data[..|m.data| - 1])
  }

  lemma LostByteCarries(m: Message, reading: Reading)
    requires m.version == VERSION_1 && m.Sized() && !m.IgnoresChecksum() && |m.data| % 256 != 0
    ensures var d := |m.data|;
            var n := Sealed(m).(data := m.data[..d - 1]);
            Carries(Stem(n, n.checksum) + [m.data[d - 1], ETX], n, reading)
            <==> m.data[d - 1] == Xor(Low8(d), Low8(d - 1))
  {
    hide Stem, Checksum, XorFold, Xor, Carries;
    var d := |m.data|;
    var n := Sealed(m).(data := m.data[..d - 1]);
    LostByteChecksum(m);
    ChecksumIgnoresField(n, m.checksum);
    assert n.(checksum := m.checksum) == m.(data := n.data);
    CarriedWithTail(n, [m.data[d - 1], ETX], reading);
  }

  lemma StemIgnoresField(m: Message, c: byte)
    ensures Stem(m.(checksum := c), c) == Stem(m, c)
  {
  }

  lemma ChecksumIgnoresField(m: Message, c: byte)
    ensures Checksum(m.(checksum := c)) == Checksum(m)
  {
  }

  lemma CarriedWithTail(n: Message, tail: Data, reading: Reading)
    requires n.version == VERSION_1 && n.Sized() && !n.IgnoresChecksum()
    requires tail != [] && tail[|tail| - 1] == ETX
    ensures Carries(Stem(n, n.checksum) + tail, n, reading) <==> n.checksum == Checksum(n)
  {
    hide Stem, Checksum;
    assert Stem(n, n.checksum) <= Stem(n, n.checksum) + tail;
  }

  lemma LostByteFrame(m: Message)
    requires m.version == VERSION_1 && |m.data| % 256 != 0
    ensures var d, i, c := |m.data|, 4 + |m.origin| + |m.remote| + 8, Sealed(m).checksum;
            && Encoded(m)[i] == Low8(d)
            && Encoded(m)[i := Low8(d - 1)] == Stem(m.(data := m.data[..d - 1]), c) + [m.data[d - 1], ETX]
  {
    hide Stem, Checksum, BigEndian, Low8;
    var d, c := |m.data|, Sealed(m).checksum;
    var u, v, front := Low8(d), Low8(d - 1), m.data[..d - 1];
    var t, h := [m.options, c, STX], StemHead(m);
    assert d / 256 == (d - 1) / 256;
    StemSplit(m, c);
    StemSplit(m.(data := front), c);
    assert StemHead(m.(data := front)) == h;
    ReplaceMiddle(h, u, v, t + m.data + [ETX]);
    Assoc(h + [u], t + m.data, [ETX]);
    assert m.data == front + [m.data[d - 1]];
    RegroupTail(h + [v], t, front, m.data[d - 1]);
  }

  lemma RegroupTail(a: Data, t: Data, front: Data, x: byte)
    ensures a + (t + (front + [x]) + [ETX]) == (a + (t + front)) + [x, ETX]
  {
  }

  /** A stem up to the last byte of its size field. */
  function StemHead(m: Message): (h: Data)
    ensures |h| == 4 + |m.origin| + |m.remote| + 8
  {
    [SOH, m.version, Low8(|m.origin|)] + m.origin + [Low8(|m.remote|)] + m.remote + [m.ttl]
    + BigEndian(|m.data| / 256, 7)
  }

  lemma StemSplit(m: Message, c: byte)
    ensures Stem(m, c) == StemHead(m) + [Low8(|m.data|)] + ([m.options, c, STX] + m.data)
  {
    var g := [SOH, m.version, Low8(|m.origin|)] + m.origin + [Low8(|m.remote|)] + m.remote + [m.ttl];
    var high := BigEndian(|m.data| / 256, 7);
    assert BigEndian(|m.data|, 8) == high + [Low8(|m.data|)];
    assert g + BigEndian(|m.data|, 8) == g + high + [Low8(|m.data|)];
  }

  lemma ReplaceMiddle(h: Data, u: byte, v: byte, t: Data)
    ensures (h + [u] + t)[|h|] == u
    ensures (h + [u] + t)[|h| := v] == h + [v] + t
  {
  }

  lemma LostByteChecksum(m: Message)
    requires m.version == VERSION_1 && |m.data| % 256 != 0
    ensures var d := |m.data|;
            Checksum(m) == Checksum(m.(data := m.data[..d - 1])) <==> m.data[d - 1] == Xor(Low8(d), Low8(d - 1))
  {
    hide Xor, Checksum;
    var d := |m.data|;
    var u, v, x, front := Low8(d), Low8(d - 1), m.data[d - 1], m.data[..d - 1];
    var c := XorFold(Xor(Xor(SOH, m.version), Low8(|m.origin|)), m.origin);
    c := XorFold(Xor(c, Low8(|m.remote|)), m.remote);
    c := XorFold(Xor(c, m.ttl), BigEndian(d / 256, 7));
    var y := Xor(Xor(c, m.options), STX);
    var f := XorFold(y, front);
    assert d / 256 == (d - 1) / 256;
    ChecksumTail(m, u, m.data);
    ChecksumTail(m, v, front);
    XorFoldConcat(Xor(y, u), front, [x]);
    assert m.data == front + [x];
    FoldOne(XorFold(Xor(y, u), front), x);
    XorFoldShift(y, u, front);
    XorFoldShift(y, v, front);
    assert Checksum(m) == Xor(Xor(Xor(f, u), x), ETX);
    assert Checksum(m.(data := front)) == Xor(Xor(f, v), ETX);
    SameXor(Xor(Xor(f, u), x), Xor(f, v), ETX);
    XorLaws(f, u, x);
    SameXorLeft(f, Xor(u, x), v);
    SolveXor(u, x, v);
  }

  /** The end of the checksum computation, with the last size byte moved behind options and STX. */
  lemma ChecksumTail(m: Message, w: byte, data: Data)
    requires m.version == VERSION_1 && BigEndian(|data|, 8) == BigEndian(|m.data| / 256, 7) + [w]
    ensures var c := XorFold(Xor(Xor(SOH, m.version), Low8(|m.origin|)), m.origin);
            var c := XorFold(Xor(c, Low8(|m.remote|)), m.remote);
            var c := XorFold(Xor(c, m.ttl), BigEndian(|m.data| / 256, 7));
            Checksum(m.(data := data)) == Xor(XorFold(Xor(Xor(Xor(c, m.options), STX), w), data), ETX)
  {
    var c := XorFold(Xor(Xor(SOH, m.version), Low8(|m.origin|)), m.origin);
    c := XorFold(Xor(c, Low8(|m.remote|)), m.remote);
    XorFoldConcat(Xor(c, m.ttl), BigEndian(|m.data| / 256, 7), [w]);
    c := XorFold(Xor(c, m.ttl), BigEndian(|m.data| / 256, 7));
    FoldOne(c, w);
    XorSwap(c, w, m.options);
    XorSwap(Xor(c, m.options), w, STX);
  }

  lemma XorSwap(a: byte, b: byte, c: byte)
    ensures Xor(Xor(a, b), c) == Xor(Xor(a, c), b)
  {
    XorLaws(a, b, c);
    XorLaws(b, c, a);
    XorLaws(a, c, b);
  }

  lemma SameXor(a: byte, b: byte, c: byte)
    ensures Xor(a, c) == Xor(b, c) <==> a == b
  {
    XorCancel(c, a, b);
    XorLaws(a, c, 0);
    XorLaws(b, c, 0);
    XorIsZero(a, b);
    XorIsZero(Xor(c, a), Xor(c, b));
  }

  lemma SameXorLeft(f: byte, a: byte, b: byte)
    ensures Xor(f, a) == Xor(f, b) <==> a == b
  {
    XorLaws(f, a, 0);
    XorLaws(f, b, 0);
    SameXor(a, b, f);
  }

  lemma SolveXor(u: byte, x: byte, v: byte)
    ensures Xor(u, x) == v <==> x == Xor(u, v)
  {
    XorLaws(u, u, x);
    XorLaws(u, u, v);
    XorLaws(x, 0, 0);
    XorLaws(v, 0, 0);
    XorLaws(0, x, 0);
    XorLaws(0, v, 0);
  }

  /** Such an input: the payload [1], whose size drops to 0. */
  lemma LengthFieldUndetected()
    ensures var m := Message(VERSION_1, [], [], 0, 0, 0, [1]);
            Decode(Encoded(m)[12 := 0], Documented) == Decoded(Sealed(m).(data := []))
  {
    var m := Message(VERSION_1, [], [], 0, 0, 0, [1]);
    XorLaws(1, 0, 0);
    assert m.data[..0] == [] && Low8(1) == 1 && Low8(0) == 0 && 4 + |m.origin| + |m.remote| + 8 == 12;
    LostByteUndetected(m, Documented);
  }
}
