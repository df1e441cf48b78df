/** The functions of src/serializer.c as they run: a buffer, a cursor and a running minimum size. */
module Serializer {
  import opened Bytes
  import opened Types
  import opened Frame
  import opened FrameLaws

  method CalculateChecksum(m: Message) returns (checksum: byte)
    ensures checksum == Checksum(m)
  {
    checksum := SOH;
    if m.version == VERSION_1 {
      checksum := Xor(checksum, m.version);
      checksum := Xor(checksum, Low8(|m.origin|));
      checksum := XorInto(checksum, m.origin);
      checksum := Xor(checksum, Low8(|m.remote|));
      checksum := XorInto(checksum, m.remote);
      checksum := Xor(checksum, m.ttl);
      checksum := XorInto(checksum, BigEndian(|m.data|, 8));
      checksum := Xor(checksum, m.options);
      checksum := Xor(checksum, STX);
      checksum := XorInto(checksum, m.data);
    }
    checksum := Xor(checksum, ETX);
  }

  /** One of the checksum loops. */
  method XorInto(x: byte, s: Data) returns (checksum: byte)
    ensures checksum == XorFold(x, s)
  {
    checksum := x;
    assert s[0..] == s;
    for i := 0 to |s|
      invariant XorFold(checksum, s[i..]) == XorFold(x, s)
    {
      assert s[i..][1..] == s[i + 1..];
      checksum := Xor(checksum, s[i]);
    }
  }

  /** octopipes_encode; sealed is the message as the call leaves it. */
  method Encode(m: Message) returns (frame: Result<array<byte>>, sealed: Message)
    requires m.Sized()
    ensures m.version == VERSION_1 ==> frame.Ok? && fresh(frame.value) && sealed == Sealed(m)
    ensures m.version == VERSION_1 ==> frame.value[..] == Encoded(m)
    ensures m.version != VERSION_1 ==> frame == Err(UNSUPPORTED_VERSION) && sealed == m
  {
    sealed := m;
    if m.version != VERSION_1 {
      return Err(UNSUPPORTED_VERSION), sealed;
    }
    var out := new byte[m.FrameSize()];
    var ptr := WriteHeader(out, m);
    var checksumPtr := ptr + 1;
    ghost var unset := WriteRest(out, ptr, m);
    sealed := sealed.(checksum := 0);
    if !m.IgnoresChecksum() {
      var checksum := CalculateChecksum(m);
      sealed := sealed.(checksum := checksum);
    }
    StemPatch(m, unset, sealed.checksum);
    out[checksumPtr] := sealed.checksum;
    assert out[..] == (Stem(m, unset) + [ETX])[checksumPtr := sealed.checksum];
    frame := Ok(out);
  }

  /** Everything after the header; the checksum byte keeps whatever the buffer held. */
  method WriteRest(out: array<byte>, at: nat, m: Message) returns (ghost unset: byte)
    requires out.Length == m.FrameSize() && at == 4 + |m.origin| + |m.remote| + 9
    requires out[..at] == [SOH, m.version, Low8(|m.origin|)] + m.origin + [Low8(|m.remote|)] + m.remote
                          + [m.ttl] + BigEndian(|m.data|, 8)
    modifies out
    ensures out[..] == Stem(m, unset) + [ETX]
  {
    unset := out[at + 1];
    var ptr := Append(out, at, [m.options, out[at + 1], STX]);
    ptr := Append(out, ptr, m.data);
    assert out[..ptr] == Stem(m, unset);
    ptr := Append(out, ptr, [ETX]);
    assert out[..] == out[..ptr];
  }

  method WriteHeader(out: array<byte>, m: Message) returns (ptr: nat)
    requires out.Length == m.FrameSize()
    modifies out
    ensures ptr == 4 + |m.origin| + |m.remote| + 9
    ensures out[..ptr] == [SOH, m.version, Low8(|m.origin|)] + m.origin + [Low8(|m.remote|)] + m.remote
                          + [m.ttl] + BigEndian(|m.data|, 8)
  {
    ptr := Append(out, 0, [SOH, m.version, Low8(|m.origin|)]);
    ptr := Append(out, ptr, m.origin);
    ptr := Append(out, ptr, [Low8(|m.remote|)]);
    ptr := Append(out, ptr, m.remote);
    ptr := Append(out, ptr, [m.ttl]);
    ptr := Append(out, ptr, BigEndian(|m.data|, 8));
  }

  /** Writing the checksum last is writing it in place. */
  lemma StemPatch(m: Message, c: byte, d: byte)
    ensures (Stem(m, c) + [ETX])[4 + |m.origin| + |m.remote| + 10 := d] == Stem(m, d) + [ETX]
  {
    var h := [SOH, m.version, Low8(|m.origin|)] + m.origin + [Low8(|m.remote|)] + m.remote + [m.ttl]
             + BigEndian(|m.data|, 8);
    assert Stem(m, c) + [ETX] == h + [m.options] + [c] + ([STX] + m.data + [ETX]);
    assert Stem(m, d) + [ETX] == h + [m.options] + [d] + ([STX] + m.data + [ETX]);
    ReplaceMiddle(h + [m.options], c, d, [STX] + m.data + [ETX]);
  }

  /** octopipes_decode, with the payload comparison as the source has it. */
  method DecodeFrame(data: array?<byte>) returns (r: Outcome)
    ensures data == null ==> r == Rejected(BAD_PACKET)
    ensures data != null ==> r == Decode(data[..], AsWritten)
  {
    hide Checksum, FromBigEndian, XorFold;
    var minimum: nat := 17;
    if data == null || data.Length < minimum {
      return Rejected(BAD_PACKET);
    }
    if data[0] != SOH || data[data.Length - 1] != ETX {
      return Rejected(BAD_PACKET);
    }
    var version := data[1];
    if version != VERSION_1 {
      return Rejected(UNSUPPORTED_VERSION);
    }
    var originSize := data[2];
    minimum := minimum + originSize;
    if data.Length < minimum {
      return Rejected(BAD_PACKET);
    }
    var ptr: nat := 3;
    var origin := data[ptr..ptr + originSize];
    ptr := ptr + originSize;
    var remoteSize := data[ptr];
    minimum := minimum + remoteSize;
    if data.Length < minimum {
      return Rejected(BAD_PACKET);
    }
    ptr := ptr + 1;
    var remote := data[ptr..ptr + remoteSize];
    ptr := ptr + remoteSize;
    assert NamesFit(data[..]) && ptr == TtlOffset(data[..]);
    var ttl := data[ptr];
    var size := ReadSize(data, ptr + 1);
    ptr := ptr + 9;
    var options := data[ptr];
    var checksum := data[ptr + 1];
    if data[ptr + 2] != STX {
      return Rejected(BAD_PACKET);
    }
    ptr := ptr + 3;
    minimum := minimum + size;
    if data.Length < size {
      return Rejected(BAD_PACKET);
    }
    if data.Length < ptr + size {
      return Overread;
    }
    var m := Message(version, origin, remote, ttl, options, checksum, data[ptr..ptr + size]);
    assert m == Fields(data[..]);
    if !m.IgnoresChecksum() {
      var verification := CalculateChecksum(m);
      if verification != checksum {
        return Rejected(BAD_CHECKSUM);
      }
    }
    r := Decoded(m);
  }

  /** The eight shift-and-add statements, in 64-bit arithmetic. */
  method ReadSize(data: array<byte>, ptr: nat) returns (size: nat)
    requires ptr + 8 <= data.Length
    ensures size == FromBigEndian(data[..][ptr..ptr + 8])
  {
    ghost var s := data[..][ptr..ptr + 8];
    size := data[ptr];
    NextDigit(s, 0);
    size := ShiftAdd(size, data[ptr + 1]);
    NextDigit(s, 1);
    size := ShiftAdd(size, data[ptr + 2]);
    NextDigit(s, 2);
    size := ShiftAdd(size, data[ptr + 3]);
    NextDigit(s, 3);
    size := ShiftAdd(size, data[ptr + 4]);
    NextDigit(s, 4);
    size := ShiftAdd(size, data[ptr + 5]);
    NextDigit(s, 5);
    size := ShiftAdd(size, data[ptr + 6]);
    NextDigit(s, 6);
    size := ShiftAdd(size, data[ptr + 7]);
    NextDigit(s, 7);
    assert s[..8] == s;
  }

  /** x << 8, in 64 bits, plus a byte. */
  function ShiftAdd(x: nat, b: byte): (r: nat) {
    x * 256 % SIZE_LIMIT + b
  }

  lemma NextDigit(s: Data, k: nat)
    requires k < |s| <= 8
    ensures FromBigEndian(s[..k + 1]) == ShiftAdd(FromBigEndian(s[..k]), s[k])
  {
    assert s[..k + 1][..k] == s[..k];
    FromBigEndianRoundTrip(s[..k]);
    PowGrows(k, 7);
    PowOf256();
  }

  lemma {:induction false} PowGrows(k: nat, n: nat)
    requires k <= n
    ensures Pow(256, k) <= Pow(256, n)
    decreases n - k
  {
    if k < n {
      PowGrows(k + 1, n);
    }
  }
}
