/** Message headers: ten bytes with a version, a type, a length and an id. */
module Messages {
  import opened Bytes
  import opened Outcomes

  const HEADER_SIZE := 10
  const MAX_TYPE := 1023
  const RESERVED_FIRST := 900
  const RESERVED_LAST := 999
  const MAX_PAYLOAD := 0x1_0000_0000 - 1 - HEADER_SIZE

  const CLOSE_CONNECTION := 14
  const CLOSE_CONNECTION_RESPONSE := 4
  const GET_SUPPORTED_VERSION := 46
  const SET_PROTOCOL_VERSION := 47
  const KEEP_ALIVE := 62
  const KEEP_ALIVE_ACK := 72

  const VERSION_1_0_1 := 1
  const VERSION_1_1 := 2

  /** A reader's current and highest version. */
  datatype Versions = Versions(current: nat, max: nat)

  /** `payloadLen` does not count the header. */
  datatype Header = Header(payloadLen: nat, id: nat, typ: nat, version: nat) {
    /** What the Go fields can hold. */
    predicate Fits() {
      payloadLen < 0x1_0000_0000 && id < 0x1_0000_0000 && typ < 0x1_0000 && version < 0x100
    }

    /** What the wire can carry. */
    predicate Sendable() {
      payloadLen <= MAX_PAYLOAD && typ <= MAX_TYPE && version <= 7
    }
  }

  predicate Reserved(typ: nat) {
    RESERVED_FIRST <= typ <= RESERVED_LAST
  }

  /** `validateHeader`; it does not look at the version. */
  predicate ValidHeader(payloadLen: nat, typ: nat) {
    typ <= MAX_TYPE && !Reserved(typ) && payloadLen <= MAX_PAYLOAD
  }

  /** `uint16(version)<<10 | typ`. */
  function FirstWord(h: Header): (r: nat)
    ensures r < 0x1_0000
  {
    Powers();
    Or(Shl(h.version, 10) % 0x1_0000, h.typ, 16)
  }

  function HeaderBytes(h: Header): (r: seq<Byte>)
    ensures |r| == HEADER_SIZE
  {
    BigEndian(FirstWord(h), 2) + BigEndian((h.payloadLen + HEADER_SIZE) % 0x1_0000_0000, 4) + BigEndian(h.id, 4)
  }

  function ReadHeader(buf: seq<Byte>): (r: Outcome<Header>)
    ensures r.Ok? ==> r.value.Fits()
  {
    if |buf| < HEADER_SIZE then Reject
    else
      var length := FromBigEndian(buf[2..6]);
      FourBytesRead(buf[2..6]);
      FourBytesRead(buf[6..10]);
      if length < HEADER_SIZE then Reject
      else Ok(Header(length - HEADER_SIZE, FromBigEndian(buf[6..10]), U16At(buf, 0) % 1024, Shr(buf[0], 2) % 8))
  }

  // ---- round trip ----

  lemma FourMore(n: nat)
    ensures Pow2(n + 4) == 16 * Pow2(n)
  {
    assert Pow2(n + 2) == 4 * Pow2(n);
  }

  lemma Powers()
    ensures Pow2(10) == 1024 && Pow2(16) == 0x1_0000
    ensures Pow256(4) == 0x1_0000_0000
  {
    FourMore(0);
    FourMore(4);
    FourMore(8);
    FourMore(12);
    FourMore(2);
    FourMore(6);
    TwoMore(0);
    TwoMore(2);
  }

  lemma TwoMore(n: nat)
    ensures Pow256(n + 2) == 0x1_0000 * Pow256(n)
  {
    assert Pow256(n + 1) == 256 * Pow256(n);
  }

  lemma {:induction false} ShiftIsProduct(v: nat, k: nat)
    ensures Shl(v, k) == v * Pow2(k)
  {
    if k == 0 {
    } else {
      ShiftIsProduct(v, k - 1);
      assert v * (2 * Pow2(k - 1)) == 2 * (v * Pow2(k - 1));
    }
  }

  lemma FirstWordReads(h: Header)
    requires h.Fits() && h.typ <= MAX_TYPE && h.version <= 7
    ensures FirstWord(h) == 1024 * h.version + h.typ
  {
    hide Or, Shl, Pow2, Pow256;
    ShiftIsProduct(h.version, 10);
    Powers();
    OrDisjoint(h.version, 10, h.typ, 16);
  }

  lemma LengthReads(h: Header)
    requires h.Fits()
    ensures var b := HeaderBytes(h);
            && FromBigEndian(b[2..6]) == (h.payloadLen + HEADER_SIZE) % 0x1_0000_0000
            && FromBigEndian(b[6..10]) == h.id
            && b[0] == FirstWord(h) / 256 && b[1] == FirstWord(h) % 256
  {
    hide FirstWord, BigEndian, FromBigEndian;
    var b := HeaderBytes(h);
    var length := (h.payloadLen + HEADER_SIZE) % 0x1_0000_0000;
    BigEndian2(FirstWord(h));
    assert b[2..6] == BigEndian(length, 4) && b[6..10] == BigEndian(h.id, 4);
    Powers();
    BigEndianRoundTrip(length, 4);
    BigEndianRoundTrip(h.id, 4);
  }

  lemma ShiftDownTwo(x: nat)
    ensures Shr(x, 2) == x / 4
  {
    assert Shr(x / 2, 1) == Shr(x / 2 / 2, 0);
  }

  /** Version and type lie apart in the first word. */
  lemma WordSplits(version: nat, typ: nat, first: nat, second: nat)
    requires version <= 7 && typ <= MAX_TYPE
    requires first == (1024 * version + typ) / 256 && second == (1024 * version + typ) % 256
    ensures first / 4 % 8 == version && (first * 256 + second) % 1024 == typ
  {}

  lemma FourDigits(x: nat)
    ensures BigEndian(x, 4) == [x / 0x100_0000 % 256, x / 0x1_0000 % 256, x / 0x100 % 256, x % 256]
  {
    assert Pow256(0) == 1 && Pow256(1) == 0x100 && Pow256(2) == 0x1_0000 && Pow256(3) == 0x100_0000;
    hide BigEndian, Pow256;
    BigEndianDigits(x, 4, 0);
    BigEndianDigits(x, 4, 1);
    BigEndianDigits(x, 4, 2);
    BigEndianDigits(x, 4, 3);
  }

  /** The ten bytes: three bits of version and ten of type behind three unused ones, the
      length with the header's own, and the id. */
  lemma HeaderLayout(h: Header)
    requires h.Fits() && h.Sendable()
    ensures var n := h.payloadLen + 10;
            HeaderBytes(h) == [4 * h.version + h.typ / 256, h.typ % 256,
                               n / 0x100_0000, n / 0x1_0000 % 256, n / 0x100 % 256, n % 256,
                               h.id / 0x100_0000, h.id / 0x1_0000 % 256, h.id / 0x100 % 256, h.id % 256]
  {
    hide FirstWord, BigEndian, HeaderBytes;
    var n := h.payloadLen + 10;
    FirstTwo(h);
    FourDigits(n);
    FourDigits(h.id);
    ThreeParts(h);
    Small(n);
    Small(h.id);
  }

  lemma Small(x: nat)
    requires x < 0x1_0000_0000
    ensures x / 0x100_0000 % 256 == x / 0x100_0000
  {}

  lemma FirstTwo(h: Header)
    requires h.Fits() && h.Sendable()
    ensures BigEndian(FirstWord(h), 2) == [4 * h.version + h.typ / 256, h.typ % 256]
  {
    hide FirstWord, BigEndian;
    FirstWordReads(h);
    BigEndian2(FirstWord(h));
    WordBytes(h.version, h.typ);
  }

  lemma ThreeParts(h: Header)
    requires h.Sendable()
    ensures HeaderBytes(h) == BigEndian(FirstWord(h), 2) + BigEndian(h.payloadLen + 10, 4) + BigEndian(h.id, 4)
  {
    hide FirstWord, BigEndian;
  }

  lemma WordBytes(version: nat, typ: nat)
    requires version <= 7 && typ <= MAX_TYPE
    ensures (1024 * version + typ) / 256 == 4 * version + typ / 256 < 256
    ensures (1024 * version + typ) % 256 == typ % 256
  {}

  /** What any ten bytes are read as. */
  lemma HeaderMeaning(b: seq<Byte>)
    requires |b| >= 10
    ensures ReadHeader(b) == if U32At(b, 2) < 10 then Reject
                             else Ok(Header(U32At(b, 2) - 10, U32At(b, 6), (b[0] as nat % 4) * 256 + b[1] as nat,
                                            b[0] / 4 % 8))
  {
    hide FromBigEndian, Shr;
    FourBytesRead(b[2..6]);
    FourBytesRead(b[6..10]);
    ShiftDownTwo(b[0]);
  }

  /** A header is read back as it was written exactly when the wire can carry it: the
      version must fit three bits, which nothing checks before writing. */
  lemma HeaderRoundTrip(h: Header)
    requires h.Fits()
    ensures ReadHeader(HeaderBytes(h)) == Ok(h) <==> h.Sendable()
  {
    hide FirstWord, HeaderBytes, FromBigEndian, Shr;
    var b := HeaderBytes(h);
    LengthReads(h);
    if h.Sendable() {
      FirstWordReads(h);
      ShiftDownTwo(b[0]);
      WordSplits(h.version, h.typ, b[0], b[1]);
    }
  }

  /** Among the headers that pass validation, exactly those of version 0 to 7. */
  lemma ValidHeaderRoundTrip(h: Header)
    requires h.Fits() && ValidHeader(h.payloadLen, h.typ)
    ensures ReadHeader(HeaderBytes(h)) == Ok(h) <==> h.version <= 7
  {
    hide HeaderBytes, ReadHeader;
    HeaderRoundTrip(h);
  }

  // ---- the code ----

  /** `binary.BigEndian.PutUint16` and `PutUint32`. */
  method PutBigEndian(a: array<Byte>, at: nat, size: nat, x: nat)
    requires at + size <= a.Length
    modifies a
    ensures a[..] == old(a[..at]) + BigEndian(x, size) + old(a[at + size..])
  {
    hide BigEndian;
    var rest := x;
    ghost var was := a[..];
    ghost var done: seq<Byte> := [];
    NoBytes(x);
    for i := 0 to size
      invariant |done| == i && BigEndian(x, size) == BigEndian(rest, size - i) + done
      invariant a[..] == was[..at + size - i] + done + was[at + size..]
    {
      OneByte(rest, size - i);
      PutBefore(was, at + size - i, done, at + size, rest % 256);
      ghost var now := a[..];
      a[at + size - 1 - i] := rest % 256;
      assert a[..] == now[at + size - 1 - i := rest % 256];
      done := [rest % 256] + done;
      rest := rest / 256;
    }
    NoBytes(rest);
  }

  lemma PutBefore(was: seq<Byte>, at: nat, done: seq<Byte>, from: nat, b: Byte)
    requires 0 < at <= |was| && from <= |was|
    ensures (was[..at] + done + was[from..])[at - 1 := b] == was[..at - 1] + ([b] + done) + was[from..]
  {}

  lemma NoBytes(x: nat)
    ensures BigEndian(x, 0) == []
  {}

  lemma OneByte(x: nat, size: nat)
    requires size > 0
    ensures BigEndian(x, size) == BigEndian(x / 256, size - 1) + [x % 256]
  {}

  /** `Header`, which `UnmarshalBinary` fills in place. */
  class HeaderRecord {
    var payloadLen: nat
    var id: nat
    var typ: nat
    var version: nat

    constructor (h: Header)
      ensures Contents() == h
    {
      payloadLen, id, typ, version := h.payloadLen, h.id, h.typ, h.version;
    }

    function Contents(): Header
      reads this
    {
      Header(payloadLen, id, typ, version)
    }

    /** On a length below the header's own, the record holds the raw length. */
    method UnmarshalBinary(buf: seq<Byte>) returns (ok: bool)
      modifies this
      ensures ok == ReadHeader(buf).Ok?
      ensures ok ==> Contents() == ReadHeader(buf).value
      ensures |buf| < HEADER_SIZE ==> Contents() == old(Contents())
      ensures !ok && |buf| >= HEADER_SIZE ==> payloadLen == FromBigEndian(buf[2..6]) < HEADER_SIZE
    {
      if |buf| < HEADER_SIZE {
        return false;
      }
      version := Shr(buf[0], 2) % 8;
      typ := U16At(buf, 0) % 1024;
      payloadLen := FromBigEndian(buf[2..6]);
      id := FromBigEndian(buf[6..10]);
      if payloadLen < HEADER_SIZE {
        return false;
      }
      payloadLen := payloadLen - HEADER_SIZE;
      return true;
    }

    method MarshalBinary() returns (header: array<Byte>, ok: bool)
      requires Contents().Fits()
      ensures ok == ValidHeader(payloadLen, typ)
      ensures ok ==> fresh(header) && header[..] == HeaderBytes(Contents())
    {
      hide BigEndian, FirstWord;
      if !ValidHeader(payloadLen, typ) {
        header := new Byte[0];
        return header, false;
      }
      header := new Byte[HEADER_SIZE];
      PutBigEndian(header, 6, 4, id);
      ghost var one := header[..];
      PutBigEndian(header, 2, 4, (payloadLen + HEADER_SIZE) % 0x1_0000_0000);
      ghost var two := header[..];
      assert two[6..] == one[6..] == BigEndian(id, 4);
      PutBigEndian(header, 0, 2, FirstWord(Contents()));
      assert header[..][2..] == two[2..];
      return header, true;
    }
  }
}
