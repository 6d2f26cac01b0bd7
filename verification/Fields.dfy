/** The fields of a container: how each kind is written, read and measured. */
module Fields {
  import opened Bytes
  import opened Outcomes

  /** `width` bits of a byte starting at bit `bit`, counted from the most significant. */
  datatype BitPart = BitPart(bit: nat, width: nat)

  /** One entry per kind of field the generator distinguishes. A run of `partial`
      fields and the field that completes their byte make one `Packed` entry. */
  datatype Field =
    | Scalar(size: nat)           // a whole number of `size` bytes
    | Packed(parts: seq<BitPart>) // several numbers in one byte
    | Padding(size: nat)          // reserved bytes, zero on the wire
    | Block(length: nat)          // exactly `length` bytes
    | Counted(size: nat)          // a 16-bit count, then that many `size`-byte numbers
    | BitString                   // a 16-bit number of bits, then as many bytes as they need
    | Remainder                   // whatever bytes are left

  datatype FieldValue =
    | Num(n: nat)
    | Parts(vals: seq<nat>)
    | Void
    | Blob(bytes: seq<Byte>)
    | Elems(elems: seq<nat>)
    | Bits(numBits: nat, bits: seq<Byte>)

  /** `FieldSpec.is_fixed_size`. */
  predicate IsFixed(f: Field) {
    f.Scalar? || f.Packed? || f.Padding? || f.Block?
  }

  /** `FieldSpec.min_size`. */
  function MinSize(f: Field): nat {
    match f
    case Scalar(size) => size
    case Packed(_) => 1
    case Padding(size) => size
    case Block(length) => length
    case Counted(_) => 2
    case BitString => 2
    case Remainder => 0
  }

  /** The parts occupy disjoint bits, left to right from bit `lo`, and each is read
      back with the mask that fits it (see `MaskIsExact`). */
  predicate PartsOk(parts: seq<BitPart>, lo: nat) {
    parts == [] ||
    (&& lo <= parts[0].bit
     && 1 <= parts[0].width
     && parts[0].bit + parts[0].width <= 8
     && (parts[0].bit == 0 || parts[0].width == 1)
     && PartsOk(parts[1..], parts[0].bit + parts[0].width))
  }

  predicate FieldOk(f: Field) {
    match f
    case Scalar(size) => size > 0
    case Packed(parts) => parts != [] && PartsOk(parts, 0)
    case Padding(size) => true
    case Block(length) => length > 0
    case Counted(size) => size > 0
    case BitString => true
    case Remainder => true
  }

  /** The bytes a bit string of `numBits` bits takes: `((n-1)>>3)+1` with Go's
      arithmetic shift, which is division rounding down. */
  function BitBytes(numBits: nat): nat {
    (numBits as int - 1) / 8 + 1
  }

  lemma BitBytesIsCeiling(numBits: nat)
    ensures 8 * BitBytes(numBits) >= numBits
    ensures 8 * BitBytes(numBits) < numBits + 8
  {}

  predicate PartValues(parts: seq<BitPart>, vals: seq<nat>) {
    && |parts| == |vals|
    && forall i :: 0 <= i < |parts| ==> vals[i] < Pow2(parts[i].width)
  }

  /** The values a Go struct can hold in such a field and LLRP can carry. */
  predicate ValueOk(f: Field, v: FieldValue) {
    match f
    case Scalar(size) => v.Num? && v.n < Pow256(size)
    case Packed(parts) => v.Parts? && PartValues(parts, v.vals)
    case Padding(_) => v.Void?
    case Block(length) => v.Blob? && |v.bytes| == length
    case Counted(size) => v.Elems? && |v.elems| < 0x1_0000
                          && forall i :: 0 <= i < |v.elems| ==> v.elems[i] < Pow256(size)
    case BitString => v.Bits? && v.numBits < 0x1_0000 && |v.bits| == BitBytes(v.numBits)
    case Remainder => v.Blob?
  }

  // ---- writing ----

  /** `byte(v)<<shift`: the part's value moved to its place in a `byte` of `n` = 8 bits. */
  function Place(p: BitPart, v: nat, n: nat): nat
    requires n == 8
  {
    var shift := n - (p.bit + p.width);
    if shift < 0 then 0 else Shl(v, shift) % 256
  }

  /** The or of every part in its place (`byte(x)<<shift|...`). */
  function Pack(parts: seq<BitPart>, vals: seq<nat>, n: nat): (r: nat)
    requires |parts| == |vals| && n == 8
    ensures r < Pow2(n)
  {
    if parts == [] then 0 else Or(Place(parts[0], vals[0], n), Pack(parts[1..], vals[1..], n), n)
  }

  function PackByte(parts: seq<BitPart>, vals: seq<nat>): Byte
    requires |parts| == |vals|
  {
    assert Pow2(8) == 256;
    Pack(parts, vals, 8)
  }

  function EncodeElems(elems: seq<nat>, size: nat): (r: seq<Byte>)
    ensures |r| == |elems| * size
  {
    if elems == [] then [] else BigEndian(elems[0], size) + EncodeElems(elems[1..], size)
  }

  /** What `EncodeFields` writes for one field. */
  function EncodeField(f: Field, v: FieldValue): seq<Byte> {
    match (f, v)
    case (Scalar(size), Num(n)) => BigEndian(n, size)
    case (Packed(parts), Parts(vals)) => if |parts| == |vals| then [PackByte(parts, vals)] else []
    case (Padding(size), _) => Zeros(size)
    case (Block(_), Blob(bytes)) => bytes
    case (Counted(size), Elems(elems)) => BigEndian(|elems|, 2) + EncodeElems(elems, size)
    case (BitString, Bits(numBits, bits)) => BigEndian(numBits, 2) + bits
    case (Remainder, Blob(bytes)) => bytes
    case _ => []
  }

  function EncodeFields(fs: seq<Field>, vs: seq<FieldValue>): seq<Byte>
    requires |fs| == |vs|
  {
    if fs == [] then [] else EncodeField(fs[0], vs[0]) + EncodeFields(fs[1..], vs[1..])
  }

  /** The term `getHeader` adds for the field's variable part, a `uint16` conversion. */
  function HeaderTerm(f: Field, v: FieldValue): nat {
    match (f, v)
    case (Counted(size), Elems(elems)) => U16(|elems| * size)
    case (BitString, Bits(numBits, _)) => U16(BitBytes(numBits))
    case (Remainder, Blob(bytes)) => U16(|bytes|)
    case _ => 0
  }

  // ---- reading ----

  /** `FieldSpec.value` for a packed field: shift the part to the bottom, then, unless
      it is the leftmost, mask it with `1 << width-1`. Python binds `-` tighter than
      `<<`, so the mask is the single bit `2^(width-1)`. */
  function ExtractPart(b: nat, p: BitPart): nat {
    var shift := 8 - (p.bit + p.width);
    var down := if shift <= 0 then b else Shr(b, shift);
    if p.bit != 0 && p.width > 0 then AndBit(down, p.width - 1) else down
  }

  function ExtractParts(b: nat, parts: seq<BitPart>): (r: seq<nat>)
    ensures |r| == |parts|
  {
    if parts == [] then [] else [ExtractPart(b, parts[0])] + ExtractParts(b, parts[1..])
  }

  function DecodeElems(data: seq<Byte>, size: nat, n: nat): (r: seq<nat>)
    requires |data| == n * size
    ensures |r| == n
  {
    if n == 0 then []
    else
      assert n * size == size + (n - 1) * size;
      [FromBigEndian(data[..size])] + DecodeElems(data[size..], size, n - 1)
  }

  /** Reads one field at `data[pos:]`; the second component is where it ends.
      Reading past the end is a panic, a length prefix that overruns is an error. */
  function DecodeField(f: Field, data: seq<Byte>, pos: nat): (r: Outcome<(FieldValue, nat)>)
    ensures r.Ok? ==> r.value.1 >= pos
    ensures r.Ok? && !IsFixed(f) ==> r.value.1 <= |data|
    ensures r.Ok? && IsFixed(f) ==> r.value.1 == pos + MinSize(f)
    ensures !r.Stuck?
  {
    match f
    case Scalar(size) =>
      if pos + size > |data| then Panic
      else Ok((Num(FromBigEndian(data[pos..pos + size])), pos + size))
    case Packed(parts) =>
      if pos >= |data| then Panic else Ok((Parts(ExtractParts(data[pos], parts)), pos + 1))
    case Padding(size) => Ok((Void, pos + size))
    case Block(length) =>
      // make, then copy: a short source leaves trailing zeros
      if pos > |data| then Panic
      else
        var have := if pos + length <= |data| then length else |data| - pos;
        Ok((Blob(data[pos..pos + have] + Zeros(length - have)), pos + length))
    case Counted(size) =>
      if pos + 2 > |data| then Panic
      else
        var n := U16At(data, pos);
        var length: nat := n * size;
        if length > |data| - (pos + 2) then Reject
        else Ok((Elems(DecodeElems(data[pos + 2..pos + 2 + length], size, n)), pos + 2 + length))
    case BitString =>
      if pos + 2 > |data| then Panic
      else
        var numBits := U16At(data, pos);
        var nBytes := BitBytes(numBits);
        if nBytes > |data| - (pos + 2) then Reject
        else Ok((Bits(numBits, data[pos + 2..pos + 2 + nBytes]), pos + 2 + nBytes))
    case Remainder =>
      // it does not move the position: nothing may follow it
      if pos > |data| then Panic else Ok((Blob(data[pos..]), pos))
  }

  // ---- round trips ----

  lemma PlacedFits(p: BitPart, v: nat, n: nat)
    requires n == 8 && p.bit + p.width <= n && v < Pow2(p.width)
    ensures var s := n - (p.bit + p.width); Shl(v, s) + Pow2(s) <= Pow2(n - p.bit) <= Pow2(n) == 256
  {
    hide Shl, Pow2;
    ShlFits(v, p.width, n - (p.bit + p.width));
    Pow2Grows(n - p.bit, n);
    EightBits();
  }

  lemma EightBits()
    ensures Pow2(8) == 256
  {}

  lemma PackStep(p: BitPart, v: nat, rest: nat, n: nat)
    requires n == 8 && p.bit + p.width <= n
    requires v < Pow2(p.width) && rest < Pow2(n - (p.bit + p.width))
    ensures var s := n - (p.bit + p.width);
            Or(Place(p, v, n), rest, n) == Shl(v, s) + rest < Pow2(n - p.bit)
  {
    hide Shl, Or, Pow2;
    var s := n - (p.bit + p.width);
    PlacedFits(p, v, n);
    assert Place(p, v, n) == Shl(v, s);
    OrDisjoint(v, s, rest, n);
  }

  lemma PackUnfolds(parts: seq<BitPart>, vals: seq<nat>, lo: nat, n: nat)
    requires PartsOk(parts, lo) && PartValues(parts, vals) && n == 8 && parts != []
    ensures |parts| == |vals| && vals[0] < Pow2(parts[0].width)
    ensures lo <= parts[0].bit && parts[0].bit + parts[0].width <= 8
    ensures PartsOk(parts[1..], parts[0].bit + parts[0].width) && PartValues(parts[1..], vals[1..])
    ensures Pack(parts, vals, n) == Or(Place(parts[0], vals[0], n), Pack(parts[1..], vals[1..], n), n)
  {
    hide Place, Or, Pow2;
  }

  lemma PackNothing(parts: seq<BitPart>, vals: seq<nat>, n: nat)
    requires n == 8 && parts == [] && PartValues(parts, vals)
    ensures |parts| == |vals| && Pack(parts, vals, n) == 0
  {}

  lemma {:induction false} PackSplits(parts: seq<BitPart>, vals: seq<nat>, lo: nat, n: nat)
    requires PartsOk(parts, lo) && PartValues(parts, vals) && lo <= n == 8
    ensures Pack(parts, vals, n) < Pow2(n - lo)
    ensures parts != [] ==>
              var s := n - (parts[0].bit + parts[0].width);
              && Pack(parts, vals, n) == Shl(vals[0], s) + Pack(parts[1..], vals[1..], n)
              && Pack(parts[1..], vals[1..], n) < Pow2(s)
  {
    hide *;
    if parts == [] {
      PackNothing(parts, vals, n);
    } else {
      var p := parts[0];
      PackUnfolds(parts, vals, lo, n);
      PackSplits(parts[1..], vals[1..], p.bit + p.width, n);
      PackStep(p, vals[0], Pack(parts[1..], vals[1..], n), n);
      Pow2Grows(n - p.bit, n - lo);
    }
  }

  /** A part that starts after bit `lo` reads the same with or without what is to its left. */
  lemma {:induction false} ExtractIgnoresLeft(parts: seq<BitPart>, lo: nat, v: nat, b: nat, whole: nat)
    requires 0 < lo <= 8 && PartsOk(parts, lo)
    requires whole == Shl(v, 8 - lo) + b
    ensures ExtractParts(whole, parts) == ExtractParts(b, parts)
  {
    if parts == [] {
    } else {
      var p := parts[0];
      LowBitUnchanged(v, 8 - lo, 8 - (p.bit + 1), b);
      ExtractIgnoresLeft(parts[1..], lo, v, b, whole);
    }
  }

  lemma {:induction false} PackRoundTrip(parts: seq<BitPart>, vals: seq<nat>, lo: nat, n: nat)
    requires PartsOk(parts, lo) && PartValues(parts, vals) && lo <= n == 8
    ensures ExtractParts(Pack(parts, vals, n), parts) == vals
  {
    if parts == [] {
    } else {
      var hi := parts[0].bit + parts[0].width;
      var rest := Pack(parts[1..], vals[1..], n);
      PackSplits(parts, vals, lo, n);
      PackRoundTrip(parts[1..], vals[1..], hi, n);
      ExtractFirst(parts[0], vals[0], rest, Pack(parts, vals, n), hi);
      ExtractIgnoresLeft(parts[1..], hi, vals[0], rest, Pack(parts, vals, n));
    }
  }

  lemma ExtractFirst(p: BitPart, v: nat, rest: nat, b: nat, hi: nat)
    requires 1 <= p.width && hi == p.bit + p.width <= 8 && v < Pow2(p.width)
    requires p.bit == 0 || p.width == 1
    requires rest < Pow2(8 - hi) && b == Shl(v, 8 - hi) + rest
    ensures ExtractPart(b, p) == v
  {
    hide Shl, Shr, Pow2;
    ShrOfShl(v, 8 - hi, rest);
    ExtractIsShift(p, b, v, hi);
  }

  /** A leftmost part is the byte shifted down, and so is a single bit, mask or not. */
  lemma ExtractIsShift(p: BitPart, b: nat, v: nat, hi: nat)
    requires 1 <= p.width && hi == p.bit + p.width <= 8 && v < Pow2(p.width)
    requires p.bit == 0 || p.width == 1
    requires Shr(b, 8 - hi) == v
    ensures ExtractPart(b, p) == v
  {}

  /** The generated mask reads back every value of a packed field exactly when the
      field is the leftmost of its byte or one bit wide. */
  lemma MaskIsExact(p: BitPart)
    requires 1 <= p.width && p.bit + p.width <= 8
    ensures (forall v: nat :: v < Pow2(p.width) ==> ExtractPart(PackByte([p], [v]), p) == v)
            <==> (p.bit == 0 || p.width == 1)
  {
    if p.bit == 0 || p.width == 1 {
      forall v: nat | v < Pow2(p.width)
        ensures ExtractPart(PackByte([p], [v]), p) == v
      {
        PackRoundTrip([p], [v], 0, 8);
        assert ExtractPart(PackByte([p], [v]), p) == ExtractParts(PackByte([p], [v]), [p])[0];
      }
    } else {
      Pow2Grows(2, p.width);
      MaskLosesOne(p, 8);
      assert (1 as nat) < Pow2(p.width);
    }
  }

  /** The value 1 of a wider field that does not start its byte is read back as 0. */
  lemma MaskLosesOne(p: BitPart, n: nat)
    requires n == 8 && 2 <= p.width && 0 < p.bit && p.bit + p.width <= n
    ensures ExtractPart(Pack([p], [1], n), p) == 0
  {
    hide Pack, Shl, Shr, Pow2, Or, Place;
    var s := n - (p.bit + p.width);
    PackOne(p, n);
    ShrOfShl(1, s, 0);
    NotShifted(Shl(1, 0) + 0);
    OneShifted(p.width - 1);
  }

  lemma NotShifted(x: nat)
    ensures Shr(x, 0) == x
  {}

  lemma PackOne(p: BitPart, n: nat)
    requires n == 8 && 2 <= p.width && p.bit + p.width <= n
    ensures Pack([p], [1], n) == Shl(1, n - (p.bit + p.width)) + 0
  {
    hide Shl, Pow2, Or, Place;
    OneFits(p.width);
    PackStep(p, 1, 0, n);
    assert Pack([p][1..], [1][1..], n) == 0;
  }

  lemma OneFits(width: nat)
    requires width >= 1
    ensures 1 < Pow2(width)
  {
    Pow2Grows(1, width);
  }

  lemma {:induction false} OneShifted(k: nat)
    requires k >= 1
    ensures Shr(1, k) == 0
  {
    NothingShifted(k - 1);
  }

  lemma {:induction false} NothingShifted(k: nat)
    ensures Shr(0, k) == 0
  {
    if k > 0 {
      NothingShifted(k - 1);
    }
  }

  lemma {:induction false} ElemsRoundTrip(elems: seq<nat>, size: nat)
    requires forall i :: 0 <= i < |elems| ==> elems[i] < Pow256(size)
    ensures |EncodeElems(elems, size)| == |elems| * size
    ensures DecodeElems(EncodeElems(elems, size), size, |elems|) == elems
  {
    if elems == [] {
    } else {
      ElemsRoundTrip(elems[1..], size);
      BigEndianRoundTrip(elems[0], size);
      var e := EncodeElems(elems, size);
      assert e[..size] == BigEndian(elems[0], size);
      assert e[size..] == EncodeElems(elems[1..], size);
    }
  }

  /** A 16-bit prefix and the bytes it introduces are found where they were put. */
  lemma PrefixReadsBack(n: nat, before: seq<Byte>, body: seq<Byte>, after: seq<Byte>)
    requires n < 0x1_0000
    ensures var data := before + (BigEndian(n, 2) + body) + after;
            && U16At(data, |before|) == n
            && data[|before| + 2..|before| + 2 + |body|] == body
  {
    var prefix := BigEndian(n, 2);
    var data := before + (prefix + body) + after;
    BigEndian2(n);
    assert data[|before|] == prefix[0] && data[|before| + 1] == prefix[1];
  }

  lemma CountedRoundTrip(size: nat, elems: seq<nat>, before: seq<Byte>, after: seq<Byte>)
    requires size > 0 && ValueOk(Counted(size), Elems(elems))
    ensures var e := EncodeField(Counted(size), Elems(elems));
            DecodeField(Counted(size), before + e + after, |before|) == Ok((Elems(elems), |before| + |e|))
  {
    hide EncodeElems, DecodeElems, BigEndian;
    var body := EncodeElems(elems, size);
    ElemsRoundTrip(elems, size);
    PrefixReadsBack(|elems|, before, body, after);
    var data := before + (BigEndian(|elems|, 2) + body) + after;
    assert data[|before| + 2..|before| + 2 + |elems| * size] == body;
  }

  lemma BitStringRoundTrip(numBits: nat, bits: seq<Byte>, before: seq<Byte>, after: seq<Byte>)
    requires ValueOk(BitString, Bits(numBits, bits))
    ensures var e := EncodeField(BitString, Bits(numBits, bits));
            DecodeField(BitString, before + e + after, |before|) == Ok((Bits(numBits, bits), |before| + |e|))
  {
    PrefixReadsBack(numBits, before, bits, after);
  }

  /** A field reads back what was written, wherever it stands in the data. */
  lemma FieldRoundTrip(f: Field, v: FieldValue, before: seq<Byte>, after: seq<Byte>)
    requires FieldOk(f) && ValueOk(f, v)
    requires f.Remainder? ==> after == []
    ensures var e := EncodeField(f, v);
            DecodeField(f, before + e + after, |before|)
            == Ok((v, |before| + if f.Remainder? then 0 else |e|))
  {
    hide PartsOk, PartValues, PackByte, ExtractParts, EncodeElems, DecodeElems, BigEndian, FromBigEndian, BitBytes;
    var e := EncodeField(f, v);
    var data := before + e + after;
    match f
    case Scalar(size) =>
      BigEndianRoundTrip(v.n, size);
      assert data[|before|..|before| + |e|] == e;
    case Packed(parts) => PackedRoundTrip(parts, v.vals);
    case Padding(_) =>
    case Block(_) =>
      assert data[|before|..|before| + |e|] + Zeros(0) == e;
    case Counted(size) => CountedRoundTrip(size, v.elems, before, after);
    case BitString => BitStringRoundTrip(v.numBits, v.bits, before, after);
    case Remainder =>
      assert data[|before|..] == e;
  }

  lemma PackedRoundTrip(parts: seq<BitPart>, vals: seq<nat>)
    requires PartsOk(parts, 0) && PartValues(parts, vals)
    ensures |parts| == |vals| && ExtractParts(PackByte(parts, vals), parts) == vals
  {
    hide PartsOk, Pack, ExtractParts;
    PackRoundTrip(parts, vals, 0, 8);
  }

  /** `getHeader` counts exactly the bytes the field encoder writes, modulo 2^16. */
  lemma HeaderTermIsExact(f: Field, v: FieldValue)
    requires ValueOk(f, v)
    ensures U16(MinSize(f) + HeaderTerm(f, v)) == U16(|EncodeField(f, v)|)
    ensures MinSize(f) <= |EncodeField(f, v)|
  {
    match f
    case Scalar(_) =>
    case Packed(_) =>
    case Padding(_) =>
    case Block(_) =>
    case Counted(size) => U16Absorbs(|v.elems| * size, 2);
    case BitString => U16Absorbs(BitBytes(v.numBits), 2);
    case Remainder => U16Absorbs(|v.bytes|, 0);
  }

  // ---- the bytes themselves ----

  lemma {:induction false} ShiftIsQuotient(x: nat, k: nat)
    ensures Shr(x, k) == x / Pow2(k)
  {
    hide Pow2;
    if k == 0 {
      OneIsNeutral(x);
    } else {
      ShiftIsQuotient(x / 2, k - 1);
      DivDiv(x, 2, Pow2(k - 1));
      TwiceThePower(k);
    }
  }

  lemma OneIsNeutral(x: nat)
    ensures Pow2(0) == 1 && x / 1 == x && Shr(x, 0) == x
  {}

  lemma TwiceThePower(k: nat)
    requires k > 0
    ensures Pow2(k) == 2 * Pow2(k - 1)
  {}

  /** The value of the byte's bits that make a part. */
  function BitsOf(b: nat, p: BitPart): nat
    requires p.bit + p.width <= 8
  {
    b / Pow2(8 - (p.bit + p.width)) % Pow2(p.width)
  }

  /** A part is read as the number its bits make. */
  lemma PartIsItsBits(b: nat, p: BitPart)
    requires b < 256 && 1 <= p.width && p.bit + p.width <= 8 && (p.bit == 0 || p.width == 1)
    ensures ExtractPart(b, p) == BitsOf(b, p)
  {
    hide Pow2, Shr, ExtractPart, AndBit;
    var s := 8 - (p.bit + p.width);
    ShiftIsQuotient(b, s);
    ExtractIsShifted(b, p);
    if p.bit == 0 {
      EightBits();
      ShrFits(b, s, p.width);
      SmallModulo(Shr(b, s), Pow2(p.width));
    } else {
      SingleBit(Shr(b, s));
    }
  }

  lemma ExtractIsShifted(b: nat, p: BitPart)
    requires 1 <= p.width && p.bit + p.width <= 8 && (p.bit == 0 || p.width == 1)
    ensures var down := Shr(b, 8 - (p.bit + p.width));
            ExtractPart(b, p) == if p.bit == 0 then down else AndBit(down, 0)
  {
    hide Shr, AndBit;
    NotShifted(b);
  }

  lemma SmallModulo(x: nat, m: nat)
    requires x < m
    ensures x % m == x
  {}

  lemma {:induction false} ShrFits(x: nat, k: nat, w: nat)
    requires x < Pow2(k + w)
    ensures Shr(x, k) < Pow2(w)
  {
    if k > 0 {
      ShrFits(x / 2, k - 1, w);
    }
  }

  lemma SingleBit(x: nat)
    ensures AndBit(x, 0) == x % 2 == x % Pow2(1)
  {}

  lemma {:induction false} PartsAreTheirBits(b: nat, parts: seq<BitPart>, lo: nat, i: nat)
    requires b < 256 && PartsOk(parts, lo) && i < |parts|
    ensures parts[i].bit + parts[i].width <= 8
    ensures ExtractParts(b, parts)[i] == BitsOf(b, parts[i])
  {
    hide BitsOf, ExtractPart;
    if i == 0 {
      PartIsItsBits(b, parts[0]);
    } else {
      PartsAreTheirBits(b, parts[1..], parts[0].bit + parts[0].width, i - 1);
    }
  }

  /** Each value times the place value of its part's last bit. */
  function PlaceSum(parts: seq<BitPart>, vals: seq<nat>): nat
    requires |parts| == |vals| && forall i :: 0 <= i < |parts| ==> parts[i].bit + parts[i].width <= 8
  {
    if parts == [] then 0
    else vals[0] * Pow2(8 - (parts[0].bit + parts[0].width)) + PlaceSum(parts[1..], vals[1..])
  }

  lemma {:induction false} PartsEnd(parts: seq<BitPart>, lo: nat, i: nat)
    requires PartsOk(parts, lo) && i < |parts|
    ensures parts[i].bit + parts[i].width <= 8
  {
    if i > 0 {
      PartsEnd(parts[1..], parts[0].bit + parts[0].width, i - 1);
    }
  }

  lemma {:induction false} ShlIsProduct(v: nat, k: nat)
    ensures Shl(v, k) == v * Pow2(k)
  {
    hide Pow2;
    if k == 0 {
      OneIsNeutral(v);
    } else {
      ShlIsProduct(v, k - 1);
      TwiceThePower(k);
      assert v * (2 * Pow2(k - 1)) == 2 * (v * Pow2(k - 1));
    }
  }

  /** A packed byte is the sum of its values in their places; the bits of no part are zero. */
  lemma {:induction false} PackIsSum(parts: seq<BitPart>, vals: seq<nat>, lo: nat, n: nat)
    requires PartsOk(parts, lo) && PartValues(parts, vals) && lo <= n == 8
    ensures forall i :: 0 <= i < |parts| ==> parts[i].bit + parts[i].width <= 8
    ensures Pack(parts, vals, n) == PlaceSum(parts, vals)
  {
    hide Pow2, Shl, Or, Place;
    forall i | 0 <= i < |parts|
      ensures parts[i].bit + parts[i].width <= 8
    {
      PartsEnd(parts, lo, i);
    }
    if parts != [] {
      var hi := parts[0].bit + parts[0].width;
      PackSplits(parts, vals, lo, n);
      PackIsSum(parts[1..], vals[1..], hi, n);
      ShlIsProduct(vals[0], n - hi);
    }
  }

  /** Number `i` takes the `size` bytes from `i * size` on. */
  lemma {:induction false} ElemsInOrder(elems: seq<nat>, size: nat, i: nat)
    requires i < |elems|
    ensures 0 <= i * size <= i * size + size <= |elems| * size
    ensures EncodeElems(elems, size)[i * size..i * size + size] == BigEndian(elems[i], size)
  {
    hide BigEndian;
    var e := EncodeElems(elems, size);
    MoreBytes(i + 1, |elems|, size);
    if i > 0 {
      ElemsInOrder(elems[1..], size, i - 1);
      assert i * size == (i - 1) * size + size;
      assert e[size..] == EncodeElems(elems[1..], size);
      assert e[i * size..i * size + size] == e[size..][(i - 1) * size..(i - 1) * size + size];
    }
  }

  lemma MoreBytes(i: nat, n: nat, size: nat)
    requires i <= n
    ensures i * size <= n * size
  {}

  lemma CountedBytes(elems: seq<nat>, size: nat, k: nat)
    requires k < |elems|
    ensures 2 + k * size + size <= 2 + |elems| * size
    ensures (BigEndian(|elems|, 2) + EncodeElems(elems, size))[2 + k * size..2 + k * size + size]
            == BigEndian(elems[k], size)
  {
    hide BigEndian, EncodeElems;
    ElemsInOrder(elems, size, k);
    var body := EncodeElems(elems, size);
    var e := BigEndian(|elems|, 2) + body;
    assert e[2 + k * size..2 + k * size + size] == body[k * size..k * size + size];
  }

  /** What a field looks like on the wire. */
  ghost predicate LooksLike(f: Field, v: FieldValue, e: seq<Byte>) {
    match (f, v)
    case (Scalar(size), Num(n)) => |e| == size && forall k :: 0 <= k < size ==> e[k] == n / Pow256(size - 1 - k) % 256
    case (Packed(parts), Parts(vals)) =>
      && |parts| == |vals| && (forall i :: 0 <= i < |parts| ==> parts[i].bit + parts[i].width <= 8)
      && |e| == 1 && e[0] == PlaceSum(parts, vals)
    case (Padding(size), _) => |e| == size && forall k :: 0 <= k < size ==> e[k] == 0
    case (Block(_), Blob(bytes)) => e == bytes
    case (Counted(size), Elems(elems)) =>
      && |e| == 2 + |elems| * size && U16At(e, 0) == |elems|
      && forall k :: 0 <= k < |elems| ==> ElemAt(e, 2 + k * size, size, elems[k])
    case (BitString, Bits(numBits, bits)) => |e| >= 2 && U16At(e, 0) == numBits && e[2..] == bits
    case (Remainder, Blob(bytes)) => e == bytes
    case _ => false
  }

  predicate ElemAt(e: seq<Byte>, at: nat, size: nat, n: nat) {
    at + size <= |e| && e[at..at + size] == BigEndian(n, size)
  }

  lemma ScalarLooks(size: nat, n: nat)
    ensures LooksLike(Scalar(size), Num(n), BigEndian(n, size))
  {
    hide BigEndian, Pow256;
    forall k | 0 <= k < size
      ensures BigEndian(n, size)[k] == n / Pow256(size - 1 - k) % 256
    {
      BigEndianDigits(n, size, k);
    }
  }

  lemma CountedLooks(size: nat, elems: seq<nat>)
    requires |elems| < 0x1_0000
    ensures LooksLike(Counted(size), Elems(elems), BigEndian(|elems|, 2) + EncodeElems(elems, size))
  {
    hide BigEndian, EncodeElems;
    BigEndian2(|elems|);
    forall k | 0 <= k < |elems|
      ensures ElemAt(BigEndian(|elems|, 2) + EncodeElems(elems, size), 2 + k * size, size, elems[k])
    {
      CountedBytes(elems, size, k);
    }
  }

  /** Every kind of field: numbers from the highest byte, parts in their bits and zero in all
      others, reserved bytes zero, counts in front of what they count, elements in order. */
  lemma FieldBytes(f: Field, v: FieldValue)
    requires FieldOk(f) && ValueOk(f, v)
    ensures LooksLike(f, v, EncodeField(f, v))
  {
    match f
    case Scalar(size) => ScalarLooks(size, v.n);
    case Packed(parts) =>
      hide PlaceSum, Pack, PartsOk;
      PackIsSum(parts, v.vals, 0, 8);
    case Counted(size) => CountedLooks(size, v.elems);
    case BitString => BigEndian2(v.numBits);
    case _ =>
  }
}
