/**
 * The Protocol Buffers wire-format primitives of the generated file
 * pkg/ttnpb/message_services.pb.go: base-128 varints (encodeVarintMessageServices,
 * sovMessageServices, sozMessageServices, the decoding loops inlined in
 * Unmarshal) and skipMessageServices, which steps over one field of any wire type.
 *
 * Go's fixed-width integers are written out: `uint64` is the range
 * [0, 2^64), `Int64` reinterprets 64 bits as a two's-complement `int`,
 * `Int32` keeps the low 32 bits of a value as a signed number. Index
 * arithmetic (`iNdEx + length`, `start + next`) is on unbounded integers,
 * so none of these sums wraps as Go's `int` addition can.
 */
module ProtoWire {
  import opened Wrappers

  const TWO_TO_63: nat := 0x8000_0000_0000_0000
  const TWO_TO_64: nat := 0x1_0000_0000_0000_0000

  type byte = x: int | 0 <= x < 256
  type uint64 = x: int | 0 <= x < 0x1_0000_0000_0000_0000

  /** The errors the decoding code returns. */
  datatype Error =
    | ErrIntOverflow                                // ErrIntOverflowMessageServices
    | ErrInvalidLength                              // ErrInvalidLengthMessageServices
    | ErrUnexpectedEOF                              // io.ErrUnexpectedEOF
    | ErrIllegalWireType(wireType: nat)             // "proto: illegal wireType %d"
    | ErrEndGroup                                   // "wiretype end group for non-group"
    | ErrIllegalTag(fieldNum: int, wire: uint64)    // "illegal tag %d (wire type %d)"
    | ErrWrongWireType(fieldNum: int, wireType: nat) // "wrong wireType = %d for field ..."

  function Pow2(n: nat): (r: nat)
    ensures r >= 1
  {
    if n == 0 then 1 else 2 * Pow2(n - 1)
  }

  /** `x << n` on unbounded integers: `n` doublings. */
  function ShiftLeft(x: nat, n: nat): nat
  {
    if n == 0 then x else 2 * ShiftLeft(x, n - 1)
  }

  lemma {:induction false} ShiftLeftIsMul(x: nat, n: nat)
    ensures ShiftLeft(x, n) == x * Pow2(n)
  {
    if n > 0 {
      ShiftLeftIsMul(x, n - 1);
    }
  }

  /** `int64(x)`: the 64 bits of `x` read as a two's-complement number. */
  function Int64(x: uint64): (r: int)
    ensures -0x8000_0000_0000_0000 <= r < TWO_TO_63
    ensures r >= 0 <==> x < TWO_TO_63
    ensures r % TWO_TO_64 == x
  {
    if x < TWO_TO_63 then x else x - TWO_TO_64
  }

  /** `int32(x)`: the low 32 bits of `x` read as a two's-complement number. */
  function Int32(x: nat): (r: int)
    ensures -0x8000_0000 <= r < 0x8000_0000
    ensures x < 0x8000_0000 ==> r == x
  {
    var low := x % 0x1_0000_0000;
    if low < 0x8000_0000 then low else low - 0x1_0000_0000
  }

  // ---------------------------------------------------------------------------
  // Encoding
  // ---------------------------------------------------------------------------

  /**
   * The bytes encodeVarintMessageServices writes for `v`: 7-bit groups, least
   * significant first, every group but the last with bit 0x80 set.
   */
  function VarintBytes(v: nat): (r: seq<byte>)
    ensures |r| >= 1
    decreases v
  {
    if v < 128 then [v] else [v % 128 + 128] + VarintBytes(v / 128)
  }

  /** Every byte of a varint but the last has the continuation bit; the last has not. */
  lemma {:induction false} VarintBytesShape(v: nat)
    ensures forall k :: 0 <= k < |VarintBytes(v)| - 1 ==> VarintBytes(v)[k] >= 128
    ensures VarintBytes(v)[|VarintBytes(v)| - 1] < 128
    decreases v
  {
    if v >= 128 {
      VarintBytesShape(v / 128);
    }
  }

  lemma {:induction false} Pow2Add(a: nat, b: nat)
    ensures Pow2(a + b) == Pow2(a) * Pow2(b)
  {
    if a > 0 {
      Pow2Add(a - 1, b);
    }
  }

  lemma {:induction false} Pow2Monotone(a: nat, b: nat)
    requires a <= b
    ensures Pow2(a) <= Pow2(b)
    decreases b
  {
    if a < b {
      Pow2Monotone(a, b - 1);
    }
  }

  lemma Pow2Of7()
    ensures Pow2(7) == 128
  {
  }

  lemma Pow2Of63()
    ensures Pow2(63) == TWO_TO_63
  {
    Pow2Of56();
    Pow2Add(56, 7);
  }

  lemma Pow2Constants()
    ensures Pow2(7) == 128
    ensures Pow2(63) == TWO_TO_63
    ensures Pow2(64) == TWO_TO_64
  {
    Pow2Of7();
    Pow2Of63();
    Pow2Add(63, 1);
  }

  /** A varint of n bytes stands for a value below 2^(7n), and at least 2^(7(n-1)) when n > 1. */
  lemma {:induction false} VarintBytesMagnitude(v: nat)
    ensures v < Pow2(7 * |VarintBytes(v)|)
    ensures |VarintBytes(v)| > 1 ==> Pow2(7 * (|VarintBytes(v)| - 1)) <= v
    decreases v
  {
    Pow2Constants();
    if v >= 128 {
      var n' := |VarintBytes(v / 128)|;
      VarintBytesMagnitude(v / 128);
      Pow2Add(7, 7 * n');
      if n' > 1 {
        Pow2Add(7, 7 * (n' - 1));
      }
    }
  }

  /** The number of bytes of a uint64 varint: between 1 and 10. */
  lemma VarintLengthAtMost10(v: uint64)
    ensures 1 <= |VarintBytes(v)| <= 10
  {
    var n := |VarintBytes(v)|;
    VarintBytesMagnitude(v);
    Pow2Constants();
    if n > 10 {
      Pow2Monotone(64, 7 * (n - 1));
    }
  }

  lemma Pow2Of14()
    ensures Pow2(14) == 0x4000
  {
    Pow2Of7();
    Pow2Add(7, 7);
  }

  lemma Pow2Of28()
    ensures Pow2(28) == 0x1000_0000
  {
    Pow2Of14();
    Pow2Add(14, 14);
  }

  lemma Pow2Of56()
    ensures Pow2(56) == 0x100_0000_0000_0000
  {
    Pow2Of28();
    Pow2Add(28, 28);
  }

  /** A value in [2^(7(n-1)), 2^(7n)) (or below 128 for n = 1) has an n-byte varint. */
  lemma VarintLengthFromBounds(v: nat, n: nat)
    requires n >= 1 && v < Pow2(7 * n)
    requires n > 1 ==> Pow2(7 * (n - 1)) <= v
    ensures |VarintBytes(v)| == n
  {
    var k := |VarintBytes(v)|;
    VarintBytesMagnitude(v);
    if k > n {
      Pow2Monotone(7 * n, 7 * (k - 1));
    }
    if k < n {
      Pow2Monotone(7 * k, 7 * (n - 1));
    }
  }

  /** A slice of a matched piece is the same slice of the input. */
  lemma SubSlice(data: seq<byte>, i: nat, piece: seq<byte>, a: nat, b: nat)
    requires i + |piece| <= |data| && data[i..i + |piece|] == piece
    requires a <= b <= |piece|
    ensures data[i + a..i + b] == piece[a..b]
  {
    forall k | 0 <= k < b - a
      ensures data[i + a..i + b][k] == piece[a..b][k]
    {
      assert data[i + a..i + b][k] == data[i + a + k];
      assert data[i + a + k] == data[i..i + |piece|][a + k];
    }
  }

  /**
   * encodeVarintMessageServices: writes `v` at `offset` and returns the offset
   * just past it. Go indexes `dAtA` without a check, so the caller must have
   * made room (Size() does that for MarshalTo).
   */
  method EncodeVarint(dAtA: array<byte>, offset: nat, v: uint64) returns (next: nat)
    requires offset + |VarintBytes(v)| <= dAtA.Length
    modifies dAtA
    ensures next == offset + |VarintBytes(v)|
    ensures dAtA[..next] == old(dAtA[..offset]) + VarintBytes(v)
    ensures dAtA[next..] == old(dAtA[next..])
  {
    var x: nat := v;
    next := offset;
    while x >= 128
      invariant offset <= next
      invariant next + |VarintBytes(x)| == offset + |VarintBytes(v)|
      invariant dAtA[..next] + VarintBytes(x) == old(dAtA[..offset]) + VarintBytes(v)
      invariant dAtA[offset + |VarintBytes(v)|..] == old(dAtA[offset + |VarintBytes(v)|..])
      decreases x
    {
      assert VarintBytes(x) == [x % 128 + 128] + VarintBytes(x / 128);
      dAtA[next] := x % 128 + 128;
      x := x / 128;
      next := next + 1;
    }
    dAtA[next] := x;
    next := next + 1;
  }

  /** sovMessageServices: the number of bytes of the varint of `x`, 1 to 10. */
  method Sov(x: uint64) returns (n: nat)
    ensures n == |VarintBytes(x)|
    ensures 1 <= n <= 10
  {
    VarintLengthAtMost10(x);
    n := 0;
    var y: nat := x;
    while true
      invariant n + |VarintBytes(y)| == |VarintBytes(x)|
      decreases y
    {
      n := n + 1;
      if y < 128 {
        break;
      }
      y := y / 128;
    }
  }

  /**
   * The zigzag map `(x << 1) ^ uint64(int64(x) >> 63)` on 64 bits: the shift
   * drops bit 63, and the arithmetic shift gives all zeros or all ones, so
   * the xor is the identity or the complement.
   */
  function ZigZag(x: uint64): uint64
  {
    var shifted := (2 * x) % TWO_TO_64;
    if x < TWO_TO_63 then shifted else TWO_TO_64 - 1 - shifted
  }

  /** Zigzag interleaves signed values: 0, -1, 1, -2, ... go to 0, 1, 2, 3, ... */
  lemma ZigZagOfSigned(x: uint64)
    ensures Int64(x) >= 0 ==> ZigZag(x) == 2 * Int64(x)
    ensures Int64(x) < 0 ==> ZigZag(x) == -2 * Int64(x) - 1
  {
  }

  /** sozMessageServices: the size of the zigzag varint of `x` read as a signed number. */
  function Soz(x: uint64): (n: nat)
    ensures 1 <= n <= 10
    ensures n == |VarintBytes(if Int64(x) >= 0 then 2 * Int64(x) else -2 * Int64(x) - 1)|
  {
    VarintLengthAtMost10(ZigZag(x));
    ZigZagOfSigned(x);
    |VarintBytes(ZigZag(x))|
  }

  // ---------------------------------------------------------------------------
  // Decoding
  // ---------------------------------------------------------------------------

  /**
   * `wire |= (uint64(b) & 0x7F) << shift` for a shift of 0, 7, ..., 63 when
   * `wire` holds only bits below `shift`: the or is an addition, and the
   * uint64 shift keeps the whole group except at shift 63, where only its
   * lowest bit survives.
   */
  function Accumulate(acc: nat, b: byte, shift: nat): nat
  {
    acc + ShiftLeft(if shift == 63 then b % 2 else b % 128, shift)
  }

  lemma AccumulateBound(acc: nat, b: byte, shift: nat)
    requires shift % 7 == 0 && shift < 64
    requires acc < Pow2(shift)
    ensures Accumulate(acc, b, shift) < TWO_TO_64
    ensures shift < 63 ==> Accumulate(acc, b, shift) < Pow2(shift + 7)
  {
    var group := if shift == 63 then b % 2 else b % 128;
    ShiftLeftIsMul(group, shift);
    Pow2Constants();
    if shift == 63 {
      MulBelow(group, 1, Pow2(63));
    } else {
      MulBelow(group, 127, Pow2(shift));
      Pow2Add(shift, 7);
      Pow2Monotone(shift + 7, 64);
    }
  }

  /**
   * The decoding loop `for shift := uint(0); ; shift += 7` from byte `i`,
   * with `acc` collected so far: ErrIntOverflow once the shift reaches 64,
   * ErrUnexpectedEOF at the end of the input, otherwise the value and the
   * position after the first byte below 0x80.
   */
  function ReadVarintFrom(data: seq<byte>, i: nat, shift: nat, acc: uint64): (r: Result<(uint64, nat), Error>)
    requires shift % 7 == 0 && (shift < 64 ==> acc < Pow2(shift))
    ensures r.Success? ==> i < r.value.1 <= |data|
    ensures r.Success? ==> shift + 7 * (r.value.1 - i) <= 70
    ensures r.Success? ==> data[r.value.1 - 1] < 128
    ensures r.Success? ==> forall k :: i <= k < r.value.1 - 1 ==> data[k] >= 128
    decreases |data| - i
  {
    if shift >= 64 then Failure(ErrIntOverflow)
    else if i >= |data| then Failure(ErrUnexpectedEOF)
    else
      var b := data[i];
      AccumulateBound(acc, b, shift);
      var acc' := Accumulate(acc, b, shift);
      if b < 128 then Success((acc', i + 1))
      else ReadVarintFrom(data, i + 1, shift + 7, acc')
  }

  /** The varint at position `i`: its value and the position after it. */
  function ReadVarint(data: seq<byte>, i: nat): Result<(uint64, nat), Error>
  {
    ReadVarintFrom(data, i, 0, 0)
  }

  /** The inlined decoding loop, as a method: ends where `ReadVarint` says. */
  method ReadVarintAt(data: seq<byte>, i: nat) returns (r: Result<(uint64, nat), Error>)
    ensures r == ReadVarint(data, i)
  {
    var wire: uint64 := 0;
    var iNdEx := i;
    var shift: nat := 0;
    while true
      invariant shift % 7 == 0 && (shift < 64 ==> wire < Pow2(shift))
      invariant ReadVarintFrom(data, iNdEx, shift, wire) == ReadVarint(data, i)
      decreases |data| - iNdEx
    {
      if shift >= 64 {
        return Failure(ErrIntOverflow);
      }
      if iNdEx >= |data| {
        return Failure(ErrUnexpectedEOF);
      }
      var b := data[iNdEx];
      iNdEx := iNdEx + 1;
      AccumulateBound(wire, b, shift);
      wire := Accumulate(wire, b, shift);
      if b < 128 {
        return Success((wire, iNdEx));
      }
      shift := shift + 7;
    }
  }

  lemma MulBelow(a: nat, b: nat, p: nat)
    requires a <= b
    ensures a * p <= b * p
  {
  }

  lemma SplitLowGroup(v: nat, p: nat)
    ensures v * p == (v / 128) * (128 * p) + (v % 128) * p
  {
    calc {
      v * p;
      ((v / 128) * 128 + v % 128) * p;
      (v / 128) * 128 * p + (v % 128) * p;
    }
  }

  /**
   * Decoding from `shift` the bytes encodeVarint wrote for `v` adds
   * `v << shift` to what was collected, as long as nothing is shifted out.
   */
  lemma {:induction false} ReadVarintFromEncoding(data: seq<byte>, i: nat, shift: nat, acc: uint64, v: nat)
    requires shift % 7 == 0 && shift < 64
    requires acc < Pow2(shift)
    requires acc + ShiftLeft(v, shift) < TWO_TO_64
    requires i + |VarintBytes(v)| <= |data|
    requires data[i..i + |VarintBytes(v)|] == VarintBytes(v)
    ensures ReadVarintFrom(data, i, shift, acc) == Success((acc + ShiftLeft(v, shift), i + |VarintBytes(v)|))
    decreases v
  {
    if shift == 63 {
      ReadVarintLastGroup(data, i, acc, v);
    } else if v < 128 {
      ReadVarintLastByte(data, i, shift, acc, v);
    } else {
      var acc' := acc + ShiftLeft(v % 128, shift);
      ReadVarintNextGroup(data, i, shift, acc, v, acc');
      ReadVarintFromEncoding(data, i + 1, shift + 7, acc', v / 128);
    }
  }

  /** At shift 63 only the values 0 and 1 fit, in a single byte. */
  lemma ReadVarintLastGroup(data: seq<byte>, i: nat, acc: uint64, v: nat)
    requires acc < Pow2(63)
    requires acc + ShiftLeft(v, 63) < TWO_TO_64
    requires i + |VarintBytes(v)| <= |data|
    requires data[i..i + |VarintBytes(v)|] == VarintBytes(v)
    ensures ReadVarintFrom(data, i, 63, acc) == Success((acc + ShiftLeft(v, 63), i + |VarintBytes(v)|))
  {
    Pow2Of63();
    ShiftLeftIsMul(v, 63);
    assert v < 2;
    assert data[i] == VarintBytes(v)[0];
  }

  /** The final byte of a varint, below 128: its group is added and decoding stops. */
  lemma ReadVarintLastByte(data: seq<byte>, i: nat, shift: nat, acc: uint64, v: nat)
    requires shift % 7 == 0 && shift < 63
    requires acc < Pow2(shift)
    requires acc + ShiftLeft(v, shift) < TWO_TO_64
    requires v < 128
    requires i + |VarintBytes(v)| <= |data|
    requires data[i..i + |VarintBytes(v)|] == VarintBytes(v)
    ensures ReadVarintFrom(data, i, shift, acc) == Success((acc + ShiftLeft(v, shift), i + |VarintBytes(v)|))
  {
    assert data[i] == VarintBytes(v)[0];
  }

  /** One continuation byte of the encoding of `v`: its group is added and decoding moves on. */
  lemma ReadVarintNextGroup(data: seq<byte>, i: nat, shift: nat, acc: uint64, v: nat, acc': nat)
    requires shift % 7 == 0 && shift < 63
    requires acc < Pow2(shift)
    requires acc + ShiftLeft(v, shift) < TWO_TO_64
    requires v >= 128
    requires i + |VarintBytes(v)| <= |data|
    requires data[i..i + |VarintBytes(v)|] == VarintBytes(v)
    requires acc' == acc + ShiftLeft(v % 128, shift)
    ensures acc' < Pow2(shift + 7) && acc' < TWO_TO_64
    ensures acc' + ShiftLeft(v / 128, shift + 7) == acc + ShiftLeft(v, shift)
    ensures i + 1 + |VarintBytes(v / 128)| == i + |VarintBytes(v)|
    ensures data[i + 1..i + 1 + |VarintBytes(v / 128)|] == VarintBytes(v / 128)
    ensures ReadVarintFrom(data, i, shift, acc) == ReadVarintFrom(data, i + 1, shift + 7, acc')
  {
    var b := data[i];
    var rest := VarintBytes(v / 128);
    assert VarintBytes(v) == [v % 128 + 128] + rest;
    assert b == v % 128 + 128 && b % 128 == v % 128;
    assert data[i + 1..i + 1 + |rest|] == data[i..i + |VarintBytes(v)|][1..];
    AccumulateBound(acc, b, shift);
    ShiftLeftSplit(v, shift);
  }

  /** `v << shift` is its low group at `shift` plus the rest at `shift + 7`. */
  lemma ShiftLeftSplit(v: nat, shift: nat)
    ensures ShiftLeft(v, shift) == ShiftLeft(v % 128, shift) + ShiftLeft(v / 128, shift + 7)
  {
    var p := Pow2(shift);
    ShiftLeftIsMul(v, shift);
    ShiftLeftIsMul(v % 128, shift);
    ShiftLeftIsMul(v / 128, shift + 7);
    Pow2Of7();
    Pow2Add(shift, 7);
    SplitLowGroup(v, p);
  }

  /** Varint round trip: decoding what encodeVarint wrote gives `v` back and consumes exactly its bytes. */
  lemma VarintRoundTrip(data: seq<byte>, i: nat, v: uint64)
    requires i + |VarintBytes(v)| <= |data|
    requires data[i..i + |VarintBytes(v)|] == VarintBytes(v)
    ensures ReadVarint(data, i) == Success((v, i + |VarintBytes(v)|))
  {
    ReadVarintFromEncoding(data, i, 0, 0, v);
  }

  /**
   * A run of continuation bytes: decoding fails with ErrUnexpectedEOF when
   * the input ends inside the run and with ErrIntOverflow once the shift
   * reaches 64 (after ten bytes from shift 0).
   */
  lemma {:induction false} ContinuationRun(data: seq<byte>, i: nat, j: nat, acc: uint64)
    requires j <= 10 && i <= |data|
    requires j < 10 ==> acc < Pow2(7 * j)
    requires forall k :: i <= k < |data| && k < i + 10 - j ==> data[k] >= 128
    ensures ReadVarintFrom(data, i, 7 * j, acc) ==
      if |data| < i + 10 - j then Failure(ErrUnexpectedEOF) else Failure(ErrIntOverflow)
    decreases 10 - j
  {
    if j < 10 && i < |data| {
      AccumulateBound(acc, data[i], 7 * j);
      ContinuationRun(data, i + 1, j + 1, Accumulate(acc, data[i], 7 * j));
    }
  }

  /** Ten bytes with the continuation bit: ErrIntOverflow. */
  lemma OverlongVarintOverflows(data: seq<byte>, i: nat)
    requires i + 10 <= |data|
    requires forall k :: i <= k < i + 10 ==> data[k] >= 128
    ensures ReadVarint(data, i) == Failure(ErrIntOverflow)
  {
    ContinuationRun(data, i, 0, 0);
  }

  /** Input that ends inside a varint, before ten bytes: ErrUnexpectedEOF. */
  lemma TruncatedVarintIsEOF(data: seq<byte>, i: nat)
    requires i <= |data| < i + 10
    requires forall k :: i <= k < |data| ==> data[k] >= 128
    ensures ReadVarint(data, i) == Failure(ErrUnexpectedEOF)
  {
    ContinuationRun(data, i, 0, 0);
  }

  // ---------------------------------------------------------------------------
  // Skipping a field
  // ---------------------------------------------------------------------------

  /**
   * skipMessageServices on a non-empty buffer (its only caller passes the
   * unread rest of a message): the length of the field at the start. Wire
   * type 0 steps over a varint, 1 over 8 bytes, 2 over a length-prefixed run,
   * 3 over a group up to its end tag, 4 over nothing, 5 over 4 bytes; 6 and 7
   * are errors. Lengths of types 1 and 5 are not checked against the buffer
   * here: the caller does that.
   */
  function Skip(data: seq<byte>): (r: Result<int, Error>)
    requires |data| > 0
    ensures r.Success? ==> r.value >= 1
    decreases |data|, |data| + 1
  {
    match ReadVarint(data, 0)
    case Failure(e) => Failure(e)
    case Success((wire, i)) =>
      var wireType := wire % 8;
      if wireType == 0 then
        match ReadVarint(data, i)
        case Failure(e) => Failure(e)
        case Success((_, j)) => Success(j)
      else if wireType == 1 then Success(i + 8)
      else if wireType == 2 then
        match ReadVarint(data, i)
        case Failure(e) => Failure(e)
        case Success((len, j)) =>
          var length := Int64(len);
          if length < 0 then Failure(ErrInvalidLength) else Success(j + length)
      else if wireType == 3 then SkipGroup(data, i)
      else if wireType == 4 then Success(i)
      else if wireType == 5 then Success(i + 4)
      else Failure(ErrIllegalWireType(wireType))
  }

  /** The group loop of skipMessageServices: skips inner fields from `start` until an end-group tag. */
  function SkipGroup(data: seq<byte>, start: nat): (r: Result<int, Error>)
    requires 1 <= start
    ensures r.Success? ==> r.value > start
    decreases |data|, if start <= |data| then |data| - start else 0
  {
    match ReadVarint(data, start)
    case Failure(e) => Failure(e)
    case Success((inner, j)) =>
      if inner % 8 == 4 then Success(j)
      else
        match Skip(data[start..])
        case Failure(e) => Failure(e)
        case Success(next) => SkipGroup(data, start + next)
  }

  /** skipMessageServices, with its loops. */
  method SkipMessageServices(data: seq<byte>) returns (r: Result<int, Error>)
    requires |data| > 0
    ensures r == Skip(data)
    decreases |data|
  {
    var tag := ReadVarintAt(data, 0);
    if tag.Failure? {
      return Failure(tag.error);
    }
    var wire := tag.value.0;
    var iNdEx := tag.value.1;
    var wireType := wire % 8;
    if wireType == 0 {
      var v := ReadVarintAt(data, iNdEx);
      if v.Failure? {
        return Failure(v.error);
      }
      return Success(v.value.1);
    } else if wireType == 1 {
      return Success(iNdEx + 8);
    } else if wireType == 2 {
      var v := ReadVarintAt(data, iNdEx);
      if v.Failure? {
        return Failure(v.error);
      }
      var length := Int64(v.value.0);
      if length < 0 {
        return Failure(ErrInvalidLength);
      }
      return Success(v.value.1 + length);
    } else if wireType == 3 {
      while true
        invariant 1 <= iNdEx
        invariant SkipGroup(data, iNdEx) == Skip(data)
        decreases if iNdEx <= |data| then |data| - iNdEx else 0
      {
        var start := iNdEx;
        var innerTag := ReadVarintAt(data, start);
        if innerTag.Failure? {
          return Failure(innerTag.error);
        }
        if innerTag.value.0 % 8 == 4 {
          return Success(innerTag.value.1);
        }
        var next := SkipMessageServices(data[start..]);
        if next.Failure? {
          return next;
        }
        iNdEx := start + next.value;
      }
    } else if wireType == 4 {
      return Success(iNdEx);
    } else if wireType == 5 {
      return Success(iNdEx + 4);
    } else {
      return Failure(ErrIllegalWireType(wireType));
    }
  }

  /** A varint field (wire type 0) is skipped as its key and its value. */
  lemma SkipVarintField(key: uint64, v: uint64, rest: seq<byte>)
    requires key % 8 == 0
    ensures Skip(VarintBytes(key) + VarintBytes(v) + rest) == Success(|VarintBytes(key)| + |VarintBytes(v)|)
  {
    var data := VarintBytes(key) + VarintBytes(v) + rest;
    assert data[0..|VarintBytes(key)|] == VarintBytes(key);
    VarintRoundTrip(data, 0, key);
    var i := |VarintBytes(key)|;
    assert data[i..i + |VarintBytes(v)|] == VarintBytes(v);
    VarintRoundTrip(data, i, v);
  }

  /** A 64-bit field (wire type 1) is skipped as its key and 8 bytes. */
  lemma SkipFixed64Field(key: uint64, rest: seq<byte>)
    requires key % 8 == 1
    ensures Skip(VarintBytes(key) + rest) == Success(|VarintBytes(key)| + 8)
  {
    var data := VarintBytes(key) + rest;
    assert data[0..|VarintBytes(key)|] == VarintBytes(key);
    VarintRoundTrip(data, 0, key);
  }

  /**
   * A length-delimited field (wire type 2) is skipped as its key, its length
   * and that many bytes; whether the bytes are there is the caller's check.
   */
  lemma SkipLengthDelimitedField(key: uint64, length: uint64, rest: seq<byte>)
    requires key % 8 == 2
    requires length < TWO_TO_63
    ensures Skip(VarintBytes(key) + VarintBytes(length) + rest) ==
      Success(|VarintBytes(key)| + |VarintBytes(length)| + length)
  {
    var data := VarintBytes(key) + VarintBytes(length) + rest;
    assert data[0..|VarintBytes(key)|] == VarintBytes(key);
    VarintRoundTrip(data, 0, key);
    var i := |VarintBytes(key)|;
    assert data[i..i + |VarintBytes(length)|] == VarintBytes(length);
    VarintRoundTrip(data, i, length);
  }

  /** A 32-bit field (wire type 5) is skipped as its key and 4 bytes. */
  lemma SkipFixed32Field(key: uint64, rest: seq<byte>)
    requires key % 8 == 5
    ensures Skip(VarintBytes(key) + rest) == Success(|VarintBytes(key)| + 4)
  {
    var data := VarintBytes(key) + rest;
    assert data[0..|VarintBytes(key)|] == VarintBytes(key);
    VarintRoundTrip(data, 0, key);
  }

  /** Wire types 6 and 7 do not exist: skipping them is an error. */
  lemma SkipRejectsIllegalWireType(key: uint64, rest: seq<byte>)
    requires key % 8 >= 6
    ensures Skip(VarintBytes(key) + rest) == Failure(ErrIllegalWireType(key % 8))
  {
    var data := VarintBytes(key) + rest;
    assert data[0..|VarintBytes(key)|] == VarintBytes(key);
    VarintRoundTrip(data, 0, key);
  }
}
