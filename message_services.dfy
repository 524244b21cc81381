/**
 * The generated codec of ProcessUplinkMessageRequest and
 * ProcessDownlinkMessageRequest (pkg/ttnpb/message_services.pb.go). Both
 * messages have the same three fields and the same generated code:
 *
 *   1 end_device_version_ids  embedded message, always written
 *   2 message                 embedded message, always written
 *   3 parameter               string, written only when non-empty
 *
 * The embedded messages are carried as their encoded bytes. Decoding an
 * embedded field into a message that already holds one merges the two,
 * which for encoded protobuf messages is the concatenation of their bytes.
 */
module MessageServices {
  import opened Wrappers
  import opened ProtoWire

  /** Either request type; the two differ only in the type of `message`. */
  datatype ProcessMessageRequest = ProcessMessageRequest(
    endDeviceVersionIds: seq<byte>,
    message: seq<byte>,
    parameter: seq<byte>)

  const EMPTY_REQUEST := ProcessMessageRequest([], [], [])

  /** Keys: field number << 3 | wire type 2. */
  const KEY_END_DEVICE_VERSION_IDS: byte := 0x0a
  const KEY_MESSAGE: byte := 0x12
  const KEY_PARAMETER: byte := 0x1a

  /** Every length fits the `int` Go gives it. */
  predicate WithinGoLimits(m: ProcessMessageRequest)
  {
    |m.endDeviceVersionIds| < TWO_TO_63 && |m.message| < TWO_TO_63 && |m.parameter| < TWO_TO_63
  }

  /** A length-delimited field: its key, the varint length and the payload. */
  function LengthDelimited(key: byte, payload: seq<byte>): seq<byte>
  {
    [key] + VarintBytes(|payload|) + payload
  }

  /** The bytes MarshalTo writes. */
  function Encoding(m: ProcessMessageRequest): seq<byte>
  {
    LengthDelimited(KEY_END_DEVICE_VERSION_IDS, m.endDeviceVersionIds)
      + LengthDelimited(KEY_MESSAGE, m.message)
      + (if |m.parameter| > 0 then LengthDelimited(KEY_PARAMETER, m.parameter) else [])
  }

  // ---------------------------------------------------------------------------
  // Size, MarshalTo, Marshal
  // ---------------------------------------------------------------------------

  /** Size: `1 + l + sov(l)` per field written. */
  method Size(m: ProcessMessageRequest) returns (n: nat)
    requires WithinGoLimits(m)
    ensures n == |Encoding(m)|
  {
    n := 0;
    var l := |m.endDeviceVersionIds|;
    var s := Sov(l);
    n := n + 1 + l + s;
    l := |m.message|;
    s := Sov(l);
    n := n + 1 + l + s;
    l := |m.parameter|;
    if l > 0 {
      s := Sov(l);
      n := n + 1 + l + s;
    }
  }

  method PutByte(dAtA: array<byte>, offset: nat, b: byte) returns (next: nat)
    requires offset < dAtA.Length
    modifies dAtA
    ensures next == offset + 1
    ensures dAtA[..next] == old(dAtA[..offset]) + [b]
    ensures dAtA[next..] == old(dAtA[next..])
  {
    dAtA[offset] := b;
    next := offset + 1;
  }

  /** `copy(dAtA[offset:], src)`, also standing for the embedded messages' MarshalTo. */
  method CopyInto(dAtA: array<byte>, offset: nat, src: seq<byte>) returns (next: nat)
    requires offset + |src| <= dAtA.Length
    modifies dAtA
    ensures next == offset + |src|
    ensures dAtA[..next] == old(dAtA[..offset]) + src
    ensures dAtA[next..] == old(dAtA[next..])
  {
    forall k | offset <= k < offset + |src| {
      dAtA[k] := src[k - offset];
    }
    next := offset + |src|;
  }

  /** One length-delimited field: the key, the varint length, then the payload. */
  method WriteField(dAtA: array<byte>, offset: nat, key: byte, payload: seq<byte>) returns (next: nat)
    requires |payload| < TWO_TO_63
    requires offset + |LengthDelimited(key, payload)| <= dAtA.Length
    modifies dAtA
    ensures next == offset + |LengthDelimited(key, payload)|
    ensures dAtA[..next] == old(dAtA[..offset]) + LengthDelimited(key, payload)
    ensures dAtA[next..] == old(dAtA[next..])
  {
    next := PutByte(dAtA, offset, key);
    next := EncodeVarint(dAtA, next, |payload|);
    next := CopyInto(dAtA, next, payload);
  }

  /** MarshalTo: writes the encoding at the start of `dAtA`, which Size() made large enough. */
  method MarshalTo(m: ProcessMessageRequest, dAtA: array<byte>) returns (n: nat)
    requires WithinGoLimits(m)
    requires |Encoding(m)| <= dAtA.Length
    modifies dAtA
    ensures n == |Encoding(m)|
    ensures dAtA[..n] == Encoding(m)
    ensures dAtA[n..] == old(dAtA[n..])
  {
    ghost var f1 := LengthDelimited(KEY_END_DEVICE_VERSION_IDS, m.endDeviceVersionIds);
    ghost var f2 := LengthDelimited(KEY_MESSAGE, m.message);
    ghost var f3 := if |m.parameter| > 0 then LengthDelimited(KEY_PARAMETER, m.parameter) else [];
    assert Encoding(m) == f1 + f2 + f3;
    var i := WriteField(dAtA, 0, KEY_END_DEVICE_VERSION_IDS, m.endDeviceVersionIds);
    assert dAtA[..i] == f1;
    i := WriteField(dAtA, i, KEY_MESSAGE, m.message);
    assert dAtA[..i] == f1 + f2;
    if |m.parameter| > 0 {
      i := WriteField(dAtA, i, KEY_PARAMETER, m.parameter);
    }
    n := i;
  }

  /** Marshal: a buffer of Size() bytes filled by MarshalTo. */
  method Marshal(m: ProcessMessageRequest) returns (dAtA: seq<byte>)
    requires WithinGoLimits(m)
    ensures dAtA == Encoding(m)
  {
    var size := Size(m);
    var buf := new byte[size];
    var n := MarshalTo(m, buf);
    dAtA := buf[..n];
  }

  // ---------------------------------------------------------------------------
  // Unmarshal
  // ---------------------------------------------------------------------------

  /** Decoding field `fieldNum` (1 to 3) with `payload`: embedded messages merge, the string is replaced. */
  function MergeField(m: ProcessMessageRequest, fieldNum: int, payload: seq<byte>): ProcessMessageRequest
    requires 1 <= fieldNum <= 3
  {
    if fieldNum == 1 then m.(endDeviceVersionIds := m.endDeviceVersionIds + payload)
    else if fieldNum == 2 then m.(message := m.message + payload)
    else m.(parameter := payload)
  }

  /** The outcome of one pass of the Unmarshal loop: stop with an error, or go on from `pos`. */
  datatype Step =
    | Stop(err: Error)
    | Continue(pos: nat, receiver: ProcessMessageRequest)

  /**
   * One pass of the Unmarshal loop at position `i` on a receiver holding `m`:
   * read the key, then either merge a known field or skip an unknown one.
   */
  function DecodeStep(data: seq<byte>, i: nat, m: ProcessMessageRequest): (s: Step)
    requires i < |data|
    ensures s.Continue? ==> i < s.pos <= |data|
    ensures s.Continue? ==> m.endDeviceVersionIds <= s.receiver.endDeviceVersionIds
    ensures s.Continue? ==> m.message <= s.receiver.message
  {
    match ReadVarint(data, i)
    case Failure(e) => Stop(e)
    case Success((wire, j)) =>
      var fieldNum := Int32(wire / 8);
      var wireType := wire % 8;
      if wireType == 4 then Stop(ErrEndGroup)
      else if fieldNum <= 0 then Stop(ErrIllegalTag(fieldNum, wire))
      else if fieldNum <= 3 then
        if wireType != 2 then Stop(ErrWrongWireType(fieldNum, wireType))
        else match ReadVarint(data, j)
          case Failure(e) => Stop(e)
          case Success((len, k)) =>
            var length := Int64(len);
            if length < 0 then Stop(ErrInvalidLength)
            else if k + length > |data| then Stop(ErrUnexpectedEOF)
            else Continue(k + length, MergeField(m, fieldNum, data[k..k + length]))
      else match Skip(data[i..])
        case Failure(e) => Stop(e)
        case Success(skippy) =>
          if i + skippy > |data| then Stop(ErrUnexpectedEOF)
          else Continue(i + skippy, m)
  }

  /**
   * The Unmarshal loop from position `i` on a receiver holding `m`: the
   * receiver at the end, with the error that stopped the loop, if any. Fields
   * decoded before an error stay in the receiver; embedded messages only grow.
   */
  function DecodeFrom(data: seq<byte>, i: nat, m: ProcessMessageRequest): (r: (ProcessMessageRequest, Option<Error>))
    requires i <= |data|
    ensures m.endDeviceVersionIds <= r.0.endDeviceVersionIds
    ensures m.message <= r.0.message
    decreases |data| - i
  {
    if i == |data| then (m, None)
    else match DecodeStep(data, i, m)
      case Stop(e) => (m, Some(e))
      case Continue(j, m') => DecodeFrom(data, j, m')
  }

  /**
   * Unmarshal on a receiver holding `m`: the receiver afterwards and the
   * error returned (None for nil).
   */
  method Unmarshal(m: ProcessMessageRequest, dAtA: seq<byte>) returns (m': ProcessMessageRequest, err: Option<Error>)
    ensures (m', err) == DecodeFrom(dAtA, 0, m)
  {
    var l := |dAtA|;
    var iNdEx := 0;
    m' := m;
    while iNdEx < l
      invariant iNdEx <= l
      invariant DecodeFrom(dAtA, iNdEx, m') == DecodeFrom(dAtA, 0, m)
      decreases l - iNdEx
    {
      ghost var step := DecodeStep(dAtA, iNdEx, m');
      var preIndex := iNdEx;
      var tag := ReadVarintAt(dAtA, iNdEx);
      if tag.Failure? {
        return m', Some(tag.error);
      }
      var wire := tag.value.0;
      iNdEx := tag.value.1;
      var fieldNum := Int32(wire / 8);
      var wireType := wire % 8;
      if wireType == 4 {
        return m', Some(ErrEndGroup);
      }
      if fieldNum <= 0 {
        return m', Some(ErrIllegalTag(fieldNum, wire));
      }
      if fieldNum <= 3 {
        if wireType != 2 {
          return m', Some(ErrWrongWireType(fieldNum, wireType));
        }
        var len := ReadVarintAt(dAtA, iNdEx);
        if len.Failure? {
          return m', Some(len.error);
        }
        var msglen := Int64(len.value.0);
        iNdEx := len.value.1;
        if msglen < 0 {
          return m', Some(ErrInvalidLength);
        }
        var postIndex := iNdEx + msglen;
        if postIndex > l {
          return m', Some(ErrUnexpectedEOF);
        }
        m' := MergeField(m', fieldNum, dAtA[iNdEx..postIndex]);
        iNdEx := postIndex;
      } else {
        iNdEx := preIndex;
        var skippy := SkipMessageServices(dAtA[iNdEx..]);
        if skippy.Failure? {
          return m', Some(skippy.error);
        }
        if iNdEx + skippy.value > l {
          return m', Some(ErrUnexpectedEOF);
        }
        iNdEx := iNdEx + skippy.value;
      }
      assert step == Continue(iNdEx, m');
    }
    return m', None;
  }

  // ---------------------------------------------------------------------------
  // Properties
  // ---------------------------------------------------------------------------

  /** The key and the length of a well-formed field 1, 2 or 3 read back, and where its payload lies. */
  lemma FieldHeader(data: seq<byte>, i: nat, fieldNum: int, payload: seq<byte>)
    requires 1 <= fieldNum <= 3
    requires |payload| < TWO_TO_63
    requires i + |LengthDelimited(fieldNum * 8 + 2, payload)| <= |data|
    requires data[i..i + |LengthDelimited(fieldNum * 8 + 2, payload)|] == LengthDelimited(fieldNum * 8 + 2, payload)
    ensures ReadVarint(data, i) == Success((fieldNum * 8 + 2, i + 1))
    ensures ReadVarint(data, i + 1) == Success((|payload|, i + 1 + |VarintBytes(|payload|)|))
    ensures data[i + 1 + |VarintBytes(|payload|)|..i + |LengthDelimited(fieldNum * 8 + 2, payload)|] == payload
  {
    var key := fieldNum * 8 + 2;
    var field := LengthDelimited(key, payload);
    var lenBytes := VarintBytes(|payload|);
    SubSlice(data, i, field, 0, 1);
    assert field[0..1] == VarintBytes(key);
    VarintRoundTrip(data, i, key);
    SubSlice(data, i, field, 1, 1 + |lenBytes|);
    assert field[1..1 + |lenBytes|] == lenBytes;
    VarintRoundTrip(data, i + 1, |payload|);
    SubSlice(data, i, field, 1 + |lenBytes|, |field|);
    assert field[1 + |lenBytes|..|field|] == payload;
  }

  /** Decoding one well-formed field 1, 2 or 3 merges it and moves past it. */
  lemma DecodeField(data: seq<byte>, i: nat, m: ProcessMessageRequest, fieldNum: int, payload: seq<byte>)
    requires 1 <= fieldNum <= 3
    requires |payload| < TWO_TO_63
    requires i + |LengthDelimited(fieldNum * 8 + 2, payload)| <= |data|
    requires data[i..i + |LengthDelimited(fieldNum * 8 + 2, payload)|] == LengthDelimited(fieldNum * 8 + 2, payload)
    ensures DecodeStep(data, i, m) ==
      Continue(i + |LengthDelimited(fieldNum * 8 + 2, payload)|, MergeField(m, fieldNum, payload))
  {
    FieldHeader(data, i, fieldNum, payload);
    assert (fieldNum * 8 + 2) / 8 == fieldNum && (fieldNum * 8 + 2) % 8 == 2;
  }

  /** The receiver after decoding `b` into `a`: embedded messages merged, the parameter replaced when sent. */
  function Merged(a: ProcessMessageRequest, b: ProcessMessageRequest): ProcessMessageRequest
  {
    ProcessMessageRequest(
      a.endDeviceVersionIds + b.endDeviceVersionIds,
      a.message + b.message,
      if |b.parameter| > 0 then b.parameter else a.parameter)
  }

  /** A known field as it appears on the wire: its number (1 to 3) and its payload. */
  datatype Field = Field(fieldNum: int, payload: seq<byte>)

  type KnownField = f: Field | 1 <= f.fieldNum <= 3 && |f.payload| < TWO_TO_63
    witness Field(1, [])

  function FieldsEncoding(fields: seq<KnownField>): seq<byte>
  {
    if |fields| == 0 then []
    else LengthDelimited(fields[0].fieldNum * 8 + 2, fields[0].payload) + FieldsEncoding(fields[1..])
  }

  /** The receiver after merging `fields` in order. */
  function MergeAll(m: ProcessMessageRequest, fields: seq<KnownField>): ProcessMessageRequest
    decreases |fields|
  {
    if |fields| == 0 then m
    else MergeAll(MergeField(m, fields[0].fieldNum, fields[0].payload), fields[1..])
  }

  /** One pass of the loop that goes on: the rest of the loop starts from where it left off. */
  lemma DecodeFromContinues(data: seq<byte>, i: nat, m: ProcessMessageRequest, j: nat, m': ProcessMessageRequest)
    requires i < |data|
    requires DecodeStep(data, i, m) == Continue(j, m')
    ensures j <= |data| && DecodeFrom(data, i, m) == DecodeFrom(data, j, m')
  {
  }

  /** The first field of a run lies at `i`, the rest after it. */
  lemma FieldsEncodingSplit(data: seq<byte>, i: nat, fields: seq<KnownField>)
    requires |fields| > 0
    requires i <= |data| && data[i..] == FieldsEncoding(fields)
    ensures var field := LengthDelimited(fields[0].fieldNum * 8 + 2, fields[0].payload);
      i + |field| <= |data| && data[i..i + |field|] == field && data[i + |field|..] == FieldsEncoding(fields[1..])
  {
    var field := LengthDelimited(fields[0].fieldNum * 8 + 2, fields[0].payload);
    assert data[i..] == field + FieldsEncoding(fields[1..]);
    assert data[i..i + |field|] == data[i..][..|field|];
    assert data[i + |field|..] == data[i..][|field|..];
  }

  /**
   * Decoding a run of well-formed known fields up to the end of the input
   * merges them into the receiver in order and returns no error.
   */
  lemma {:induction false} DecodeFields(data: seq<byte>, i: nat, m: ProcessMessageRequest, fields: seq<KnownField>)
    requires i <= |data| && data[i..] == FieldsEncoding(fields)
    ensures DecodeFrom(data, i, m) == (MergeAll(m, fields), None)
    decreases |fields|
  {
    if |fields| > 0 {
      var f := fields[0];
      var next := i + |LengthDelimited(f.fieldNum * 8 + 2, f.payload)|;
      var m' := MergeField(m, f.fieldNum, f.payload);
      FieldsEncodingSplit(data, i, fields);
      DecodeField(data, i, m, f.fieldNum, f.payload);
      DecodeFromContinues(data, i, m, next, m');
      DecodeFields(data, next, m', fields[1..]);
    }
  }

  /** The fields MarshalTo writes for a request. */
  function FieldsOf(m: ProcessMessageRequest): (fields: seq<KnownField>)
    requires WithinGoLimits(m)
  {
    [Field(1, m.endDeviceVersionIds), Field(2, m.message)]
      + (if |m.parameter| > 0 then [Field(3, m.parameter)] else [])
  }

  lemma {:induction false} FieldsEncodingAppend(xs: seq<KnownField>, ys: seq<KnownField>)
    ensures FieldsEncoding(xs + ys) == FieldsEncoding(xs) + FieldsEncoding(ys)
    decreases |xs|
  {
    if |xs| == 0 {
      assert xs + ys == ys;
    } else {
      assert (xs + ys)[0] == xs[0];
      assert (xs + ys)[1..] == xs[1..] + ys;
      FieldsEncodingAppend(xs[1..], ys);
    }
  }

  lemma {:induction false} MergeAllAppend(m: ProcessMessageRequest, xs: seq<KnownField>, ys: seq<KnownField>)
    ensures MergeAll(m, xs + ys) == MergeAll(MergeAll(m, xs), ys)
    decreases |xs|
  {
    if |xs| == 0 {
      assert xs + ys == ys;
    } else {
      assert (xs + ys)[0] == xs[0];
      assert (xs + ys)[1..] == xs[1..] + ys;
      MergeAllAppend(MergeField(m, xs[0].fieldNum, xs[0].payload), xs[1..], ys);
    }
  }

  /** Encoding is the encoding of the request's fields, and merging them is merging the request. */
  lemma EncodingIsFields(a: ProcessMessageRequest, b: ProcessMessageRequest)
    requires WithinGoLimits(b)
    ensures FieldsEncoding(FieldsOf(b)) == Encoding(b)
    ensures MergeAll(a, FieldsOf(b)) == Merged(a, b)
  {
    var fs := FieldsOf(b);
    var a1 := MergeField(a, 1, b.endDeviceVersionIds);
    var a2 := MergeField(a1, 2, b.message);
    var f1 := LengthDelimited(KEY_END_DEVICE_VERSION_IDS, b.endDeviceVersionIds);
    var f2 := LengthDelimited(KEY_MESSAGE, b.message);
    var tail := fs[2..];
    assert fs[1..] == [fs[1]] + tail;
    assert MergeAll(a, fs) == MergeAll(a1, fs[1..]);
    assert MergeAll(a1, fs[1..]) == MergeAll(a2, tail);
    assert FieldsEncoding(fs) == f1 + FieldsEncoding(fs[1..]);
    assert FieldsEncoding(fs[1..]) == f2 + FieldsEncoding(tail);
    if |b.parameter| > 0 {
      assert tail == [Field(3, b.parameter)];
      assert tail[1..] == [];
      assert MergeAll(a2, tail) == MergeField(a2, 3, b.parameter);
      assert FieldsEncoding(tail) == LengthDelimited(KEY_PARAMETER, b.parameter);
    } else {
      assert tail == [];
    }
  }

  /** Round trip: Unmarshal of Marshal's output into an empty request gives the request back, without error. */
  lemma UnmarshalMarshalRoundTrip(m: ProcessMessageRequest)
    requires WithinGoLimits(m)
    ensures DecodeFrom(Encoding(m), 0, EMPTY_REQUEST) == (m, None)
  {
    var data := Encoding(m);
    EncodingIsFields(EMPTY_REQUEST, m);
    DecodeFields(data, 0, EMPTY_REQUEST, FieldsOf(m));
    assert Merged(EMPTY_REQUEST, m) == m;
  }

  /**
   * Two encodings back to back decode as their merge: embedded messages are
   * concatenated, and the later non-empty parameter wins.
   */
  lemma ConcatenatedEncodingsMerge(a: ProcessMessageRequest, b: ProcessMessageRequest)
    requires WithinGoLimits(a) && WithinGoLimits(b)
    ensures DecodeFrom(Encoding(a) + Encoding(b), 0, EMPTY_REQUEST) == (Merged(a, b), None)
  {
    var data := Encoding(a) + Encoding(b);
    var fa, fb := FieldsOf(a), FieldsOf(b);
    EncodingIsFields(EMPTY_REQUEST, a);
    EncodingIsFields(Merged(EMPTY_REQUEST, a), b);
    FieldsEncodingAppend(fa, fb);
    MergeAllAppend(EMPTY_REQUEST, fa, fb);
    DecodeFields(data, 0, EMPTY_REQUEST, fa + fb);
    assert Merged(EMPTY_REQUEST, a) == a;
  }

  /** A length-delimited field with an unknown number is stepped over and leaves the receiver alone. */
  lemma UnknownFieldIsSkipped(pre: seq<byte>, key: uint64, payload: seq<byte>, rest: seq<byte>, m: ProcessMessageRequest)
    requires key % 8 == 2 && Int32(key / 8) > 3
    requires |payload| < TWO_TO_63
    ensures var field := VarintBytes(key) + VarintBytes(|payload|) + payload;
      DecodeStep(pre + field + rest, |pre|, m) == Continue(|pre| + |field|, m)
  {
    var field := VarintBytes(key) + VarintBytes(|payload|) + payload;
    var data := pre + field + rest;
    assert data[|pre|..|pre| + |VarintBytes(key)|] == VarintBytes(key);
    VarintRoundTrip(data, |pre|, key);
    assert data[|pre|..] == VarintBytes(key) + VarintBytes(|payload|) + (payload + rest);
    SkipLengthDelimitedField(key, |payload|, payload + rest);
  }

  /**
   * The length checks on a known field, for any declared length: a length
   * that is negative as a Go `int` is invalid, one that runs past the end of
   * the input is truncated, and any other is accepted.
   */
  lemma KnownFieldLengthChecks(key: byte, len: uint64, rest: seq<byte>, m: ProcessMessageRequest)
    requires key == KEY_END_DEVICE_VERSION_IDS || key == KEY_MESSAGE || key == KEY_PARAMETER
    ensures var s := DecodeStep([key] + VarintBytes(len) + rest, 0, m);
      (len >= TWO_TO_63 ==> s == Stop(ErrInvalidLength))
      && (len < TWO_TO_63 && |rest| < len ==> s == Stop(ErrUnexpectedEOF))
      && (s.Stop? <==> len >= TWO_TO_63 || |rest| < len)
  {
    var data := [key] + VarintBytes(len) + rest;
    assert VarintBytes(key) == [key];
    assert data[0..1] == VarintBytes(key);
    VarintRoundTrip(data, 0, key);
    assert data[1..1 + |VarintBytes(len)|] == VarintBytes(len);
    VarintRoundTrip(data, 1, len);
  }

  /**
   * The same checks on a length-delimited field with an unknown number: the
   * skipped length is invalid when negative as a Go `int`, truncated when it
   * runs past the end of the input, and accepted otherwise.
   */
  lemma UnknownFieldLengthChecks(key: uint64, len: uint64, rest: seq<byte>, m: ProcessMessageRequest)
    requires key % 8 == 2 && Int32(key / 8) > 3
    ensures var s := DecodeStep(VarintBytes(key) + VarintBytes(len) + rest, 0, m);
      (len >= TWO_TO_63 ==> s == Stop(ErrInvalidLength))
      && (len < TWO_TO_63 && |rest| < len ==> s == Stop(ErrUnexpectedEOF))
      && (s.Stop? <==> len >= TWO_TO_63 || |rest| < len)
  {
    var data := VarintBytes(key) + VarintBytes(len) + rest;
    assert data[0..|VarintBytes(key)|] == VarintBytes(key);
    VarintRoundTrip(data, 0, key);
    var k := |VarintBytes(key)|;
    assert data[k..k + |VarintBytes(len)|] == VarintBytes(len);
    VarintRoundTrip(data, k, len);
  }

  /**
   * The checks on a key, in Go's order: an end-group wire type, then a field
   * number that is not positive, then a known field without wire type 2.
   */
  lemma KeyChecks(key: uint64, rest: seq<byte>, m: ProcessMessageRequest)
    ensures var s := DecodeStep(VarintBytes(key) + rest, 0, m);
      (key % 8 == 4 ==> s == Stop(ErrEndGroup))
      && (key % 8 != 4 && Int32(key / 8) <= 0 ==> s == Stop(ErrIllegalTag(Int32(key / 8), key)))
      && (key % 8 != 4 && 1 <= Int32(key / 8) <= 3 && key % 8 != 2 ==>
            s == Stop(ErrWrongWireType(Int32(key / 8), key % 8)))
  {
    var data := VarintBytes(key) + rest;
    assert data[0..|VarintBytes(key)|] == VarintBytes(key);
    VarintRoundTrip(data, 0, key);
  }

  // ---------------------------------------------------------------------------
  // Findings: Go `int` addition in the bounds checks
  // ---------------------------------------------------------------------------

  /** Go's `a + b` on 64-bit `int`: wraps into the two's-complement range. */
  function AddInt(a: int, b: int): (r: int)
    ensures -0x8000_0000_0000_0000 <= r < TWO_TO_63
    ensures (r - (a + b)) % TWO_TO_64 == 0
  {
    var s := (a + b) % TWO_TO_64;
    if s < TWO_TO_63 then s else s - TWO_TO_64
  }

  /** The two sums below: each lands just past the largest `int` and wraps to a negative number. */
  lemma GoIntWrapAround()
    ensures AddInt(10, TWO_TO_63 - 1) == 9 - TWO_TO_63
    ensures AddInt(2, TWO_TO_63 - 1) == 1 - TWO_TO_63
  {
    assert (10 + (TWO_TO_63 - 1)) % TWO_TO_64 == TWO_TO_63 + 9;
    assert (2 + (TWO_TO_63 - 1)) % TWO_TO_64 == TWO_TO_63 + 1;
  }

  /**
   * The check before an embedded field is sliced, as written:
   * `msglen < 0` rejects, then `postIndex := iNdEx + msglen; postIndex > l`
   * rejects; true when the code goes on to `dAtA[iNdEx:postIndex]`.
   */
  predicate FieldLengthCheckPassesAsWritten(iNdEx: int, msglen: int, l: int)
  {
    msglen >= 0 && AddInt(iNdEx, msglen) <= l
  }

  /** The check before an unknown field is stepped over, as written: `skippy < 0`, then `iNdEx + skippy > l`. */
  predicate SkipCheckPassesAsWritten(iNdEx: int, skippy: int, l: int)
  {
    skippy >= 0 && AddInt(iNdEx, skippy) <= l
  }

  /** Field 1 announcing the largest length a Go `int` holds, 2^63 - 1: bytes 0a ff ff ff ff ff ff ff ff 7f. */
  function OverlongFieldInput(): seq<byte>
  {
    [KEY_END_DEVICE_VERSION_IDS] + VarintBytes(TWO_TO_63 - 1)
  }

  /** An empty parameter, then an unknown field 4 announcing 2^63 - 11 bytes. */
  function OverlongSkipInput(): seq<byte>
  {
    [KEY_PARAMETER, 0, 0x22] + VarintBytes(TWO_TO_63 - 11)
  }

  lemma NineByteVarints()
    ensures |VarintBytes(TWO_TO_63 - 1)| == 9
    ensures |VarintBytes(TWO_TO_63 - 11)| == 9
  {
    Pow2Constants();
    Pow2Of56();
    VarintLengthFromBounds(TWO_TO_63 - 1, 9);
    VarintLengthFromBounds(TWO_TO_63 - 11, 9);
  }

  /**
   * As written, the ten-byte input passes the length check: `postIndex`
   * wraps to a negative number, and slicing `dAtA[10:postIndex]` panics.
   */
  lemma OverlongFieldPassesCheckAsWritten()
    ensures |OverlongFieldInput()| == 10
    ensures ReadVarint(OverlongFieldInput(), 0) == Success((KEY_END_DEVICE_VERSION_IDS as uint64, 1))
    ensures ReadVarint(OverlongFieldInput(), 1) == Success((TWO_TO_63 - 1, 10))
    ensures FieldLengthCheckPassesAsWritten(10, Int64(TWO_TO_63 - 1), 10)
    ensures AddInt(10, Int64(TWO_TO_63 - 1)) < 10
  {
    var data := OverlongFieldInput();
    GoIntWrapAround();
    NineByteVarints();
    assert data[0..1] == VarintBytes(KEY_END_DEVICE_VERSION_IDS);
    VarintRoundTrip(data, 0, KEY_END_DEVICE_VERSION_IDS);
    assert data[1..10] == VarintBytes(TWO_TO_63 - 1);
    VarintRoundTrip(data, 1, TWO_TO_63 - 1);
  }

  /** With the bounds computed exactly, the same input is rejected as truncated. */
  lemma OverlongFieldIsRejected(m: ProcessMessageRequest)
    ensures DecodeFrom(OverlongFieldInput(), 0, m) == (m, Some(ErrUnexpectedEOF))
  {
    OverlongFieldPassesCheckAsWritten();
  }

  /**
   * As written, the twelve-byte input passes the skip check: skipping
   * field 4 returns 2^63 - 1, `iNdEx + skippy` wraps to a negative index,
   * and the next read of `dAtA[iNdEx]` panics.
   */
  lemma OverlongSkipPassesCheckAsWritten()
    ensures |OverlongSkipInput()| == 12
    ensures Skip(OverlongSkipInput()[2..]) == Success(TWO_TO_63 - 1)
    ensures SkipCheckPassesAsWritten(2, TWO_TO_63 - 1, 12)
    ensures AddInt(2, TWO_TO_63 - 1) < 0
  {
    var data := OverlongSkipInput();
    GoIntWrapAround();
    NineByteVarints();
    assert VarintBytes(0x22) == [0x22];
    assert data[2..] == VarintBytes(0x22) + VarintBytes(TWO_TO_63 - 11) + [];
    SkipLengthDelimitedField(0x22, TWO_TO_63 - 11, []);
  }

  /** With the bounds computed exactly, the same input is rejected as truncated after the parameter. */
  lemma OverlongSkipIsRejected(m: ProcessMessageRequest)
    ensures DecodeFrom(OverlongSkipInput(), 0, m) == (m.(parameter := []), Some(ErrUnexpectedEOF))
  {
    var data := OverlongSkipInput();
    OverlongSkipPassesCheckAsWritten();
    assert data[0..2] == LengthDelimited(KEY_PARAMETER, []);
    DecodeField(data, 0, m, 3, []);
    assert data[2..3] == VarintBytes(0x22);
    VarintRoundTrip(data, 2, 0x22);
  }

  /** An unknown field 4 sent as a group, whose first inner field claims 2^63 - 11 bytes. */
  function OverlongGroupInput(): seq<byte>
  {
    [0x23, 0x22] + VarintBytes(TWO_TO_63 - 11)
  }

  /**
   * As written, the group loop of the skip steps past its first inner field:
   * the inner skip from `start` = 1 returns 2^63 - 1, `start + next` wraps
   * to a negative index, and the next read of `dAtA[iNdEx]` panics.
   */
  lemma OverlongGroupPassesAsWritten()
    ensures |OverlongGroupInput()| == 11
    ensures ReadVarint(OverlongGroupInput(), 0) == Success((0x23, 1))
    ensures ReadVarint(OverlongGroupInput(), 1) == Success((0x22, 2))
    ensures Skip(OverlongGroupInput()[1..]) == Success(TWO_TO_63 - 1)
    ensures AddInt(1, TWO_TO_63 - 1) < 0
  {
    var data := OverlongGroupInput();
    NineByteVarints();
    assert (1 + (TWO_TO_63 - 1)) % TWO_TO_64 == TWO_TO_63;
    assert VarintBytes(0x22) == [0x22];
    assert data[1..] == VarintBytes(0x22) + VarintBytes(TWO_TO_63 - 11) + [];
    SkipLengthDelimitedField(0x22, TWO_TO_63 - 11, []);
  }

  /**
   * With the bounds computed exactly, the group's skip runs off the end of
   * the input and the field is rejected as truncated.
   */
  lemma OverlongGroupIsRejected(m: ProcessMessageRequest)
    ensures Skip(OverlongGroupInput()) == Failure(ErrUnexpectedEOF)
    ensures DecodeFrom(OverlongGroupInput(), 0, m) == (m, Some(ErrUnexpectedEOF))
  {
    OverlongGroupPassesAsWritten();
  }

  /** An unknown field 4 sent as a group, whose first inner field claims 2^63 - 1 bytes. */
  function OverlongInnerLengthInput(): seq<byte>
  {
    [0x23, 0x22] + VarintBytes(TWO_TO_63 - 1)
  }

  /**
   * As written, the inner skip of the group loop goes wrong: the length
   * 2^63 - 1 passes `length < 0`, `iNdEx += length` wraps to a negative
   * `next` returned without error, the loop has no sign check on `next`, and
   * `start + next` stays negative, so the next read of `dAtA[iNdEx]` panics.
   */
  lemma OverlongInnerLengthPassesAsWritten()
    ensures |OverlongInnerLengthInput()| == 11
    ensures ReadVarint(OverlongInnerLengthInput()[1..], 0) == Success((0x22, 1))
    ensures ReadVarint(OverlongInnerLengthInput()[1..], 1) == Success((TWO_TO_63 - 1, 10))
    ensures Int64(TWO_TO_63 - 1) >= 0
    ensures AddInt(10, TWO_TO_63 - 1) < 0
    ensures AddInt(1, AddInt(10, TWO_TO_63 - 1)) < 0
  {
    var inner := OverlongInnerLengthInput()[1..];
    NineByteVarints();
    GoIntWrapAround();
    assert (1 + (9 - TWO_TO_63)) % TWO_TO_64 == TWO_TO_63 + 10;
    var lenBytes := VarintBytes(TWO_TO_63 - 1);
    assert inner == [0x22] + lenBytes;
    assert inner[0..1] == VarintBytes(0x22);
    VarintRoundTrip(inner, 0, 0x22);
    assert inner[1..1 + |lenBytes|] == lenBytes;
    VarintRoundTrip(inner, 1, TWO_TO_63 - 1);
  }

  /** With the bounds computed exactly, the inner skip reaches past the end of the input. */
  lemma OverlongInnerSkip()
    ensures Skip(OverlongInnerLengthInput()[1..]) == Success(TWO_TO_63 + 9)
  {
    var data := OverlongInnerLengthInput();
    NineByteVarints();
    assert VarintBytes(0x22) == [0x22];
    assert data[1..] == VarintBytes(0x22) + VarintBytes(TWO_TO_63 - 1) + [];
    SkipLengthDelimitedField(0x22, TWO_TO_63 - 1, []);
  }

  /** The group loop then reads its next key beyond the input and fails. */
  lemma OverlongInnerGroupFails()
    ensures SkipGroup(OverlongInnerLengthInput(), 1) == Failure(ErrUnexpectedEOF)
  {
    var data := OverlongInnerLengthInput();
    OverlongInnerSkip();
    NineByteVarints();
    assert data[1..2] == VarintBytes(0x22);
    VarintRoundTrip(data, 1, 0x22);
    assert ReadVarint(data, TWO_TO_63 + 10) == Failure(ErrUnexpectedEOF);
  }

  /** So the skip of the whole group fails as truncated. */
  lemma OverlongInnerLengthSkipFails()
    ensures Skip(OverlongInnerLengthInput()) == Failure(ErrUnexpectedEOF)
  {
    var data := OverlongInnerLengthInput();
    OverlongInnerGroupFails();
    assert data[0..1] == VarintBytes(0x23);
    VarintRoundTrip(data, 0, 0x23);
  }

  /**
   * With the bounds computed exactly, the group is rejected as truncated and
   * Unmarshal stops with ErrUnexpectedEOF, the receiver unchanged.
   */
  lemma OverlongInnerLengthIsRejected(m: ProcessMessageRequest)
    ensures Skip(OverlongInnerLengthInput()) == Failure(ErrUnexpectedEOF)
    ensures DecodeFrom(OverlongInnerLengthInput(), 0, m) == (m, Some(ErrUnexpectedEOF))
  {
    var data := OverlongInnerLengthInput();
    OverlongInnerLengthSkipFails();
    assert data[0..1] == VarintBytes(0x23);
    VarintRoundTrip(data, 0, 0x23);
    assert data[0..] == data;
  }
}
