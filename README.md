# lorawan-stack core, modelled in Dafny

This project models four small pieces of The Things Stack (lorawan-stack) and proves properties about them.

- **RejoinParamSetupAns handling in the network server** (`mac_rejoin_param_setup.dfy`).
  - A LoRaWAN 1.1 device answers a RejoinParamSetupReq with a RejoinParamSetupAns (LoRaWAN 1.1 specification, chapter 5).
  - On the answer, the network server takes the request out of the device's pending-request queue.
  - It always sets the rejoin count periodicity. It sets the time periodicity only when the answer acknowledges it, and in that case it publishes an `ns.mac.rejoin_param.accept` event.
  - A device's MAC state is the class `MACState`, and `HandleRejoinParamSetupAns` updates it in place.
  - `HandleAns` gives the same behaviour on value snapshots. The lemmas are proved about it.
- **Protocol Buffers wire codec of ProcessUplinkMessageRequest / ProcessDownlinkMessageRequest** (`proto_wire.dfy`, `message_services.dfy`).
  - Covers the base-128 varint writer, `sov`/`soz`, `Size`, `MarshalTo`, `Marshal`, the byte-level `Unmarshal` loop with its checks (two that cannot fail on unbounded indices are listed under Left out), and `skipMessageServices`.
  - Embedded messages are carried as their encoded bytes.
  - Writers write into arrays, and the decoding loops read sequences by index. Each is proved equal to a specification function (`Encoding`, `DecodeFrom`, `Skip`), and the round trips are proved about those functions.
- **Field-mask projection between the cluster database model and the cluster proto** (`cluster.dfy`).
  - `toPB` and `fromPB` copy only the fields the mask names. A nil or empty mask means the default mask, built from the keys of the setter map.
  - `fromPB` returns the database columns it touched.
  - The entities are classes updated in place. The folds `ToProto`/`FromProto` specify them.
- **The Wizard step reducer of the web console** (`wizard.dfy`). It is a pure function of state and action.

`wrappers.dfy` holds the `Option` and `Result` types.

## Model

| member | source | states |
|---|---|---|
| MacRejoinParamSetup.HandleAns | pkg/networkserver/mac_rejoin_param_setup_test.go:30-112 | a missing payload fails with NoPayload and leaves the device unchanged; with no pending RejoinParamSetupReq the answer fails with MACRequestNotFound and the device is unchanged; it succeeds exactly when a payload and a request exist; on success the oldest request is removed, the count periodicity becomes its MaxCountN, the time periodicity becomes its MaxTimeN only when acknowledged (else kept), other parameters and desired parameters are untouched, and one accept event is appended only when acknowledged |
| MacRejoinParamSetup.MACState.HandleRejoinParamSetupAns | pkg/networkserver/mac_rejoin_param_setup_test.go:114-128 | the device's new state and the returned error are exactly those of `HandleAns` on its old state |
| MacRejoinParamSetup.FirstRejoinParamSetupReq | pkg/networkserver/mac_rejoin_param_setup_test.go:48-84 | the found position holds a RejoinParamSetupReq and none precedes it; when nothing is found the queue holds none |
| MacRejoinParamSetup.RemoveAt | pkg/networkserver/mac_rejoin_param_setup_test.go:63-77 | taking out one queue entry keeps every other entry, in order |
| MacRejoinParamSetup.NoneFoundIffCountZero | pkg/networkserver/mac_rejoin_param_setup_test.go:48-58 | a queue has no RejoinParamSetupReq exactly when it holds zero of them |
| MacRejoinParamSetup.RemoveFirstCounts | pkg/networkserver/mac_rejoin_param_setup_test.go:63-77 | removing the first RejoinParamSetupReq lowers their count by exactly one and keeps the other commands in order |
| MacRejoinParamSetup.ConsumesExactlyOneRequest | pkg/networkserver/mac_rejoin_param_setup_test.go:63-77 | a successful answer consumes exactly one request, whether acknowledged or not, and leaves every other command pending in order |
| MacRejoinParamSetup.ReplayIsRejected | pkg/networkserver/mac_rejoin_param_setup_test.go:48-58 | once the only request is consumed, the same answer again fails with MACRequestNotFound and changes nothing |
| MacRejoinParamSetup.ReplayOnDevice | pkg/networkserver/mac_rejoin_param_setup_test.go:48-84 | on a device object with one pending request, the first answer succeeds and the second is rejected |
| MacRejoinParamSetup.FirstAfterOthers | pkg/networkserver/mac_rejoin_param_setup_test.go:59-84 | the oldest RejoinParamSetupReq is found behind any number of other commands |
| MacRejoinParamSetup.FifoMatching | pkg/networkserver/mac_rejoin_param_setup_test.go:59-84 | with two requests pending, the answer resolves the older one and the younger stays pending |
| MacRejoinParamSetup.AckGatesOnlyTimePeriodicity | pkg/networkserver/mac_rejoin_param_setup_test.go:59-112 | the acknowledged and unacknowledged answers consume the same request and set the same count periodicity; they differ only in the time periodicity and the accept event |
| MacRejoinParamSetup.TableTestCases | pkg/networkserver/mac_rejoin_param_setup_test.go:37-112 | the four table cases (nil payload, no request, acknowledged with 128/10, unacknowledged with 1024 keeping time periodicity 1) give the expected whole device; the empty event log in the unacknowledged case is this model's choice, which the table does not check |
| ProtoWire.ShiftLeftIsMul | pkg/ttnpb/message_services.pb.go:630 | shifting left by n multiplies by 2^n |
| ProtoWire.Int64 | pkg/ttnpb/message_services.pb.go:663 | reading a uint64 as Go's int64 gives the value in [-2^63, 2^63) congruent to it mod 2^64, non-negative exactly when below 2^63 |
| ProtoWire.Int32 | pkg/ttnpb/message_services.pb.go:635 | `int32(...)` truncation lands in the int32 range and keeps small values |
| ProtoWire.VarintBytesShape | pkg/ttnpb/message_services.pb.go:437-445 | every varint byte but the last has bit 0x80 set, and the last is below 0x80 |
| ProtoWire.VarintBytesMagnitude | pkg/ttnpb/message_services.pb.go:437-445 | an n-byte varint encodes a value below 2^(7n) and, when n > 1, at least 2^(7(n-1)) |
| ProtoWire.VarintLengthAtMost10 | pkg/ttnpb/message_services.pb.go:570-579 | a uint64 takes between 1 and 10 varint bytes |
| ProtoWire.VarintLengthFromBounds | pkg/ttnpb/message_services.pb.go:570-579 | a value in [2^(7(n-1)), 2^(7n)) takes exactly n varint bytes |
| ProtoWire.EncodeVarint | pkg/ttnpb/message_services.pb.go:437-445 | writes the varint of v at the offset, returns the offset plus its length, and leaves the rest of the buffer unchanged |
| ProtoWire.Sov | pkg/ttnpb/message_services.pb.go:570-579 | returns the number of bytes the varint encoding of x takes, between 1 and 10 |
| ProtoWire.ZigZagOfSigned | pkg/ttnpb/message_services.pb.go:580-582 | `(x << 1) ^ (int64(x) >> 63)` maps a signed value s to 2s when s >= 0 and to -2s-1 otherwise |
| ProtoWire.Soz | pkg/ttnpb/message_services.pb.go:580-582 | the size of the zigzag encoding of the signed reading of x, between 1 and 10 |
| ProtoWire.AccumulateBound | pkg/ttnpb/message_services.pb.go:630 | adding a 7-bit group at shift s to a value below 2^s stays below 2^(s+7) and below 2^64 |
| ProtoWire.ReadVarintFrom | pkg/ttnpb/message_services.pb.go:621-634 | a decoded varint ends inside the input after at most 10 bytes; its last byte is below 0x80 and all earlier ones are at least 0x80 |
| ProtoWire.ReadVarintAt | pkg/ttnpb/message_services.pb.go:621-634 | the decoding loop returns exactly what `ReadVarint` specifies |
| ProtoWire.ReadVarintFromEncoding | pkg/ttnpb/message_services.pb.go:621-634 | continuing a decode with accumulator acc at shift s over the encoding of v gives acc + v·2^s and consumes exactly that encoding |
| ProtoWire.ReadVarintNextGroup | pkg/ttnpb/message_services.pb.go:628-633 | one continuation byte adds its low group to the accumulator and leaves the rest of the encoding to read |
| ProtoWire.ShiftLeftSplit | pkg/ttnpb/message_services.pb.go:630 | v shifted by s is its low 7 bits shifted by s plus the rest shifted by s + 7 |
| ProtoWire.VarintRoundTrip | pkg/ttnpb/message_services.pb.go:621-634 | decoding the encoding of any uint64 v gives v back and consumes exactly sov(v) bytes |
| ProtoWire.ContinuationRun | pkg/ttnpb/message_services.pb.go:621-627 | a run of continuation bytes fails with ErrUnexpectedEOF when the input ends inside it, and with ErrIntOverflow when it reaches ten bytes |
| ProtoWire.OverlongVarintOverflows | pkg/ttnpb/message_services.pb.go:622-624 | ten continuation bytes fail with ErrIntOverflow |
| ProtoWire.TruncatedVarintIsEOF | pkg/ttnpb/message_services.pb.go:625-627 | input ending within fewer than ten continuation bytes fails with ErrUnexpectedEOF |
| ProtoWire.Skip | pkg/ttnpb/message_services.pb.go:893-991 | a successful skip advances at least one byte |
| ProtoWire.SkipGroup | pkg/ttnpb/message_services.pb.go:952-980 | a skipped group ends after its start |
| ProtoWire.SkipMessageServices | pkg/ttnpb/message_services.pb.go:893-991 | the loop returns exactly what `Skip` specifies |
| ProtoWire.SkipVarintField | pkg/ttnpb/message_services.pb.go:914-927 | a wire-type-0 field is skipped as its key and one varint |
| ProtoWire.SkipFixed64Field | pkg/ttnpb/message_services.pb.go:928-930 | a wire-type-1 field is skipped as its key and 8 bytes |
| ProtoWire.SkipLengthDelimitedField | pkg/ttnpb/message_services.pb.go:931-951 | a wire-type-2 field is skipped as its key, its varint length and that many bytes |
| ProtoWire.SkipFixed32Field | pkg/ttnpb/message_services.pb.go:983-985 | a wire-type-5 field is skipped as its key and 4 bytes |
| ProtoWire.SkipRejectsIllegalWireType | pkg/ttnpb/message_services.pb.go:986-987 | wire types 6 and 7 fail with the illegal wire type error |
| MessageServices.Size | pkg/ttnpb/message_services.pb.go:542-554 | returns the length of the bytes `MarshalTo` writes, counting `parameter` only when non-empty |
| MessageServices.PutByte | pkg/ttnpb/message_services.pb.go:372-373 | writes one byte at the offset and nothing else |
| MessageServices.CopyInto | pkg/ttnpb/message_services.pb.go:393 | copies the payload at the offset and nothing else |
| MessageServices.WriteField | pkg/ttnpb/message_services.pb.go:372-379 | writes key, varint length and payload at the offset and nothing else |
| MessageServices.MarshalTo | pkg/ttnpb/message_services.pb.go:367-395 | the first n bytes of the buffer become the encoding (fields 1 and 2 always, field 3 only when non-empty), n is its length, and the rest of the buffer is unchanged |
| MessageServices.Marshal | pkg/ttnpb/message_services.pb.go:357-365 | returns exactly the encoding, whose length is `Size` |
| MessageServices.DecodeStep | pkg/ttnpb/message_services.pb.go:619-746 | a step that continues advances within the input and only extends the embedded-message fields |
| MessageServices.DecodeFrom | pkg/ttnpb/message_services.pb.go:615-753 | decoding only ever extends the embedded-message fields of the receiver |
| MessageServices.Unmarshal | pkg/ttnpb/message_services.pb.go:615-753 | the decoding loop leaves the receiver and the error exactly as `DecodeFrom` specifies, partial updates before an error included |
| MessageServices.FieldHeader | pkg/ttnpb/message_services.pb.go:621-669 | a length-delimited field's key and length decode as written, and the payload follows them |
| MessageServices.DecodeField | pkg/ttnpb/message_services.pb.go:644-732 | decoding one well-formed known field merges its payload and moves past it |
| MessageServices.DecodeFields | pkg/ttnpb/message_services.pb.go:615-753 | decoding a concatenation of well-formed known fields merges them in order and succeeds |
| MessageServices.FieldsEncodingAppend | pkg/ttnpb/message_services.pb.go:367-395 | the encoding of two field lists is the concatenation of their encodings |
| MessageServices.MergeAllAppend | pkg/ttnpb/message_services.pb.go:644-732 | merging two field lists equals merging the first, then the second |
| MessageServices.EncodingIsFields | pkg/ttnpb/message_services.pb.go:367-395 | a message's encoding is the encoding of its field list, and merging that list gives `Merged` |
| MessageServices.UnmarshalMarshalRoundTrip | pkg/ttnpb/message_services.pb.go:615-753 | unmarshalling the marshalled bytes of any message gives that message back, with no error |
| MessageServices.ConcatenatedEncodingsMerge | pkg/ttnpb/message_services.pb.go:644-732 | unmarshalling two concatenated encodings gives the merge: embedded messages concatenate and the later non-empty parameter wins |
| MessageServices.UnknownFieldIsSkipped | pkg/ttnpb/message_services.pb.go:733-745 | an unknown length-delimited field is skipped whole and leaves the receiver unchanged |
| MessageServices.KnownFieldLengthChecks | pkg/ttnpb/message_services.pb.go:644-732 | for any declared length of field 1, 2 or 3: a length of 2^63 or more fails with ErrInvalidLength, one running past the end of the input fails with ErrUnexpectedEOF, and the step stops exactly in those two cases |
| MessageServices.UnknownFieldLengthChecks | pkg/ttnpb/message_services.pb.go:733-745 | the same for an unknown length-delimited field: an invalid length fails with ErrInvalidLength, an overrun with ErrUnexpectedEOF, and the step stops exactly in those two cases |
| MessageServices.KeyChecks | pkg/ttnpb/message_services.pb.go:636-707 | wire type 4 fails with the end-group error, a field number <= 0 with the illegal-tag error, and a known field with a wire type other than 2 with the wrong-wire-type error |
| MessageServices.AddInt | pkg/ttnpb/message_services.pb.go:666 | Go's `int` addition wraps into [-2^63, 2^63) modulo 2^64 |
| MessageServices.GoIntWrapAround | pkg/ttnpb/message_services.pb.go:666-745 | the two sums the findings below need wrap to negative values |
| MessageServices.NineByteVarints | pkg/ttnpb/message_services.pb.go:437-445 | the lengths used in the findings' inputs take nine varint bytes |
| MessageServices.OverlongFieldPassesCheckAsWritten | pkg/ttnpb/message_services.pb.go:663-669 | as written, the field-1 length 2^63-1 at index 10 passes both checks because `postIndex` wraps negative |
| MessageServices.OverlongFieldIsRejected | pkg/ttnpb/message_services.pb.go:666-669 | with unbounded index arithmetic the same input fails with ErrUnexpectedEOF and leaves the receiver unchanged |
| MessageServices.OverlongSkipPassesCheckAsWritten | pkg/ttnpb/message_services.pb.go:733-745 | as written, an unknown field whose skip length is 2^63-1 at index 2 passes both checks because `iNdEx + skippy` wraps negative |
| MessageServices.OverlongSkipIsRejected | pkg/ttnpb/message_services.pb.go:742-745 | with unbounded index arithmetic the same input fails with ErrUnexpectedEOF |
| MessageServices.OverlongGroupPassesAsWritten | pkg/ttnpb/message_services.pb.go:952-980 | as written, the group's first inner field is skipped as 2^63-1 bytes from index 1, and Go's `start + next` wraps negative |
| MessageServices.OverlongGroupIsRejected | pkg/ttnpb/message_services.pb.go:952-980 | with unbounded index arithmetic the same input's skip fails with ErrUnexpectedEOF, and Unmarshal stops with that error and the receiver unchanged |
| MessageServices.OverlongInnerLengthPassesAsWritten | pkg/ttnpb/message_services.pb.go:931-951 | as written, the inner field's length 2^63-1 passes `length < 0`, `iNdEx += length` wraps to a negative skip returned without error, and `start + next` stays negative |
| MessageServices.OverlongInnerSkip | pkg/ttnpb/message_services.pb.go:931-951 | with unbounded index arithmetic the inner skip returns 2^63+9, past the end of the input |
| MessageServices.OverlongInnerGroupFails | pkg/ttnpb/message_services.pb.go:952-980 | the group loop then reads its next key beyond the input and fails with ErrUnexpectedEOF |
| MessageServices.OverlongInnerLengthSkipFails | pkg/ttnpb/message_services.pb.go:893-991 | the skip of the whole group fails with ErrUnexpectedEOF |
| MessageServices.OverlongInnerLengthIsRejected | pkg/ttnpb/message_services.pb.go:733-745 | Unmarshal of the same input stops with ErrUnexpectedEOF and the receiver unchanged |
| ClusterStore.DefaultClusterFieldMask | pkg/identityserver/store/cluster.go:61-69 | the default mask lists every key of the setter map exactly once, in any order |
| ClusterStore.ApplyPBSettersNext | pkg/identityserver/store/cluster.go:87-91 | one more mask path applies its setter when it has one and is otherwise ignored |
| ClusterStore.ApplyModelSettersNext | pkg/identityserver/store/cluster.go:98-106 | one more mask path applies its model setter and appends its columns when it has one, and is otherwise ignored |
| ClusterStore.Cluster.SetPBField | pkg/identityserver/store/cluster.go:43-48 | one proto setter changes only its own field |
| ClusterStore.Cluster.ToPB | pkg/identityserver/store/cluster.go:80-92 | the proto becomes `ToProto` of the model, the old proto and the mask |
| ClusterStore.Cluster.SetModelField | pkg/identityserver/store/cluster.go:51-58 | one model setter changes only its own field |
| ClusterStore.Cluster.FromPB | pkg/identityserver/store/cluster.go:94-108 | the model and the returned columns become `FromProto` of the old model, the proto and the mask |
| ClusterStore.ApplyPBSettersFields | pkg/identityserver/store/cluster.go:87-91 | applying the setters of a path list sets exactly the fields whose path is in the list, leaving every other proto field as it was |
| ClusterStore.ToProtoFields | pkg/identityserver/store/cluster.go:80-92 | `toPB` always copies the ID and both timestamps, copies name, description, attributes and secret only when the effective mask names them, and never touches contact info |
| ClusterStore.ApplyModelSettersFields | pkg/identityserver/store/cluster.go:98-106 | applying the model setters of a path list sets exactly the fields whose path is in the list |
| ClusterStore.FromProtoFields | pkg/identityserver/store/cluster.go:94-108 | `fromPB` never changes the cluster ID or the timestamps and copies only the fields the effective mask names |
| ClusterStore.ApplyModelSettersColumns | pkg/identityserver/store/cluster.go:98-106 | the returned columns are, in mask order, the column names of each path that has a model setter |
| ClusterStore.ExpectedColumnsMembers | pkg/identityserver/store/cluster.go:98-106 | a column is returned exactly when some mask path with a setter maps to it |
| ClusterStore.ExpectedColumnsCount | pkg/identityserver/store/cluster.go:98-106 | one column is returned per mask path that has a column |
| ClusterStore.ExpectedColumnsDistinct | pkg/identityserver/store/cluster.go:72-78 | a mask without repeated paths gives columns without repeats |
| ClusterStore.DefaultMaskCopiesAll | pkg/identityserver/store/cluster.go:84-91 | `toPB` with an empty mask copies every field that has a setter |
| ClusterStore.DefaultMaskColumnNames | pkg/identityserver/store/cluster.go:72-78 | the default mask touches exactly the columns name, description and cluster_secret (attributes has none; contact_info has no setter) |
| ClusterStore.DefaultMaskSetsAll | pkg/identityserver/store/cluster.go:95-106 | `fromPB` with an empty mask copies all four settable fields and returns exactly name, description and cluster_secret, each once |
| ClusterStore.FromThenToProto | pkg/identityserver/store/cluster.go:43-58 | for name, description and secret in the mask, `fromPB` then `toPB` with the same mask reproduces the input proto's values |
| ClusterStore.CreateClusterKeepsFields | pkg/identityserver/store/cluster_store.go:66-77 | creating a cluster stores and returns its ID, name, description, attributes and secret unchanged, with the stored timestamps |
| Wizard.InitialState | pkg/webui/components/wizard/wizard.js:45-47 | the initial state has the given step and no other keys |
| Wizard.DefaultInitialState | pkg/webui/components/wizard/wizard.js:76-78 | without an `initialStepNumber` the wizard starts at step 1 with no other keys |
| Wizard.Reduce | pkg/webui/components/wizard/wizard.js:25-40 | NEXT_STEP adds one to the step, PREV_STEP subtracts one, any other action returns the state unchanged, and other keys are always kept |
| Wizard.NextThenPrev | pkg/webui/components/wizard/wizard.js:25-40 | NEXT then PREV gives back the original state |
| Wizard.PrevThenNext | pkg/webui/components/wizard/wizard.js:25-40 | PREV then NEXT gives back the original state |
| Wizard.RunMovesStep | pkg/webui/components/wizard/wizard.js:25-40 | any dispatch sequence moves the step by the number of NEXT_STEP minus PREV_STEP actions and keeps the other keys |
| Wizard.RunDependsOnlyOnBalance | pkg/webui/components/wizard/wizard.js:25-40 | two dispatch sequences with the same NEXT/PREV balance reach the same state |

## Left out

- The handler `handleRejoinParamSetupAns` is not part of this model's sources. Its behaviour is taken from its table test. The test uses single-request queues only; the model consumes the oldest RejoinParamSetupReq.
- MacRejoinParamSetup.HandleAns: publishes no event when no request matches. The test does not say whether one is published.
- MacRejoinParamSetup.HandleAns: publishes nothing on an unacknowledged answer, by this model's choice. The table test checks events only when it expects some, and expects them only in the acknowledged case, so it does not say whether the unacknowledged answer publishes an event.
- The event bus is left out. Published events are a sequence of event names on the device.
- The gRPC client and server stubs, service descriptors, registration and the file descriptor of message_services.pb.go are network glue.
- `NewPopulated*`, the `rand*` helpers, `String` and `Equal` are randomness and reflection.
- Embedded messages (`EndDeviceVersionIdentifiers`, `UplinkMessage`, `DownlinkMessage`) are not part of this model. They are carried as opaque bytes, their `Size` is their length, and errors from their own `Unmarshal` or `MarshalTo` are not modelled, so `MarshalTo` and `Marshal` never fail.
- ProcessDownlinkMessageRequest's code is a copy of ProcessUplinkMessageRequest's. One datatype models both.
- MessageServices.Unmarshal: takes the receiver as a value and returns the updated value, instead of updating a pointer in place.
- MessageServices.DecodeFrom: leaves out the `skippy < 0` check and the final `iNdEx > l` check, which cannot fail with unbounded indices. Index sums are unbounded, so the Go `int` overflows listed under Findings are modelled as corrected.
- ProtoWire.Skip: adds the skipped length without Go's wrap-around. For a wire-type-2 field where Go's `iNdEx += length` (pb.go:947) wraps negative and and `Unmarshal` is the caller, Go reports ErrInvalidLength through `skippy < 0` (pb.go:742) where the model reports ErrUnexpectedEOF. Inside a group, Go's group loop has no sign check on `next` and panics at pb.go:963, where the model reports ErrUnexpectedEOF; the fourth row of the Findings shows such an input.
- ProtoWire.SkipGroup: computes `start + next` (pb.go:978) without Go's wrap-around. Where Go's sum wraps negative and the next read panics, the model reports ErrUnexpectedEOF; the third row of the Findings shows such an input.
- ProtoWire.Skip: requires a non-empty input. Go's skip ends in a panic on empty input, and its only caller never passes one.
- Error values are constructors. Their message strings are not modelled.
- `attributes(...).toMap`/`updateFromMap` and `cleanTime` are not part of this model. Attributes are a string map copied whole, and timestamps are copied as they are.
- The field-name constants of the cluster store are not part of this model. The paths are taken to be "name", "description", "attributes", "secret" and "contact_info".
- A nil field mask and an empty one behave alike. Both are the empty sequence.
- Proto fields that no setter touches are represented by `contactInfo` only.
- Gorm queries, transactions, tracing, pagination and the cluster registry's authorization are left out, as is `createEntity` in CreateCluster. The lemma about CreateCluster takes the stored timestamps as parameters.
- ClusterStore.FromThenToProto: the round trip is stated for name, description and secret only, because attributes go through `updateFromMap`/`toMap`.
- React rendering, hooks, the stepper and the story's step bounds are left out. Steps are unbounded integers, not JavaScript numbers.

## Findings

| source | as written | input that shows it | evidently intended | confidence | as-written member | corrected member |
|---|---|---|---|---|---|---|
| pkg/ttnpb/message_services.pb.go:666-669 | `postIndex := iNdEx + msglen` is a Go `int` sum. For a length just below 2^63 it wraps negative and passes `postIndex > l`, so `dAtA[iNdEx:postIndex]` is sliced with a negative end; fields 2 and 3 repeat the same sum (pb.go:696, 727) | `0a ff ff ff ff ff ff ff ff 7f` (field 1, length 2^63-1, ten bytes in all) | fail with `io.ErrUnexpectedEOF` (or `ErrInvalidLength`) because the field runs past the buffer | not executed | MessageServices.OverlongFieldPassesCheckAsWritten | MessageServices.OverlongFieldIsRejected |
| pkg/ttnpb/message_services.pb.go:742-745 | `iNdEx + skippy` wraps negative for a skip length near 2^63. It passes both `skippy < 0` and `> l`, and `iNdEx` becomes negative | `1a 00` then `22` and the varint of 2^63-11 (an empty field 3, then an unknown field 4 claiming 2^63-11 bytes; twelve bytes in all) | fail with `io.ErrUnexpectedEOF` because the skipped field runs past the buffer | not executed | MessageServices.OverlongSkipPassesCheckAsWritten | MessageServices.OverlongSkipIsRejected |
| pkg/ttnpb/message_services.pb.go:974-978 | in the group loop of the skip, `iNdEx = start + next` is a Go `int` sum. When the inner skip returns a length near 2^63 it wraps negative, and the next `dAtA[iNdEx]` (pb.go:963) panics | `23 22 f5 ff ff ff ff ff ff ff 7f` (an unknown field 4 sent as a group, whose first inner field claims 2^63-11 bytes; eleven bytes in all) | fail with `io.ErrUnexpectedEOF` because the inner field runs past the buffer | not executed | MessageServices.OverlongGroupPassesAsWritten | MessageServices.OverlongGroupIsRejected |
| pkg/ttnpb/message_services.pb.go:947-978 | inside a group, the inner skip's `iNdEx += length` wraps negative and is returned as `next` with no error; the group loop has no `next < 0` check, so `iNdEx = start + next` is negative and `dAtA[iNdEx]` (pb.go:963) panics | `23 22 ff ff ff ff ff ff ff ff 7f` (an unknown field 4 sent as a group, whose first inner field claims 2^63-1 bytes; eleven bytes in all) | fail with `ErrInvalidLength` or `io.ErrUnexpectedEOF` because the inner field runs past the buffer | not executed | MessageServices.OverlongInnerLengthPassesAsWritten | MessageServices.OverlongInnerLengthIsRejected |
