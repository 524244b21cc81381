/**
 * The network server's handler for the RejoinParamSetupAns MAC command
 * (LoRaWAN 1.1, chapter 5, RejoinParamSetupReq/RejoinParamSetupAns).
 *
 * The server sends RejoinParamSetupReq(MaxCountN, MaxTimeN) to a device and
 * keeps it in the device's pending-request queue. When the device's answer
 * arrives, the handler consumes the request and merges the requested values
 * into the device's current MAC parameters: the count periodicity always, the
 * time periodicity only when the answer acknowledges it.
 *
 * A device's MAC state is the class `MACState`, which the handler updates in
 * place. `Device` is a value snapshot of the same state; `HandleAns` is the
 * handler's behaviour on snapshots, and the lemmas below are proved about it.
 */
module MacRejoinParamSetup {
  import opened Wrappers

  /** MaxCountN: the device rejoins at least every 2^(n+4) uplinks; a 4-bit field. */
  type RejoinCountExponent = x: nat | x < 16

  /** MaxTimeN: the device rejoins at least every 2^(n+10) seconds; a 4-bit field. */
  type RejoinTimeExponent = x: nat | x < 16

  const REJOIN_COUNT_16: RejoinCountExponent := 0
  const REJOIN_COUNT_128: RejoinCountExponent := 3
  const REJOIN_COUNT_1024: RejoinCountExponent := 6
  const REJOIN_TIME_0: RejoinTimeExponent := 0
  const REJOIN_TIME_1: RejoinTimeExponent := 1
  const REJOIN_TIME_10: RejoinTimeExponent := 10
  const REJOIN_TIME_11: RejoinTimeExponent := 11

  /** The name of the event published when a device accepts the time periodicity. */
  const EVT_REJOIN_PARAM_ACCEPT: string := "ns.mac.rejoin_param.accept"

  /** Parameters the handler never reads or writes (data rate offset, RX windows, ...). */
  datatype OtherParameters = OtherParameters(values: map<string, int>)

  /** MACParameters: the two rejoin periodicities and everything else. */
  datatype MACParameters = MACParameters(
    rejoinCountPeriodicity: RejoinCountExponent,
    rejoinTimePeriodicity: RejoinTimeExponent,
    others: OtherParameters)

  /** A downlink MAC command waiting for its answer. */
  datatype MACCommand =
    | RejoinParamSetupReq(maxCountExponent: RejoinCountExponent, maxTimeExponent: RejoinTimeExponent)
    | OtherRequest(cid: nat, payload: seq<int>)

  /** The device's answer; only its MaxTimeN acknowledgment bit matters here. */
  datatype RejoinParamSetupAns = RejoinParamSetupAns(maxTimeExponentAck: bool)

  /** errNoPayload and errMACRequestNotFound. */
  datatype MACError = NoPayload | MACRequestNotFound

  /** A snapshot of a device's MAC state together with the events published about it. */
  datatype Device = Device(
    currentParameters: MACParameters,
    desiredParameters: MACParameters,
    pendingRequests: seq<MACCommand>,
    events: seq<string>)

  /** What handling one answer gives: the device afterwards and the error, if any. */
  datatype Outcome = Outcome(device: Device, err: Option<MACError>)

  /** The position of the oldest pending RejoinParamSetupReq, if there is one. */
  function FirstRejoinParamSetupReq(pending: seq<MACCommand>): (r: Option<nat>)
    ensures r.Some? ==> r.value < |pending| && pending[r.value].RejoinParamSetupReq?
    ensures r.Some? ==> forall j :: 0 <= j < r.value ==> !pending[j].RejoinParamSetupReq?
    ensures r.None? ==> forall j :: 0 <= j < |pending| ==> !pending[j].RejoinParamSetupReq?
  {
    if pending == [] then None
    else if pending[0].RejoinParamSetupReq? then Some(0)
    else
      match FirstRejoinParamSetupReq(pending[1..])
      case None => None
      case Some(i) => Some(i + 1)
  }

  /** The queue with the element at position `i` taken out, the others kept in order. */
  function RemoveAt(s: seq<MACCommand>, i: nat): (r: seq<MACCommand>)
    requires i < |s|
    ensures |r| == |s| - 1
    ensures forall j :: 0 <= j < i ==> r[j] == s[j]
    ensures forall j :: i <= j < |r| ==> r[j] == s[j + 1]
  {
    s[..i] + s[i + 1..]
  }

  /** The number of RejoinParamSetupReq commands in a queue. */
  function CountRejoinParamSetupReqs(s: seq<MACCommand>): nat
  {
    if s == [] then 0
    else (if s[0].RejoinParamSetupReq? then 1 else 0) + CountRejoinParamSetupReqs(s[1..])
  }

  /** The commands of a queue that are not RejoinParamSetupReq, in order. */
  function OtherCommands(s: seq<MACCommand>): seq<MACCommand>
  {
    if s == [] then []
    else (if s[0].RejoinParamSetupReq? then [] else [s[0]]) + OtherCommands(s[1..])
  }

  /**
   * handleRejoinParamSetupAns on a snapshot. A missing payload fails with
   * NoPayload; a queue without a RejoinParamSetupReq fails with
   * MACRequestNotFound; both leave the device as it was. Otherwise the oldest
   * request is consumed whatever the answer, its MaxCountN becomes the count
   * periodicity, its MaxTimeN becomes the time periodicity only when
   * acknowledged, and an acknowledged answer publishes one accept event.
   */
  function HandleAns(d: Device, pld: Option<RejoinParamSetupAns>): (o: Outcome)
    ensures pld.None? ==> o == Outcome(d, Some(NoPayload))
    ensures pld.Some? && FirstRejoinParamSetupReq(d.pendingRequests).None? ==>
      o == Outcome(d, Some(MACRequestNotFound))
    ensures o.err.None? <==> pld.Some? && FirstRejoinParamSetupReq(d.pendingRequests).Some?
    ensures o.err.None? ==>
      var i := FirstRejoinParamSetupReq(d.pendingRequests).value;
      var req := d.pendingRequests[i];
      && o.device.pendingRequests == RemoveAt(d.pendingRequests, i)
      && o.device.currentParameters.rejoinCountPeriodicity == req.maxCountExponent
      && o.device.currentParameters.rejoinTimePeriodicity ==
           (if pld.value.maxTimeExponentAck then req.maxTimeExponent
            else d.currentParameters.rejoinTimePeriodicity)
      && o.device.currentParameters.others == d.currentParameters.others
      && o.device.desiredParameters == d.desiredParameters
      && o.device.events ==
           d.events + (if pld.value.maxTimeExponentAck then [EVT_REJOIN_PARAM_ACCEPT] else [])
  {
    match pld
    case None => Outcome(d, Some(NoPayload))
    case Some(ans) =>
      match FirstRejoinParamSetupReq(d.pendingRequests)
      case None => Outcome(d, Some(MACRequestNotFound))
      case Some(i) =>
        var req := d.pendingRequests[i];
        var cur := d.currentParameters.(rejoinCountPeriodicity := req.maxCountExponent);
        var cur' := if ans.maxTimeExponentAck then cur.(rejoinTimePeriodicity := req.maxTimeExponent) else cur;
        var events := if ans.maxTimeExponentAck then d.events + [EVT_REJOIN_PARAM_ACCEPT] else d.events;
        Outcome(d.(currentParameters := cur', pendingRequests := RemoveAt(d.pendingRequests, i), events := events), None)
  }

  /** A queue has no RejoinParamSetupReq exactly when its count of them is zero. */
  lemma {:induction false} NoneFoundIffCountZero(s: seq<MACCommand>)
    ensures FirstRejoinParamSetupReq(s).None? <==> CountRejoinParamSetupReqs(s) == 0
  {
    if s != [] {
      NoneFoundIffCountZero(s[1..]);
    }
  }

  /**
   * Removing the oldest RejoinParamSetupReq lowers their count by one and
   * keeps every other command, in order.
   */
  lemma {:induction false} RemoveFirstCounts(s: seq<MACCommand>)
    requires FirstRejoinParamSetupReq(s).Some?
    ensures CountRejoinParamSetupReqs(RemoveAt(s, FirstRejoinParamSetupReq(s).value)) == CountRejoinParamSetupReqs(s) - 1
    ensures OtherCommands(RemoveAt(s, FirstRejoinParamSetupReq(s).value)) == OtherCommands(s)
  {
    var i := FirstRejoinParamSetupReq(s).value;
    if i == 0 {
      assert RemoveAt(s, 0) == s[1..];
    } else {
      var tail := s[1..];
      assert FirstRejoinParamSetupReq(tail) == Some(i - 1);
      RemoveFirstCounts(tail);
      var r := RemoveAt(s, i);
      assert r[0] == s[0] && r[1..] == RemoveAt(tail, i - 1);
    }
  }

  /**
   * A matched answer consumes exactly one request: one RejoinParamSetupReq
   * fewer, every other pending command still there in the same order.
   */
  lemma ConsumesExactlyOneRequest(d: Device, pld: Option<RejoinParamSetupAns>)
    requires HandleAns(d, pld).err.None?
    ensures CountRejoinParamSetupReqs(HandleAns(d, pld).device.pendingRequests) ==
      CountRejoinParamSetupReqs(d.pendingRequests) - 1
    ensures OtherCommands(HandleAns(d, pld).device.pendingRequests) == OtherCommands(d.pendingRequests)
  {
    RemoveFirstCounts(d.pendingRequests);
  }

  /**
   * Replaying an answer once its only request has been consumed is rejected
   * with MACRequestNotFound and changes nothing: no second merge.
   */
  lemma ReplayIsRejected(d: Device, pld: Option<RejoinParamSetupAns>)
    requires CountRejoinParamSetupReqs(d.pendingRequests) == 1
    requires pld.Some?
    ensures HandleAns(d, pld).err.None?
    ensures var d' := HandleAns(d, pld).device;
      HandleAns(d', pld) == Outcome(d', Some(MACRequestNotFound))
  {
    NoneFoundIffCountZero(d.pendingRequests);
    ConsumesExactlyOneRequest(d, pld);
    NoneFoundIffCountZero(HandleAns(d, pld).device.pendingRequests);
  }

  /** The oldest RejoinParamSetupReq is found behind any number of other commands. */
  lemma {:induction false} FirstAfterOthers(pre: seq<MACCommand>, req: MACCommand, post: seq<MACCommand>)
    requires req.RejoinParamSetupReq?
    requires CountRejoinParamSetupReqs(pre) == 0
    ensures FirstRejoinParamSetupReq(pre + [req] + post) == Some(|pre|)
  {
    if pre != [] {
      FirstAfterOthers(pre[1..], req, post);
      assert (pre + [req] + post)[1..] == pre[1..] + [req] + post;
    }
  }

  /**
   * FIFO matching: with requests A then B pending, an answer resolves
   * against A, and B stays pending.
   */
  lemma FifoMatching(d: Device, pre: seq<MACCommand>, a: MACCommand, post: seq<MACCommand>, ack: bool)
    requires a.RejoinParamSetupReq?
    requires CountRejoinParamSetupReqs(pre) == 0
    requires d.pendingRequests == pre + [a] + post
    ensures var o := HandleAns(d, Some(RejoinParamSetupAns(ack)));
      && o.err.None?
      && o.device.pendingRequests == pre + post
      && o.device.currentParameters.rejoinCountPeriodicity == a.maxCountExponent
      && (ack ==> o.device.currentParameters.rejoinTimePeriodicity == a.maxTimeExponent)
  {
    FirstAfterOthers(pre, a, post);
    assert RemoveAt(pre + [a] + post, |pre|) == pre + post;
  }

  /**
   * Ack-gated isolation: the acknowledged and the unacknowledged answer to the
   * same request consume it alike and set the same count periodicity; they
   * differ only in the time periodicity and in the accept event.
   */
  lemma AckGatesOnlyTimePeriodicity(d: Device)
    requires FirstRejoinParamSetupReq(d.pendingRequests).Some?
    ensures var acked := HandleAns(d, Some(RejoinParamSetupAns(true))).device;
      var nacked := HandleAns(d, Some(RejoinParamSetupAns(false))).device;
      var req := d.pendingRequests[FirstRejoinParamSetupReq(d.pendingRequests).value];
      && acked.pendingRequests == nacked.pendingRequests
      && acked.currentParameters == nacked.currentParameters.(rejoinTimePeriodicity := req.maxTimeExponent)
      && nacked.currentParameters.rejoinTimePeriodicity == d.currentParameters.rejoinTimePeriodicity
      && acked.events == nacked.events + [EVT_REJOIN_PARAM_ACCEPT]
  {
  }

  /** A device with only default parameters and the given queue. */
  function DefaultDevice(pending: seq<MACCommand>): Device
  {
    var zero := MACParameters(REJOIN_COUNT_16, REJOIN_TIME_0, OtherParameters(map[]));
    Device(zero, zero, pending, [])
  }

  /**
   * The four cases of the handler's table test, on snapshots. The table
   * expects an event only in the acknowledged case; that the unacknowledged
   * case publishes none is this model's choice, which the table does not check.
   */
  lemma TableTestCases()
    ensures HandleAns(DefaultDevice([]), None) == Outcome(DefaultDevice([]), Some(NoPayload))
    ensures forall ack :: (HandleAns(DefaultDevice([]), Some(RejoinParamSetupAns(ack))) ==
                           Outcome(DefaultDevice([]), Some(MACRequestNotFound)))
    ensures var d := DefaultDevice([RejoinParamSetupReq(REJOIN_COUNT_128, REJOIN_TIME_10)]);
      var o := HandleAns(d, Some(RejoinParamSetupAns(true)));
      && o.err == None
      && o.device.currentParameters == d.currentParameters.(rejoinCountPeriodicity := REJOIN_COUNT_128, rejoinTimePeriodicity := REJOIN_TIME_10)
      && o.device.pendingRequests == []
      && o.device.events == [EVT_REJOIN_PARAM_ACCEPT]
    ensures var d0 := DefaultDevice([RejoinParamSetupReq(REJOIN_COUNT_1024, REJOIN_TIME_11)]);
      var d := d0.(currentParameters := d0.currentParameters.(rejoinTimePeriodicity := REJOIN_TIME_1));
      var o := HandleAns(d, Some(RejoinParamSetupAns(false)));
      && o.err == None
      && o.device.currentParameters == d.currentParameters.(rejoinCountPeriodicity := REJOIN_COUNT_1024)
      && o.device.currentParameters.rejoinTimePeriodicity == REJOIN_TIME_1
      && o.device.pendingRequests == []
      && o.device.events == []
  {
  }

  /**
   * The MAC state of one end device, updated in place by the handler, with
   * the events published about it.
   */
  class MACState {
    var currentParameters: MACParameters
    var desiredParameters: MACParameters
    var pendingRequests: seq<MACCommand>
    var events: seq<string>

    constructor (current: MACParameters, desired: MACParameters, pending: seq<MACCommand>)
      ensures currentParameters == current && desiredParameters == desired
      ensures pendingRequests == pending && events == []
    {
      currentParameters := current;
      desiredParameters := desired;
      pendingRequests := pending;
      events := [];
    }

    /** The state as a value. */
    function Snapshot(): Device
      reads this
    {
      Device(currentParameters, desiredParameters, pendingRequests, events)
    }

    /**
     * handleRejoinParamSetupAns: scans the queue for the oldest
     * RejoinParamSetupReq, takes it out, and merges its values as `HandleAns`
     * says; on an error nothing changes.
     */
    method HandleRejoinParamSetupAns(pld: Option<RejoinParamSetupAns>) returns (err: Option<MACError>)
      modifies this
      ensures Snapshot() == HandleAns(old(Snapshot()), pld).device
      ensures err == HandleAns(old(Snapshot()), pld).err
    {
      if pld.None? {
        return Some(NoPayload);
      }
      var i := 0;
      while i < |pendingRequests| && !pendingRequests[i].RejoinParamSetupReq?
        invariant i <= |pendingRequests|
        invariant forall j :: 0 <= j < i ==> !pendingRequests[j].RejoinParamSetupReq?
      {
        i := i + 1;
      }
      if i == |pendingRequests| {
        return Some(MACRequestNotFound);
      }
      var req := pendingRequests[i];
      pendingRequests := pendingRequests[..i] + pendingRequests[i + 1..];
      currentParameters := currentParameters.(rejoinCountPeriodicity := req.maxCountExponent);
      if pld.value.maxTimeExponentAck {
        currentParameters := currentParameters.(rejoinTimePeriodicity := req.maxTimeExponent);
        events := events + [EVT_REJOIN_PARAM_ACCEPT];
      }
      err := None;
    }
  }

  /** Processing the same answer twice on a device with one pending request: the second is rejected. */
  method ReplayOnDevice(dev: MACState, pld: RejoinParamSetupAns) returns (first: Option<MACError>, second: Option<MACError>)
    requires CountRejoinParamSetupReqs(dev.pendingRequests) == 1
    modifies dev
    ensures first == None && second == Some(MACRequestNotFound)
    ensures dev.Snapshot() == HandleAns(old(dev.Snapshot()), Some(pld)).device
  {
    ReplayIsRejected(dev.Snapshot(), Some(pld));
    first := dev.HandleRejoinParamSetupAns(Some(pld));
    second := dev.HandleRejoinParamSetupAns(Some(pld));
  }
}
