// The request dispatcher of the older device queue
// (src/daemon/device/device-request-dispatcher.cpp): it numbers requests and
// hands each to the listener registered for its device family.
module DeviceRequestDispatcherModel {
  import opened KasTypes
  import opened DeviceProtocol

  const LLONG_MAX: int := 0x7fff_ffff_ffff_ffff

  /** A request as handed to the dispatcher; its id is assigned on delivery. */
  datatype DispatchRequest = DispatchRequest(reqType: int, time: int, source: Source)

  /** A delivery: `listener` received the request of type `reqType` under `reqID`. */
  datatype Delivery = Delivery(listener: nat, reqID: int, reqType: int)

  datatype DispatcherState = DispatcherState(listeners: map<int, nat>, reqIDCount: int, delivered: seq<Delivery>)

  /** The next id: the counter, restarted after LLONG_MAX, plus one. */
  function NextID(count: int): (id: int)
    requires 0 <= count <= LLONG_MAX
    ensures 1 <= id <= LLONG_MAX
    ensures count < LLONG_MAX ==> id == count + 1
    ensures count == LLONG_MAX ==> id == 1
  {
    (if count >= LLONG_MAX then 0 else count) + 1
  }

  ghost function RegisterSpec(s: DispatcherState, major: int, listener: nat): (r: (bool, DispatcherState))
    ensures r.0 <==> major !in s.listeners
    ensures r.0 ==> r.1 == s.(listeners := s.listeners[major := listener])
    ensures !r.0 ==> r.1 == s
  {
    if major in s.listeners then (false, s)
    else (true, s.(listeners := s.listeners[major := listener]))
  }

  ghost function DeliverySpec(s: DispatcherState, request: Option<DispatchRequest>): (t: DispatcherState)
    requires 0 <= s.reqIDCount <= LLONG_MAX
    ensures t.listeners == s.listeners
  {
    if request.None? then s
    else
      var id := NextID(s.reqIDCount);
      var major := MajorRequestType(request.value.reqType);
      if major in s.listeners then s.(reqIDCount := id, delivered := s.delivered + [Delivery(s.listeners[major], id, request.value.reqType)])
      else s.(reqIDCount := id)
  }

  /** A delivered request goes to the listener of its family and to no other;
      without such a listener it is dropped, but the id is still consumed. A
      missing request consumes no id. */
  lemma DeliveryRoutesByFamily(s: DispatcherState, request: Option<DispatchRequest>)
    requires 0 <= s.reqIDCount <= LLONG_MAX
    ensures var t := DeliverySpec(s, request);
      (request.None? ==> t == s)
      && (request.Some? ==>
            var major := MajorRequestType(request.value.reqType);
            t.reqIDCount == NextID(s.reqIDCount)
            && (major in s.listeners ==>
                  t.delivered == s.delivered + [Delivery(s.listeners[major], t.reqIDCount, request.value.reqType)])
            && (major !in s.listeners ==> t.delivered == s.delivered))
      && (forall i :: |s.delivered| <= i < |t.delivered| ==>
            MajorRequestType(t.delivered[i].reqType) in s.listeners
            && t.delivered[i].listener == s.listeners[MajorRequestType(t.delivered[i].reqType)])
  {
  }

  /** Starting from the initial counter, ids of successive deliveries are 1, 2, 3, ... */
  lemma {:induction false} IdsCountFromOne(s: DispatcherState, requests: seq<DispatchRequest>)
    requires s.reqIDCount == 0 && s.delivered == [] && |requests| <= LLONG_MAX
    ensures var t := DeliverAll(s, requests);
      t.reqIDCount == |requests|
      && (forall i :: 0 <= i < |t.delivered| ==> 1 <= t.delivered[i].reqID <= |requests|)
  {
    DeliverAllCounts(s, requests);
  }

  /** Delivers `requests` in order. */
  ghost function DeliverAll(s: DispatcherState, requests: seq<DispatchRequest>): (t: DispatcherState)
    requires 0 <= s.reqIDCount <= LLONG_MAX
    ensures 0 <= t.reqIDCount <= LLONG_MAX
    decreases |requests|
  {
    if requests == [] then s
    else DeliverAll(DeliverySpec(s, Some(requests[0])), requests[1..])
  }

  lemma {:induction false} DeliverAllCounts(s: DispatcherState, requests: seq<DispatchRequest>)
    requires 0 <= s.reqIDCount && s.reqIDCount + |requests| <= LLONG_MAX
    ensures var t := DeliverAll(s, requests);
      t.reqIDCount == s.reqIDCount + |requests|
      && s.delivered <= t.delivered
      && (forall i :: |s.delivered| <= i < |t.delivered| ==> s.reqIDCount < t.delivered[i].reqID <= t.reqIDCount)
    decreases |requests|
  {
    if requests != [] {
      var s1 := DeliverySpec(s, Some(requests[0]));
      DeliverAllCounts(s1, requests[1..]);
    }
  }

  class DeviceRequestDispatcher {
    var listeners: map<int, nat>
    var reqIDCount: int
    var delivered: seq<Delivery>

    ghost function State(): DispatcherState
      reads this
    {
      DispatcherState(listeners, reqIDCount, delivered)
    }

    ghost predicate Valid()
      reads this
    {
      0 <= reqIDCount <= LLONG_MAX
    }

    constructor()
      ensures State() == DispatcherState(map[], 0, []) && Valid()
    {
      listeners := map[];
      reqIDCount := 0;
      delivered := [];
    }

    /** `major` is a 16-bit device family. */
    method RegisterListener(major: int, listener: nat) returns (ok: bool)
      requires 0 <= major < 0x1_0000
      modifies this
      ensures (ok, State()) == RegisterSpec(old(State()), major, listener)
      ensures Valid() == old(Valid())
    {
      if major in listeners {
        return false;
      }
      listeners := listeners[major := listener];
      ok := true;
    }

    method DeliveryRequest(request: Option<DispatchRequest>)
      requires Valid()
      modifies this
      ensures State() == DeliverySpec(old(State()), request) && Valid()
    {
      if request.None? {
        return;
      }
      if reqIDCount >= LLONG_MAX {
        reqIDCount := 0;
      }
      reqIDCount := reqIDCount + 1;
      var major := MajorRequestType(request.value.reqType);
      if major in listeners {
        delivered := delivered + [Delivery(listeners[major], reqIDCount, request.value.reqType)];
      }
    }
  }
}
