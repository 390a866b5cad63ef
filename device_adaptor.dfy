// The per-device request queue (src/daemon/device/device-adaptor.cpp). Many
// sessions and users share one physical device; their requests wait in a map
// keyed by request id, the best one runs, and a timer bounds how long it may
// hold the device. The source's callbacks are recorded as an event log.
module DeviceAdaptorModel {
  import opened KasTypes
  import opened DeviceProtocol

  const ENROLL_TIMEOUT_MS: int := 300000
  const IDENTIFY_TIMEOUT_MS: int := 60000
  const LONG_LONG_MAX: int := 0x7fff_ffff_ffff_ffff

  /** The device service object the queue drives. */
  datatype DeviceProxy = DeviceProxy(deviceID: string)

  /** The single-shot occupancy timer, armed for one request. */
  datatype Timer = Timer(reqID: int, ms: int)

  datatype AdaptorState = AdaptorState(
    requests: map<int, Request>,
    current: Option<Request>,
    requestIDCount: int,
    proxy: Option<DeviceProxy>,
    deviceID: string,
    timer: Option<Timer>,
    events: seq<Event>)

  function TimeoutOf(kind: RequestKind): int
  {
    if kind.EnrollRequest? then ENROLL_TIMEOUT_MS else IDENTIFY_TIMEOUT_MS
  }

  function StartEvent(r: Request, deviceID: string): Event
  {
    match r.kind
    case EnrollRequest(extra) => DeviceEnrollStart(deviceID, extra)
    case IdentifyRequest(extra) => DeviceIdentifyStart(deviceID, extra)
  }

  function StopEvent(r: Request, deviceID: string): Event
  {
    if r.kind.EnrollRequest? then DeviceEnrollStop(deviceID) else DeviceIdentifyStop(deviceID)
  }

  /** The status a request receives when there is no device to run it on. */
  function NoDeviceStatus(r: Request): Event
  {
    if r.kind.EnrollRequest? then EnrollStatusTo(r.source, "", 0, EnrollFail)
    else IdentifyStatusTo(r.source, "", IdentifyNotMatch)
  }

  /** Well-formed at every step, including inside an operation. */
  ghost predicate WF(s: AdaptorState)
  {
    (forall id :: id in s.requests ==> s.requests[id].reqID == id && 0 <= id)
    && (s.current.Some? ==> s.current.value.reqID in s.requests && s.requests[s.current.value.reqID] == s.current.value)
    && (s.timer.Some? ==>
          s.proxy.Some? && s.current.Some? && s.timer.value == Timer(s.current.value.reqID, TimeoutOf(s.current.value.kind)))
    && -1 <= s.requestIDCount <= LONG_LONG_MAX
    && (s.proxy.Some? ==> s.deviceID == s.proxy.value.deviceID)
  }

  /** Between operations, moreover: a running request holds the armed timer
      (so nothing runs without a device), and the queue is never left idle
      while requests wait. */
  ghost predicate Inv(s: AdaptorState)
  {
    WF(s)
    && (s.current.Some? ==> s.timer.Some?)
    && (s.requests != map[] ==> s.current.Some?)
  }

  /** What an operation never changes, and that it only appends to the log. */
  ghost predicate Keeps(s: AdaptorState, t: AdaptorState)
  {
    WF(t)
    && t.requests.Keys <= s.requests.Keys
    && (forall k :: k in t.requests ==> t.requests[k] == s.requests[k])
    && t.proxy == s.proxy && t.deviceID == s.deviceID && t.requestIDCount == s.requestIDCount
    && s.events <= t.events
  }

  // ---- Scheduling order ----

  /** `a` runs no later than `b`. */
  predicate Precedes(a: Request, b: Request)
  {
    RunsBefore(a.source.priority, a.time, a.reqID, b.source.priority, b.time, b.reqID)
  }

  ghost predicate IsBest(m: map<int, Request>, k: int)
  {
    k in m && forall j :: j in m ==> Precedes(m[k], m[j])
  }

  ghost predicate IdsMatch(m: map<int, Request>)
  {
    forall id :: id in m ==> m[id].reqID == id
  }

  lemma {:induction false} BestExists(m: map<int, Request>)
    requires m != map[] && IdsMatch(m)
    ensures exists k :: IsBest(m, k)
    decreases |m|
  {
    var x := Pick(m.Keys);
    var rest := m - {x};
    if rest == map[] {
      forall j | j in m ensures Precedes(m[x], m[j]) { assert j !in rest; }
      assert IsBest(m, x);
    } else {
      BestExists(rest);
      var b :| IsBest(rest, b);
      if Precedes(m[x], m[b]) {
        forall j | j in m ensures Precedes(m[x], m[j]) {
          if j != x { assert j in rest; assert Precedes(m[b], m[j]); }
        }
        assert IsBest(m, x);
      } else {
        forall j | j in m ensures Precedes(m[b], m[j]) {
          if j != x { assert j in rest; }
        }
        assert IsBest(m, b);
      }
    }
  }

  /** The order is total on distinct ids, so the best request is unique. */
  lemma BestUnique(m: map<int, Request>, a: int, b: int)
    requires IdsMatch(m) && IsBest(m, a) && IsBest(m, b)
    ensures a == b
  {
    assert Precedes(m[a], m[b]) && Precedes(m[b], m[a]);
  }

  ghost function BestKey(m: map<int, Request>): (k: int)
    requires m != map[] && IdsMatch(m)
    ensures IsBest(m, k)
  {
    BestExists(m);
    var k :| IsBest(m, k); k
  }

  ghost function MinKey(ks: set<int>): (k: int)
    requires ks != {}
    ensures k in ks && forall j :: j in ks ==> k <= j
  {
    MinExists(ks);
    var k :| k in ks && forall j :: j in ks ==> k <= j; k
  }

  // ---- Specification of every operation on the abstract state ----

  /** interruptRequest: stop the running request (on the device, if there is
      one), tell its source, and leave it waiting in the queue. */
  ghost function InterruptSpec(s: AdaptorState): (t: AdaptorState)
    requires WF(s)
    ensures Keeps(s, t) && t.requests == s.requests && t.current.None? && t.timer.None?
  {
    if s.current.None? then s
    else
      var r := s.current.value;
      var s1 := if s.proxy.Some? then s.(timer := None, events := s.events + [StopEvent(r, s.proxy.value.deviceID)]) else s;
      s1.(events := s1.events + [Interrupted(r.source)], current := None)
  }

  ghost function Measure(s: AdaptorState): int
  {
    2 * |s.requests| + (if s.current.None? then 1 else 0)
  }

  /** The start action of the running request. Without a device it reports a
      failure at once, which finishes the request. */
  ghost function StartSpec(s: AdaptorState): (t: AdaptorState)
    requires WF(s) && s.current.Some? && s.timer.None?
    ensures Keeps(s, t)
    decreases Measure(s), 9
  {
    var r := s.current.value;
    if s.proxy.Some? then
      s.(timer := Some(Timer(r.reqID, TimeoutOf(r.kind))), events := s.events + [StartEvent(r, s.proxy.value.deviceID)])
    else if r.kind.EnrollRequest? then
      EnrollStatusSpec(s, "", 0, EnrollFail)
    else
      IdentifyStatusSpec(s, "", IdentifyNotMatch)
  }

  /** onIdentifyStatus: forward to the running request's source; a match or a
      mismatch finishes the request. */
  ghost function IdentifyStatusSpec(s: AdaptorState, featureID: string, result: IdentifyResult): (t: AdaptorState)
    requires WF(s)
    ensures Keeps(s, t)
    decreases Measure(s), if s.current.None? then 13 else 7
  {
    var s1 := if s.current.Some? then s.(events := s.events + [IdentifyStatusTo(s.current.value.source, featureID, result)]) else s;
    if result == IdentifyNotMatch || result == IdentifyMatch then FinishSpec(s1) else s1
  }

  /** onEnrollStatus: forward; completion or failure finishes the request. */
  ghost function EnrollStatusSpec(s: AdaptorState, featureID: string, progress: int, result: EnrollResult): (t: AdaptorState)
    requires WF(s)
    ensures Keeps(s, t)
    decreases Measure(s), if s.current.None? then 13 else 7
  {
    var s1 := if s.current.Some? then s.(events := s.events + [EnrollStatusTo(s.current.value.source, featureID, progress, result)]) else s;
    if result == EnrollComplete || result == EnrollFail then FinishSpec(s1) else s1
  }

  /** finishRequest: end the running request and drop it, then reschedule. */
  ghost function FinishSpec(s: AdaptorState): (t: AdaptorState)
    requires WF(s)
    ensures Keeps(s, t)
    decreases Measure(s), if s.current.None? then 12 else 0
  {
    if s.current.Some? then
      var r := s.current.value;
      ScheduleSpec(s.(timer := None, events := s.events + [Ended(r.source)], requests := s.requests - {r.reqID}, current := None))
    else
      ScheduleSpec(s)
  }

  /** schedule: run the best waiting request, if any. */
  ghost function ScheduleSpec(s: AdaptorState): (t: AdaptorState)
    requires WF(s)
    ensures Keeps(s, t)
    decreases Measure(s), 11
  {
    if s.requests == map[] then s
    else WakeSpec(s, s.requests[BestKey(s.requests)])
  }

  /** wakeRequest: make `r` the running request unless it already is. */
  ghost function WakeSpec(s: AdaptorState, r: Request): (t: AdaptorState)
    requires WF(s) && r.reqID in s.requests && s.requests[r.reqID] == r
    ensures Keeps(s, t)
    ensures s.current == Some(r) ==> t == s
    decreases Measure(s), 10
  {
    if s.current == Some(r) then s
    else StartSpec(InterruptSpec(s).(current := Some(r)))
  }

  /** pushRequest: queue `r`, tell its source, and run it at once when nothing
      runs or it outranks the running request. */
  ghost function PushSpec(s: AdaptorState, r: Request): (t: AdaptorState)
    requires WF(s) && r.reqID !in s.requests && 0 <= r.reqID
    ensures WF(t) && t.proxy == s.proxy && t.deviceID == s.deviceID && t.requestIDCount == s.requestIDCount
    ensures t.requests.Keys <= s.requests.Keys + {r.reqID}
  {
    var s1 := s.(requests := s.requests[r.reqID := r], events := s.events + [Queued(r.source, r.reqID)]);
    if s1.current.None? || r.source.priority > s1.current.value.source.priority then WakeSpec(s1, r) else s1
  }

  /** removeRequest: cancel and end one request; reschedule if the device fell idle. */
  ghost function RemoveSpec(s: AdaptorState, id: int): (t: AdaptorState)
    requires WF(s)
    ensures Keeps(s, t) && id !in t.requests
    ensures id !in s.requests ==> t == s
  {
    if id !in s.requests then s
    else
      var r := s.requests[id];
      var s1 := if s.current.Some? && s.current.value.reqID == id then InterruptSpec(s) else s;
      var s2 := s1.(events := s1.events + [Cancelled(r.source), Ended(r.source)], requests := s1.requests - {id});
      if s2.current.None? && s2.requests != map[] then ScheduleSpec(s2) else s2
  }

  /** Cancel-and-end callbacks for every request, in ascending id order. */
  ghost function CancelEndAll(m: map<int, Request>): seq<Event>
    decreases |m|
  {
    if m == map[] then []
    else
      var k := MinKey(m.Keys);
      [Cancelled(m[k].source), Ended(m[k].source)] + CancelEndAll(m - {k})
  }

  /** removeAllRequest: interrupt the running request, then cancel and end all. */
  ghost function RemoveAllSpec(s: AdaptorState): (t: AdaptorState)
    requires WF(s)
    ensures WF(t) && t.requests == map[] && t.current.None? && t.timer.None?
  {
    var s1 := InterruptSpec(s);
    s1.(events := s1.events + CancelEndAll(s1.requests), requests := map[])
  }

  /** generateRequestID: the next id, restarting after LONG_LONG_MAX; a request
      still holding that id is removed first. */
  ghost function GenerateIdSpec(s: AdaptorState): (t: AdaptorState)
    requires WF(s)
    ensures WF(t) && t.requestIDCount !in t.requests
    ensures t.requestIDCount == (if s.requestIDCount >= LONG_LONG_MAX then 0 else s.requestIDCount) + 1
    ensures t.requests.Keys <= s.requests.Keys && t.proxy == s.proxy && t.deviceID == s.deviceID
  {
    var c := (if s.requestIDCount >= LONG_LONG_MAX then 0 else s.requestIDCount) + 1;
    var s1 := s.(requestIDCount := c);
    if c in s1.requests then RemoveSpec(s1, c) else s1
  }

  /** enroll / identify: a fresh request made at time `now`. */
  ghost function SubmitSpec(s: AdaptorState, source: Source, kind: RequestKind, now: int): (t: AdaptorState)
    requires WF(s)
    ensures WF(t)
  {
    var s1 := GenerateIdSpec(s);
    PushSpec(s1, Request(s1.requestIDCount, now, source, kind))
  }

  /** updateDBusDeviceProxy: switching to a different device interrupts the
      running request and reschedules on the new device. */
  ghost function UpdateProxySpec(s: AdaptorState, p: Option<DeviceProxy>): (t: AdaptorState)
    requires WF(s)
    ensures WF(t) && t.requestIDCount == s.requestIDCount
  {
    if p.None? then s
    else if s.proxy.None? || s.proxy.value.deviceID != p.value.deviceID then
      ScheduleSpec(InterruptSpec(s.(proxy := p, deviceID := p.value.deviceID)))
    else s
  }

  /** onActiveSessionChanged: drop everything queued, then reschedule. */
  ghost function ActiveSessionChangedSpec(s: AdaptorState): (t: AdaptorState)
    requires WF(s)
    ensures WF(t)
  {
    ScheduleSpec(RemoveAllSpec(s))
  }

  /** onDeviceOccupyTimeout: the running request has held the device too long. */
  ghost function OccupyTimeoutSpec(s: AdaptorState): (t: AdaptorState)
    requires WF(s) && s.current.Some?
    ensures WF(t)
  {
    RemoveSpec(s, s.current.value.reqID)
  }

  const InitialState: AdaptorState := AdaptorState(map[], None, -1, None, "", None, [])

  // ---- Properties ----

  /** With a device, scheduling runs the best waiting request (highest
      priority, then earliest, then lowest id) and starts it on the device. */
  lemma ScheduleRunsBest(s: AdaptorState)
    requires WF(s) && s.proxy.Some? && s.current.None? && s.requests != map[]
    ensures var t := ScheduleSpec(s);
      t.current.Some? && IsBest(s.requests, t.current.value.reqID)
      && t.requests == s.requests
      && t.timer == Some(Timer(t.current.value.reqID, TimeoutOf(t.current.value.kind)))
      && t.events == s.events + [StartEvent(t.current.value, s.deviceID)]
  {
    var r := s.requests[BestKey(s.requests)];
    assert InterruptSpec(s) == s;
    assert ScheduleSpec(s) == WakeSpec(s, r) == StartSpec(s.(current := Some(r)));
  }

  /** The events a queue without device produces while draining `m`. */
  ghost function DrainEvents(m: map<int, Request>): seq<Event>
    requires IdsMatch(m)
    decreases |m|
  {
    if m == map[] then []
    else
      var r := m[BestKey(m)];
      [NoDeviceStatus(r), Ended(r.source)] + DrainEvents(m - {r.reqID})
  }

  /** Without a device, scheduling fails every waiting request in scheduling
      order and empties the queue; the timer is never armed. */
  lemma {:induction false} ScheduleWithoutDevice(s: AdaptorState)
    requires WF(s) && s.proxy.None? && s.current.None?
    ensures ScheduleSpec(s) == s.(requests := map[], events := s.events + DrainEvents(s.requests))
    decreases |s.requests|
  {
    if s.requests != map[] {
      var r := s.requests[BestKey(s.requests)];
      var s0 := s.(current := Some(r));
      assert InterruptSpec(s) == s;
      assert WakeSpec(s, r) == StartSpec(s0);
      var s1 := s0.(events := s0.events + [NoDeviceStatus(r)]);
      var s2 := s1.(timer := None, events := s1.events + [Ended(r.source)], requests := s1.requests - {r.reqID}, current := None);
      if r.kind.EnrollRequest? {
        assert StartSpec(s0) == EnrollStatusSpec(s0, "", 0, EnrollFail) == FinishSpec(s1);
      } else {
        assert StartSpec(s0) == IdentifyStatusSpec(s0, "", IdentifyNotMatch) == FinishSpec(s1);
      }
      assert FinishSpec(s1) == ScheduleSpec(s2);
      ScheduleWithoutDevice(s2);
      var pair := [NoDeviceStatus(r), Ended(r.source)];
      assert s2.events == s.events + pair;
      assert DrainEvents(s.requests) == pair + DrainEvents(s2.requests);
      AppendAssoc(s.events, pair, DrainEvents(s2.requests));
    }
  }

  /** A pushed request runs at once exactly when nothing runs or it strictly
      outranks the running request; a pre-empted request stays queued. */
  lemma PushPreempts(s: AdaptorState, r: Request)
    requires Inv(s) && s.proxy.Some? && r.reqID !in s.requests && 0 <= r.reqID
    ensures var t := PushSpec(s, r);
      (t.current == Some(r) <==> s.current.None? || r.source.priority > s.current.value.source.priority)
      && t.requests == s.requests[r.reqID := r]
      && (t.current == Some(r) && s.current.Some? ==> Interrupted(s.current.value.source) in t.events)
      && Inv(t)
  {
    var t := PushSpec(s, r);
    var s1 := s.(requests := s.requests[r.reqID := r], events := s.events + [Queued(r.source, r.reqID)]);
    if s1.current.None? || r.source.priority > s1.current.value.source.priority {
      var s2 := InterruptSpec(s1);
      assert t == StartSpec(s2.(current := Some(r)));
      if s.current.Some? {
        assert s2.events[|s2.events| - 1] == Interrupted(s.current.value.source);
      }
    } else {
      assert t == s1;
    }
  }

  /** Without a device a pushed request is failed and ended synchronously:
      the queue stays empty and the timer is never armed. */
  lemma PushWithoutDevice(s: AdaptorState, r: Request)
    requires Inv(s) && s.proxy.None? && r.reqID !in s.requests && 0 <= r.reqID
    ensures PushSpec(s, r) == s.(events := s.events + [Queued(r.source, r.reqID), NoDeviceStatus(r), Ended(r.source)])
  {
    var s1 := s.(requests := s.requests[r.reqID := r], events := s.events + [Queued(r.source, r.reqID)]);
    assert s.requests == map[];
    var s0 := s1.(current := Some(r));
    var s2 := s0.(events := s0.events + [NoDeviceStatus(r)]);
    var s3 := s2.(timer := None, events := s2.events + [Ended(r.source)], requests := s2.requests - {r.reqID}, current := None);
    assert s3.requests == map[];
    if r.kind.EnrollRequest? {
      assert StartSpec(s0) == EnrollStatusSpec(s0, "", 0, EnrollFail) == FinishSpec(s2);
    } else {
      assert StartSpec(s0) == IdentifyStatusSpec(s0, "", IdentifyNotMatch) == FinishSpec(s2);
    }
    assert FinishSpec(s2) == ScheduleSpec(s3) == s3;
  }

  /** Scheduling leaves the queue settled: something runs, with its timer
      armed, whenever anything waits. */
  lemma ScheduleSettles(s: AdaptorState)
    requires WF(s) && (s.current.Some? ==> s.timer.Some?)
    ensures Inv(ScheduleSpec(s))
  {
    if s.requests == map[] {
    } else if s.proxy.None? {
      ScheduleWithoutDevice(s);
    } else {
      var r := s.requests[BestKey(s.requests)];
      if s.current != Some(r) {
        assert ScheduleSpec(s) == StartSpec(InterruptSpec(s).(current := Some(r)));
      }
    }
  }

  /** removeRequest with a device: the request's source is cancelled and then
      ended, and only the running request is interrupted first; the rest of
      the queue is untouched and the best remaining request takes over. */
  lemma RemoveCancelsThenEnds(s: AdaptorState, id: int)
    requires Inv(s) && s.proxy.Some? && id in s.requests
    ensures var r := s.requests[id];
      var t := RemoveSpec(s, id);
      t.requests == s.requests - {id}
      && (s.current == Some(r) ==>
            |t.events| >= |s.events| + 4
            && t.events[..|s.events| + 4] == s.events + [StopEvent(r, s.deviceID), Interrupted(r.source), Cancelled(r.source), Ended(r.source)]
            && (t.requests != map[] ==> t.current.Some? && IsBest(t.requests, t.current.value.reqID)))
      && (s.current != Some(r) ==>
            t == s.(requests := s.requests - {id}, events := s.events + [Cancelled(r.source), Ended(r.source)]))
      && Inv(t)
  {
    var r := s.requests[id];
    var t := RemoveSpec(s, id);
    if s.current == Some(r) {
      var s1 := InterruptSpec(s);
      var s2 := s1.(events := s1.events + [Cancelled(r.source), Ended(r.source)], requests := s1.requests - {id});
      assert s2.events == s.events + [StopEvent(r, s.deviceID), Interrupted(r.source), Cancelled(r.source), Ended(r.source)];
      if s2.requests != map[] {
        ScheduleRunsBest(s2);
        ScheduleSettles(s2);
      }
    } else {
      assert s.current.Some?;
    }
  }

  /** removeRequest keeps the invariant, for any id and with or without a device. */
  lemma RemoveKeepsInv(s: AdaptorState, id: int)
    requires Inv(s)
    ensures Inv(RemoveSpec(s, id))
  {
    if id in s.requests {
      var r := s.requests[id];
      var s1 := if s.current.Some? && s.current.value.reqID == id then InterruptSpec(s) else s;
      var s2 := s1.(events := s1.events + [Cancelled(r.source), Ended(r.source)], requests := s1.requests - {id});
      if s2.current.None? && s2.requests != map[] {
        ScheduleSettles(s2);
      }
    }
  }

  /** onIdentifyStatus: only a match or a mismatch finishes the running
      request, which is ended right after its status is forwarded; any other
      status is forwarded and changes nothing else. */
  lemma IdentifyStatusFinishesOnVerdict(s: AdaptorState, featureID: string, result: IdentifyResult)
    requires Inv(s)
    ensures var t := IdentifyStatusSpec(s, featureID, result);
      (result != IdentifyMatch && result != IdentifyNotMatch ==>
         t == s.(events := s.events + (if s.current.Some? then [IdentifyStatusTo(s.current.value.source, featureID, result)] else [])))
      && ((result == IdentifyMatch || result == IdentifyNotMatch) && s.current.Some? && s.proxy.Some? ==>
         var r := s.current.value;
         t.requests == s.requests - {r.reqID}
         && |t.events| >= |s.events| + 2
         && t.events[..|s.events| + 2] == s.events + [IdentifyStatusTo(r.source, featureID, result), Ended(r.source)])
      && Inv(t)
  {
    if (result == IdentifyMatch || result == IdentifyNotMatch) && s.current.Some? {
      var r := s.current.value;
      var s1 := s.(events := s.events + [IdentifyStatusTo(r.source, featureID, result)]);
      var s2 := s1.(timer := None, events := s1.events + [Ended(r.source)], requests := s1.requests - {r.reqID}, current := None);
      assert IdentifyStatusSpec(s, featureID, result) == FinishSpec(s1) == ScheduleSpec(s2);
      ScheduleSettles(s2);
      if s.proxy.Some? && s2.requests != map[] {
        ScheduleRunsBest(s2);
      }
    } else if result == IdentifyMatch || result == IdentifyNotMatch {
      assert IdentifyStatusSpec(s, featureID, result) == FinishSpec(s) == ScheduleSpec(s) == s;
    }
  }

  /** onEnrollStatus: only completion or failure finishes the running request. */
  lemma EnrollStatusFinishesOnVerdict(s: AdaptorState, featureID: string, progress: int, result: EnrollResult)
    requires Inv(s)
    ensures var t := EnrollStatusSpec(s, featureID, progress, result);
      (result == EnrollInProgress ==>
         t == s.(events := s.events + (if s.current.Some? then [EnrollStatusTo(s.current.value.source, featureID, progress, result)] else [])))
      && (result != EnrollInProgress && s.current.Some? && s.proxy.Some? ==>
         var r := s.current.value;
         t.requests == s.requests - {r.reqID}
         && |t.events| >= |s.events| + 2
         && t.events[..|s.events| + 2] == s.events + [EnrollStatusTo(r.source, featureID, progress, result), Ended(r.source)])
      && Inv(t)
  {
    if result != EnrollInProgress && s.current.Some? {
      var r := s.current.value;
      var s1 := s.(events := s.events + [EnrollStatusTo(r.source, featureID, progress, result)]);
      var s2 := s1.(timer := None, events := s1.events + [Ended(r.source)], requests := s1.requests - {r.reqID}, current := None);
      assert EnrollStatusSpec(s, featureID, progress, result) == FinishSpec(s1) == ScheduleSpec(s2);
      ScheduleSettles(s2);
      if s.proxy.Some? && s2.requests != map[] {
        ScheduleRunsBest(s2);
      }
    } else if result != EnrollInProgress {
      assert EnrollStatusSpec(s, featureID, progress, result) == FinishSpec(s) == ScheduleSpec(s) == s;
    }
  }

  /** The occupancy timer fires only for the running request; it is stopped,
      interrupted, cancelled and ended, in that order, and leaves the queue. */
  lemma TimeoutRemovesRunning(s: AdaptorState)
    requires Inv(s) && s.timer.Some?
    ensures var r := s.current.value;
      var t := OccupyTimeoutSpec(s);
      t.requests == s.requests - {r.reqID}
      && |t.events| >= |s.events| + 4
      && t.events[..|s.events| + 4] == s.events + [StopEvent(r, s.deviceID), Interrupted(r.source), Cancelled(r.source), Ended(r.source)]
      && Inv(t)
  {
    RemoveCancelsThenEnds(s, s.current.value.reqID);
  }

  /** Switching to another device while a request runs sends that request's
      stop command to the NEW device, since the proxy is replaced before the
      running request is interrupted; the request is then restarted there. */
  lemma SwitchDeviceStopsOnNewDevice(s: AdaptorState, p: Option<DeviceProxy>)
    requires Inv(s) && s.current.Some? && p.Some? && s.deviceID != p.value.deviceID
    ensures var r := s.current.value;
      var t := UpdateProxySpec(s, p);
      t.current.Some?
      && t.events == s.events + [StopEvent(r, p.value.deviceID), Interrupted(r.source), StartEvent(t.current.value, p.value.deviceID)]
      && IsBest(s.requests, t.current.value.reqID)
      && t.requests == s.requests && t.deviceID == p.value.deviceID
      && Inv(t)
  {
    var s1 := InterruptSpec(s.(proxy := p, deviceID := p.value.deviceID));
    ScheduleRunsBest(s1);
    ScheduleSettles(s1);
  }

  /** Updating the device keeps the invariant, whatever the new proxy. */
  lemma UpdateProxyKeepsInv(s: AdaptorState, p: Option<DeviceProxy>)
    requires Inv(s)
    ensures Inv(UpdateProxySpec(s, p))
  {
    if p.Some? && (s.proxy.None? || s.proxy.value.deviceID != p.value.deviceID) {
      ScheduleSettles(InterruptSpec(s.(proxy := p, deviceID := p.value.deviceID)));
    }
  }

  lemma {:induction false} CancelEndAllPairs(m: map<int, Request>)
    ensures |CancelEndAll(m)| == 2 * |m|
    ensures forall i :: 0 <= i < |m| ==>
      CancelEndAll(m)[2 * i].Cancelled? && CancelEndAll(m)[2 * i + 1] == Ended(CancelEndAll(m)[2 * i].source)
    ensures forall k :: k in m ==> Cancelled(m[k].source) in CancelEndAll(m) && Ended(m[k].source) in CancelEndAll(m)
    decreases |m|
  {
    if m != map[] {
      var k := MinKey(m.Keys);
      var rest := CancelEndAll(m - {k});
      CancelEndAllPairs(m - {k});
      var all := CancelEndAll(m);
      assert all == [Cancelled(m[k].source), Ended(m[k].source)] + rest;
      forall i | 0 <= i < |m| ensures all[2 * i].Cancelled? && all[2 * i + 1] == Ended(all[2 * i].source) {
        if i > 0 {
          assert all[2 * i] == rest[2 * (i - 1)];
          assert all[2 * i + 1] == rest[2 * (i - 1) + 1];
        }
      }
      forall j | j in m ensures Cancelled(m[j].source) in all && Ended(m[j].source) in all {
        if j != k { assert j in m - {k}; }
      }
    }
  }

  /** A change of active session cancels and ends every queued request (in
      ascending id order, after interrupting the running one) and leaves the
      device idle. */
  lemma ActiveSessionChangeClears(s: AdaptorState)
    requires Inv(s)
    ensures var t := ActiveSessionChangedSpec(s);
      t.requests == map[] && t.current.None? && t.timer.None?
      && t.events == InterruptSpec(s).events + CancelEndAll(s.requests)
      && (forall k :: k in s.requests ==> Cancelled(s.requests[k].source) in t.events && Ended(s.requests[k].source) in t.events)
      && Inv(t)
  {
    var t := ActiveSessionChangedSpec(s);
    assert t == RemoveAllSpec(s);
    CancelEndAllPairs(s.requests);
    forall k | k in s.requests ensures Cancelled(s.requests[k].source) in t.events && Ended(s.requests[k].source) in t.events {
      assert t.events == InterruptSpec(s).events + CancelEndAll(s.requests);
    }
  }

  /** enroll / identify with a device: the new request gets the next id,
      is queued under it, its source hears of it, and it is never the request
      evicted to free the id. */
  lemma SubmitQueues(s: AdaptorState, source: Source, kind: RequestKind, now: int)
    requires Inv(s) && s.proxy.Some?
    ensures var t := SubmitSpec(s, source, kind, now);
      var id := (if s.requestIDCount >= LONG_LONG_MAX then 0 else s.requestIDCount) + 1;
      t.requestIDCount == id
      && id in t.requests && t.requests[id] == Request(id, now, source, kind)
      && Queued(source, id) in t.events
      && Inv(t)
  {
    var c := (if s.requestIDCount >= LONG_LONG_MAX then 0 else s.requestIDCount) + 1;
    var s1 := GenerateIdSpec(s);
    RemoveKeepsInv(s.(requestIDCount := c), c);
    assert Inv(s1);
    var r := Request(c, now, source, kind);
    PushPreempts(s1, r);
    var s2 := s1.(requests := s1.requests[c := r], events := s1.events + [Queued(source, c)]);
    assert Queued(source, c) in s2.events;
    assert s2.events <= PushSpec(s1, r).events by {
      if s2.current.None? || r.source.priority > s2.current.value.source.priority {
        assert PushSpec(s1, r) == WakeSpec(s2, r);
      }
    }
  }

  /** The first request of a new queue gets id 0. */
  lemma FirstRequestIdIsZero(p: Option<DeviceProxy>)
    ensures GenerateIdSpec(UpdateProxySpec(InitialState, p)).requestIDCount == 0
  {
    assert WF(InitialState);
  }

  /** enroll / identify keep the invariant, with or without a device. */
  lemma SubmitKeepsInv(s: AdaptorState, source: Source, kind: RequestKind, now: int)
    requires Inv(s)
    ensures Inv(SubmitSpec(s, source, kind, now))
  {
    if s.proxy.Some? {
      SubmitQueues(s, source, kind, now);
    } else {
      var c := (if s.requestIDCount >= LONG_LONG_MAX then 0 else s.requestIDCount) + 1;
      RemoveKeepsInv(s.(requestIDCount := c), c);
      var s1 := GenerateIdSpec(s);
      PushWithoutDevice(s1, Request(c, now, source, kind));
    }
  }

  // ---- The queue itself ----

  /** One device's request queue. `occupyTimer` is the single-shot occupancy
      timer: `Some` while armed. */
  class DeviceAdaptor {
    var requests: map<int, Request>
    var current: Option<Request>
    var requestIDCount: int
    var proxy: Option<DeviceProxy>
    var deviceID: string
    var occupyTimer: Option<Timer>
    var events: seq<Event>

    ghost function State(): AdaptorState
      reads this
    {
      AdaptorState(requests, current, requestIDCount, proxy, deviceID, occupyTimer, events)
    }

    ghost predicate Valid()
      reads this
    {
      Inv(State())
    }

    constructor(p: Option<DeviceProxy>)
      ensures State() == UpdateProxySpec(InitialState, p) && Valid()
    {
      requests := map[];
      current := None;
      requestIDCount := -1;
      proxy := None;
      deviceID := "";
      occupyTimer := None;
      events := [];
      new;
      UpdateProxyKeepsInv(InitialState, p);
      UpdateDBusDeviceProxy(p);
    }

    method GetDeviceID() returns (id: string)
      requires Valid()
      ensures id == deviceID && (proxy.Some? ==> id == proxy.value.deviceID)
    {
      id := deviceID;
    }

    method Enroll(source: Source, extra: string, now: int)
      requires Valid()
      modifies this
      ensures State() == SubmitSpec(old(State()), source, EnrollRequest(extra), now) && Valid()
    {
      SubmitKeepsInv(State(), source, EnrollRequest(extra), now);
      var id := GenerateRequestID();
      PushRequest(Request(id, now, source, EnrollRequest(extra)));
    }

    method Identify(source: Source, extra: string, now: int)
      requires Valid()
      modifies this
      ensures State() == SubmitSpec(old(State()), source, IdentifyRequest(extra), now) && Valid()
    {
      SubmitKeepsInv(State(), source, IdentifyRequest(extra), now);
      var id := GenerateRequestID();
      PushRequest(Request(id, now, source, IdentifyRequest(extra)));
    }

    method Stop(requestID: int)
      requires Valid()
      modifies this
      ensures State() == RemoveSpec(old(State()), requestID) && Valid()
    {
      RemoveKeepsInv(State(), requestID);
      RemoveRequest(requestID);
    }

    method RemoveAllRequest()
      requires WF(State())
      modifies this
      ensures State() == RemoveAllSpec(old(State()))
    {
      InterruptRequest();
      ghost var s1 := State();
      while requests != map[]
        invariant WF(State()) && current.None? && occupyTimer.None?
        invariant proxy == s1.proxy && deviceID == s1.deviceID && requestIDCount == s1.requestIDCount
        invariant s1.events + CancelEndAll(s1.requests) == events + CancelEndAll(requests)
        decreases |requests|
      {
        var k := LeastKey(requests.Keys);
        assert MinKey(requests.Keys) == k;
        var pair := [Cancelled(requests[k].source), Ended(requests[k].source)];
        assert CancelEndAll(requests) == pair + CancelEndAll(requests - {k});
        AppendAssoc(events, pair, CancelEndAll(requests - {k}));
        events := events + pair;
        requests := requests - {k};
      }
    }

    method UpdateDBusDeviceProxy(p: Option<DeviceProxy>)
      requires WF(State())
      modifies this
      ensures State() == UpdateProxySpec(old(State()), p)
    {
      if p.None? {
        return;
      }
      if proxy.None? || proxy.value.deviceID != p.value.deviceID {
        proxy := p;
        deviceID := p.value.deviceID;
        InterruptRequest();
        Schedule();
      }
    }

    method PushRequest(r: Request)
      requires WF(State()) && r.reqID !in requests && 0 <= r.reqID
      modifies this
      ensures State() == PushSpec(old(State()), r)
    {
      requests := requests[r.reqID := r];
      events := events + [Queued(r.source, r.reqID)];
      if current.None? || r.source.priority > current.value.source.priority {
        WakeRequest(r);
      }
    }

    method WakeRequest(r: Request)
      requires WF(State()) && r.reqID in requests && requests[r.reqID] == r
      modifies this
      ensures State() == WakeSpec(old(State()), r)
      decreases Measure(State()), 10
    {
      if current == Some(r) {
        return;
      }
      InterruptRequest();
      current := Some(r);
      StartRequest();
    }

    method RemoveRequest(requestID: int)
      requires WF(State())
      modifies this
      ensures State() == RemoveSpec(old(State()), requestID)
    {
      if requestID !in requests {
        return;
      }
      var r := requests[requestID];
      if current.Some? && requestID == current.value.reqID {
        InterruptRequest();
      }
      events := events + [Cancelled(r.source), Ended(r.source)];
      requests := requests - {requestID};
      assert |requests| > 0 <==> requests != map[];
      if current.None? && |requests| > 0 {
        Schedule();
      }
    }

    method InterruptRequest()
      requires WF(State())
      modifies this
      ensures State() == InterruptSpec(old(State()))
    {
      if current.Some? {
        var r := current.value;
        StopRequest();
        events := events + [Interrupted(r.source)];
        current := None;
      }
    }

    method FinishRequest()
      requires WF(State())
      modifies this
      ensures State() == FinishSpec(old(State()))
      decreases Measure(State()), if current.None? then 12 else 0
    {
      if current.Some? {
        var r := current.value;
        StopDeviceOccupyTimer();
        events := events + [Ended(r.source)];
        requests := requests - {r.reqID};
        current := None;
      }
      Schedule();
    }

    /** Scans the queue in ascending id order; a request replaces the
        candidate only when it has a strictly higher priority, or the same
        priority and a strictly earlier time. */
    method Schedule()
      requires WF(State())
      modifies this
      ensures State() == ScheduleSpec(old(State()))
      decreases Measure(State()), 11
    {
      if |requests| == 0 {
        return;
      }
      var m := requests;
      var best: Option<Request> := None;
      var rest := m.Keys;
      while rest != {}
        invariant State() == old(State()) && m == requests
        invariant rest <= m.Keys
        invariant best.None? <==> rest == m.Keys
        invariant best.Some? ==> best.value.reqID in m && m[best.value.reqID] == best.value
        invariant best.Some? ==> best.value.reqID !in rest
        invariant best.Some? ==> forall j :: j in m && j !in rest ==> Precedes(best.value, m[j])
        invariant forall i, j :: i in m && i !in rest && j in rest ==> i < j
        decreases |rest|
      {
        var k := LeastKey(rest);
        var r := m[k];
        if best.None?
          || r.source.priority > best.value.source.priority
          || (r.source.priority == best.value.source.priority && r.time < best.value.time)
        {
          best := Some(r);
        }
        rest := rest - {k};
      }
      BestUnique(m, best.value.reqID, BestKey(m));
      WakeRequest(best.value);
    }

    method GenerateRequestID() returns (id: int)
      requires WF(State())
      modifies this
      ensures State() == GenerateIdSpec(old(State())) && id == requestIDCount
    {
      if requestIDCount >= LONG_LONG_MAX {
        requestIDCount := 0;
      }
      requestIDCount := requestIDCount + 1;
      if requestIDCount in requests {
        RemoveRequest(requestIDCount);
      }
      id := requestIDCount;
    }

    /** The running request's start action. */
    method StartRequest()
      requires WF(State()) && current.Some? && occupyTimer.None?
      modifies this
      ensures State() == StartSpec(old(State()))
      decreases Measure(State()), 9
    {
      match current.value.kind
      case EnrollRequest(extra) => EnrollStart(extra);
      case IdentifyRequest(extra) => IdentifyStart(extra);
    }

    /** The running request's stop action. */
    method StopRequest()
      requires WF(State()) && current.Some?
      modifies this
      ensures var s := old(State());
        State() == if s.proxy.Some? then s.(timer := None, events := s.events + [StopEvent(s.current.value, s.deviceID)]) else s
    {
      if current.value.kind.EnrollRequest? {
        EnrollStop();
      } else {
        IdentifyStop();
      }
    }

    method EnrollStart(extra: string)
      requires WF(State()) && current.Some? && current.value.kind == EnrollRequest(extra) && occupyTimer.None?
      modifies this
      ensures State() == StartSpec(old(State()))
      decreases Measure(State()), 8
    {
      if proxy.Some? {
        StartDeviceOccupyTimer(ENROLL_TIMEOUT_MS);
        events := events + [DeviceEnrollStart(proxy.value.deviceID, extra)];
      } else {
        OnEnrollStatus("", 0, EnrollFail);
      }
    }

    method EnrollStop()
      requires WF(State()) && current.Some?
      modifies this
      ensures var s := old(State());
        State() == if s.proxy.Some? then s.(timer := None, events := s.events + [DeviceEnrollStop(s.deviceID)]) else s
    {
      if proxy.Some? {
        StopDeviceOccupyTimer();
        events := events + [DeviceEnrollStop(proxy.value.deviceID)];
      }
    }

    method IdentifyStart(extra: string)
      requires WF(State()) && current.Some? && current.value.kind == IdentifyRequest(extra) && occupyTimer.None?
      modifies this
      ensures State() == StartSpec(old(State()))
      decreases Measure(State()), 8
    {
      if proxy.Some? {
        StartDeviceOccupyTimer(IDENTIFY_TIMEOUT_MS);
        events := events + [DeviceIdentifyStart(proxy.value.deviceID, extra)];
      } else {
        OnIdentifyStatus("", IdentifyNotMatch);
      }
    }

    method IdentifyStop()
      requires WF(State()) && current.Some?
      modifies this
      ensures var s := old(State());
        State() == if s.proxy.Some? then s.(timer := None, events := s.events + [DeviceIdentifyStop(s.deviceID)]) else s
    {
      if proxy.Some? {
        StopDeviceOccupyTimer();
        events := events + [DeviceIdentifyStop(proxy.value.deviceID)];
      }
    }

    /** Arms the timer for the running request (which must exist: the source
        reads its id). */
    method StartDeviceOccupyTimer(ms: int)
      requires current.Some?
      modifies this
      ensures State() == old(State()).(timer := Some(Timer(old(current).value.reqID, ms)))
    {
      occupyTimer := Some(Timer(current.value.reqID, ms));
    }

    method StopDeviceOccupyTimer()
      requires current.Some?
      modifies this
      ensures State() == old(State()).(timer := None)
    {
      occupyTimer := None;
    }

    method OnEnrollStatus(featureID: string, progress: int, result: EnrollResult)
      requires WF(State())
      modifies this
      ensures State() == EnrollStatusSpec(old(State()), featureID, progress, result)
      decreases Measure(State()), if current.None? then 13 else 7
    {
      if current.Some? {
        events := events + [EnrollStatusTo(current.value.source, featureID, progress, result)];
      }
      if result == EnrollComplete || result == EnrollFail {
        FinishRequest();
      }
    }

    method OnIdentifyStatus(featureID: string, result: IdentifyResult)
      requires WF(State())
      modifies this
      ensures State() == IdentifyStatusSpec(old(State()), featureID, result)
      decreases Measure(State()), if current.None? then 13 else 7
    {
      if current.Some? {
        events := events + [IdentifyStatusTo(current.value.source, featureID, result)];
      }
      if result == IdentifyNotMatch || result == IdentifyMatch {
        FinishRequest();
      }
    }

    method OnActiveSessionChanged()
      requires Valid()
      modifies this
      ensures State() == ActiveSessionChangedSpec(old(State())) && Valid()
    {
      ActiveSessionChangeClears(State());
      RemoveAllRequest();
      Schedule();
    }

    /** Fires only while armed, hence while a request runs. */
    method OnDeviceOccupyTimeout()
      requires Valid() && occupyTimer.Some?
      modifies this
      ensures State() == OccupyTimeoutSpec(old(State())) && Valid()
    {
      TimeoutRemovesRunning(State());
      RemoveRequest(current.value.reqID);
    }
  }
}
