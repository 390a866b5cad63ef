// The older device queue (src/daemon/device/device-request-controller.cpp).
// It pairs each request with the target to notify, and schedules only
// requests whose source process belongs to the active login session. Which
// processes those are is asked of the login manager; here it is the set
// `active`, supplied from outside.
module DeviceRequestControllerModel {
  import opened KasTypes
  import opened DeviceProtocol

  /** The request record this queue works with; it carries the request type. */
  datatype CtlRequest = CtlRequest(reqID: int, reqType: int, time: int, source: Source)

  /** A request with the target told about it; `target` names the target. */
  datatype Combo = Combo(request: CtlRequest, target: nat)

  /** The calls the queue makes on targets. */
  datatype TargetEvent = TargetInterrupt(target: nat) | TargetSchedule(target: nat) | TargetEnd(target: nat)

  datatype CtlState = CtlState(
    combos: map<int, Combo>,
    current: Option<Combo>,
    active: set<int>,
    events: seq<TargetEvent>)

  ghost predicate KeysMatch(m: map<int, Combo>)
  {
    forall k :: k in m ==> m[k].request.reqID == k
  }

  /** The running combo, if any, is the one queued under its id. */
  ghost predicate Inv(s: CtlState)
  {
    KeysMatch(s.combos)
    && (s.current.Some? ==> s.current.value.request.reqID in s.combos && s.combos[s.current.value.request.reqID] == s.current.value)
  }

  predicate Active(c: Combo, active: set<int>)
  {
    c.request.source.pid in active
  }

  predicate ComboBefore(a: Combo, b: Combo)
  {
    RunsBefore(a.request.source.priority, a.request.time, a.request.reqID, b.request.source.priority, b.request.time, b.request.reqID)
  }

  /** `k` is the best combo among those of the active session. */
  ghost predicate IsBestActive(m: map<int, Combo>, active: set<int>, k: int)
  {
    k in m && Active(m[k], active)
    && forall j :: j in m && Active(m[j], active) ==> ComboBefore(m[k], m[j])
  }

  ghost predicate AnyActive(m: map<int, Combo>, active: set<int>)
  {
    exists k :: k in m && Active(m[k], active)
  }

  lemma {:induction false} BestActiveExists(m: map<int, Combo>, active: set<int>)
    requires KeysMatch(m) && AnyActive(m, active)
    ensures exists k :: IsBestActive(m, active, k)
    decreases |m|
  {
    var x :| x in m && Active(m[x], active);
    var rest := m - {x};
    forall j | j in m && Active(m[j], active) && j != x ensures j in rest && Active(rest[j], active) {
    }
    if !AnyActive(rest, active) {
      assert IsBestActive(m, active, x);
    } else {
      BestActiveExists(rest, active);
      var b :| IsBestActive(rest, active, b);
      if ComboBefore(m[x], m[b]) {
        forall j | j in m && Active(m[j], active) ensures ComboBefore(m[x], m[j]) {
          if j != x { assert j in rest; assert ComboBefore(m[b], m[j]); }
        }
        assert IsBestActive(m, active, x);
      } else {
        forall j | j in m && Active(m[j], active) ensures ComboBefore(m[b], m[j]) {
          if j != x { assert j in rest; }
        }
        assert IsBestActive(m, active, b);
      }
    }
  }

  lemma BestActiveUnique(m: map<int, Combo>, active: set<int>, a: int, b: int)
    requires KeysMatch(m) && IsBestActive(m, active, a) && IsBestActive(m, active, b)
    ensures a == b
  {
    assert ComboBefore(m[a], m[b]) && ComboBefore(m[b], m[a]);
  }

  ghost function BestActiveKey(m: map<int, Combo>, active: set<int>): (k: int)
    requires KeysMatch(m) && AnyActive(m, active)
    ensures IsBestActive(m, active, k)
  {
    BestActiveExists(m, active);
    var k :| IsBestActive(m, active, k); k
  }

  // ---- Specification of the operations ----

  ghost function InterruptSpec(s: CtlState): (t: CtlState)
    ensures t.current.None? && t.combos == s.combos && t.active == s.active
  {
    if s.current.None? then s
    else s.(events := s.events + [TargetInterrupt(s.current.value.target)], current := None)
  }

  /** wakeRequest: run `c` unless its request is already the running one. */
  ghost function WakeSpec(s: CtlState, c: Combo): (t: CtlState)
    ensures t.combos == s.combos && t.active == s.active && (t == s || t.current == Some(c))
  {
    if s.current.Some? && s.current.value.request == c.request then s
    else
      var s1 := InterruptSpec(s);
      s1.(current := Some(c), events := s1.events + [TargetSchedule(c.target)])
  }

  ghost function ScheduleSpec(s: CtlState): (t: CtlState)
    requires KeysMatch(s.combos)
    ensures t.combos == s.combos && t.active == s.active
  {
    if s.combos == map[] || !AnyActive(s.combos, s.active) then s
    else WakeSpec(s, s.combos[BestActiveKey(s.combos, s.active)])
  }

  /** pushRequest: queue `c` under its id (replacing any combo already there)
      and run it when nothing runs or it strictly outranks the running one. */
  ghost function PushSpec(s: CtlState, c: Combo): (t: CtlState)
    ensures t.combos == s.combos[c.request.reqID := c] && t.active == s.active
  {
    var s1 := s.(combos := s.combos[c.request.reqID := c]);
    if s1.current.None? || c.request.source.priority > s1.current.value.request.source.priority then WakeSpec(s1, c)
    else s1
  }

  /** removeRequest. `None` stands for the null dereference of the running
      combo, which happens when the id is queued but nothing runs. */
  ghost function RemoveSpec(s: CtlState, id: int): (t: Option<CtlState>)
    requires KeysMatch(s.combos)
    ensures t.None? <==> id in s.combos && s.current.None?
    ensures t.Some? ==> id !in t.value.combos && KeysMatch(t.value.combos)
    ensures id !in s.combos ==> t == Some(s)
  {
    if id !in s.combos then Some(s)
    else if s.current.None? then None
    else
      var c := s.combos[id];
      var s1 := if id == s.current.value.request.reqID then InterruptSpec(s) else s;
      var s2 := s1.(events := s1.events + [TargetEnd(c.target)], combos := s1.combos - {id});
      if s2.current.None? && |s2.combos| > 0 then Some(ScheduleSpec(s2)) else Some(s2)
  }

  ghost function FinishSpec(s: CtlState): (t: CtlState)
    requires KeysMatch(s.combos)
    ensures KeysMatch(t.combos)
  {
    if s.current.Some? then
      var c := s.current.value;
      ScheduleSpec(s.(events := s.events + [TargetEnd(c.target)], combos := s.combos - {c.request.reqID}, current := None))
    else ScheduleSpec(s)
  }

  /** onActiveSessionChanged, after the login manager reports the processes
      of the new active session as `active`. */
  ghost function ActiveChangedSpec(s: CtlState, active: set<int>): (t: CtlState)
    requires KeysMatch(s.combos)
    ensures t.combos == s.combos && t.active == active
  {
    var s0 := s.(active := active);
    var s1 := if s0.current.Some? && !Active(s0.current.value, active) then InterruptSpec(s0) else s0;
    if s1.current.None? then ScheduleSpec(s1) else s1
  }

  // ---- Properties ----

  /** Scheduling runs the best request of the active session, and leaves an
      idle queue idle when no queued request belongs to it. */
  lemma ScheduleRunsBestActive(s: CtlState)
    requires Inv(s) && s.current.None?
    ensures var t := ScheduleSpec(s);
      (AnyActive(s.combos, s.active) ==>
         t.current.Some? && IsBestActive(s.combos, s.active, t.current.value.request.reqID)
         && t.events == s.events + [TargetSchedule(t.current.value.target)])
      && (!AnyActive(s.combos, s.active) ==> t == s)
      && Inv(t)
  {
  }

  /** A pushed combo with a fresh id runs at once exactly when nothing runs or
      it strictly outranks the running combo; the invariant is kept. */
  lemma PushPreempts(s: CtlState, c: Combo)
    requires Inv(s) && c.request.reqID !in s.combos
    ensures var t := PushSpec(s, c);
      (t.current == Some(c) <==> s.current.None? || c.request.source.priority > s.current.value.request.source.priority)
      && (t.current == Some(c) && s.current.Some? ==> t.events == s.events + [TargetInterrupt(s.current.value.target), TargetSchedule(c.target)])
      && (t.current != Some(c) ==> t.current == s.current && t.events == s.events)
      && Inv(t)
  {
    if s.current.Some? {
      assert s.current.value.request.reqID != c.request.reqID;
    }
  }

  /** The id is not checked on push: a combo pushed under the running combo's
      id without outranking it replaces the map entry, and the running combo
      is no longer queued. */
  lemma DuplicatePushOrphansRunning(s: CtlState, c: Combo)
    requires Inv(s) && s.current.Some? && c.request.reqID == s.current.value.request.reqID
    requires c != s.current.value && c.request.source.priority <= s.current.value.request.source.priority
    ensures var t := PushSpec(s, c);
      t.current == s.current && t.combos[c.request.reqID] == c && !Inv(t)
  {
  }

  /** Waking the running request changes nothing. */
  lemma WakeRunningIsNoop(s: CtlState)
    requires s.current.Some?
    ensures WakeSpec(s, s.current.value) == s
  {
  }

  /** removeRequest on a queued id while something runs: the target is ended
      once, after an interrupt only if it was the running one; the invariant
      is kept. */
  lemma RemoveEnds(s: CtlState, id: int)
    requires Inv(s) && id in s.combos && s.current.Some?
    ensures var c := s.combos[id];
      var t := RemoveSpec(s, id).value;
      t.combos == s.combos - {id}
      && (s.current.value == c ==>
            |t.events| >= |s.events| + 2
            && t.events[..|s.events| + 2] == s.events + [TargetInterrupt(c.target), TargetEnd(c.target)])
      && (s.current.value != c ==> t == s.(events := s.events + [TargetEnd(c.target)], combos := s.combos - {id}))
      && Inv(t)
  {
    var c := s.combos[id];
    if s.current.value == c {
      var s2 := InterruptSpec(s).(events := InterruptSpec(s).events + [TargetEnd(c.target)], combos := s.combos - {id});
      assert s2.events == s.events + [TargetInterrupt(c.target), TargetEnd(c.target)];
      if |s2.combos| > 0 {
        ScheduleRunsBestActive(s2);
      }
    }
  }

  /** The null dereference is reachable: a request runs while its session is
      active, the session changes so nothing else is eligible, and the
      request is then removed. */
  lemma RemoveAfterSessionChangeCrashes(c: Combo)
    requires c.request.reqID >= 0
    ensures var s0 := CtlState(map[], None, {c.request.source.pid}, []);
      var s1 := PushSpec(s0, c);
      var s2 := ActiveChangedSpec(s1, {});
      s1.current == Some(c) && s2.current.None? && c.request.reqID in s2.combos
      && RemoveSpec(s2, c.request.reqID).None?
  {
    var s0 := CtlState(map[], None, {c.request.source.pid}, []);
    var s1 := PushSpec(s0, c);
    var s2 := ActiveChangedSpec(s1, {});
    assert !AnyActive(s2.combos, {});
  }

  /** finishRequest ends and drops the running combo, then schedules. */
  lemma FinishEndsRunning(s: CtlState)
    requires Inv(s) && s.current.Some?
    ensures var c := s.current.value;
      var t := FinishSpec(s);
      t.combos == s.combos - {c.request.reqID}
      && |t.events| >= |s.events| + 1 && t.events[..|s.events| + 1] == s.events + [TargetEnd(c.target)]
      && Inv(t)
  {
    var c := s.current.value;
    ScheduleRunsBestActive(s.(events := s.events + [TargetEnd(c.target)], combos := s.combos - {c.request.reqID}, current := None));
  }

  /** A session change interrupts the running combo exactly when its process
      left the active session, and then schedules among the new session's
      requests. */
  lemma ActiveChangeReschedules(s: CtlState, active: set<int>)
    requires Inv(s)
    ensures var t := ActiveChangedSpec(s, active);
      (s.current.Some? && Active(s.current.value, active) ==> t == s.(active := active))
      && (s.current.Some? && !Active(s.current.value, active) ==>
            |t.events| >= |s.events| + 1 && t.events[|s.events|] == TargetInterrupt(s.current.value.target))
      && (t.current.Some? ==> Active(t.current.value, active) || t.current == s.current)
      && Inv(t)
  {
    var s0 := s.(active := active);
    if s.current.None? || !Active(s.current.value, active) {
      ScheduleRunsBestActive(InterruptSpec(s0));
    }
  }

  // ---- The queue itself ----

  class DeviceRequestController {
    var combos: map<int, Combo>
    var current: Option<Combo>
    var active: set<int>
    var events: seq<TargetEvent>

    ghost function State(): CtlState
      reads this
    {
      CtlState(combos, current, active, events)
    }

    constructor(active: set<int>)
      ensures State() == CtlState(map[], None, active, []) && Inv(State())
    {
      combos := map[];
      current := None;
      this.active := active;
      events := [];
    }

    method PushRequest(c: Combo)
      modifies this
      ensures State() == PushSpec(old(State()), c)
    {
      combos := combos[c.request.reqID := c];
      if current.None? || c.request.source.priority > current.value.request.source.priority {
        WakeRequest(c);
      }
    }

    /** Returns false, changing nothing, where the source dereferences the
        missing running combo. */
    method RemoveRequest(requestID: int) returns (ok: bool)
      requires KeysMatch(combos)
      modifies this
      ensures ok <==> RemoveSpec(old(State()), requestID).Some?
      ensures ok ==> State() == RemoveSpec(old(State()), requestID).value
      ensures !ok ==> State() == old(State())
    {
      if requestID !in combos {
        return true;
      }
      var c := combos[requestID];
      if current.None? {
        return false;
      }
      if requestID == current.value.request.reqID {
        InterruptRequest();
      }
      events := events + [TargetEnd(c.target)];
      combos := combos - {requestID};
      if current.None? && |combos| > 0 {
        Schedule();
      }
      ok := true;
    }

    method InterruptRequest()
      modifies this
      ensures State() == InterruptSpec(old(State()))
    {
      if current.Some? {
        events := events + [TargetInterrupt(current.value.target)];
        current := None;
      }
    }

    method FinishRequest()
      requires KeysMatch(combos)
      modifies this
      ensures State() == FinishSpec(old(State()))
    {
      if current.Some? {
        var c := current.value;
        events := events + [TargetEnd(c.target)];
        combos := combos - {c.request.reqID};
        current := None;
      }
      Schedule();
    }

    /** Scans the queue in ascending id order, skipping requests outside the
        active session; only a strictly better request replaces the candidate. */
    method Schedule()
      requires KeysMatch(combos)
      modifies this
      ensures State() == ScheduleSpec(old(State()))
    {
      if |combos| == 0 {
        return;
      }
      var m := combos;
      var best: Option<Combo> := None;
      var rest := m.Keys;
      while rest != {}
        invariant State() == old(State()) && m == combos
        invariant rest <= m.Keys
        invariant best.None? <==> forall j :: j in m && j !in rest ==> !Active(m[j], active)
        invariant best.Some? ==> best.value.request.reqID in m && m[best.value.request.reqID] == best.value
        invariant best.Some? ==> best.value.request.reqID !in rest && Active(best.value, active)
        invariant best.Some? ==> forall j :: j in m && j !in rest && Active(m[j], active) ==> ComboBefore(best.value, m[j])
        invariant forall i, j :: i in m && i !in rest && j in rest ==> i < j
        decreases |rest|
      {
        var k := LeastKey(rest);
        var c := m[k];
        if c.request.source.pid in active {
          if best.None?
            || c.request.source.priority > best.value.request.source.priority
            || (c.request.source.priority == best.value.request.source.priority && c.request.time < best.value.request.time)
          {
            best := Some(c);
          }
        }
        rest := rest - {k};
      }
      if best.Some? {
        BestActiveUnique(m, active, best.value.request.reqID, BestActiveKey(m, active));
        WakeRequest(best.value);
      }
    }

    method WakeRequest(c: Combo)
      modifies this
      ensures State() == WakeSpec(old(State()), c)
    {
      if current.Some? && current.value.request == c.request {
        return;
      }
      InterruptRequest();
      current := Some(c);
      events := events + [TargetSchedule(c.target)];
    }

    /** The login manager reports `newActive` as the processes of the new
        active session. */
    method OnActiveSessionChanged(newActive: set<int>)
      requires KeysMatch(combos)
      modifies this
      ensures State() == ActiveChangedSpec(old(State()), newActive)
    {
      active := newActive;
      if current.Some? && current.value.request.source.pid !in active {
        InterruptRequest();
      }
      if current.None? {
        Schedule();
      }
    }
  }
}
