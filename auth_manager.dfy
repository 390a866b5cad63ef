// The daemon's entry object (src/daemon/auth-manager.cpp): which factors an
// application is offered and in what order, which application a PAM service
// is, and the registry of authentication sessions with its random ids.
//
// The random generator is a sequence of draws handed to the id allocation;
// the D-Bus caller, the requested user's environment and the failure
// counters are parameters of session creation.
module AuthManagerModel {
  import opened KasTypes
  import opened KadError
  import opened AuthConfigModel
  import opened SessionModel

  /** Session ids are drawn from [1, MAX_SESSION_ID). */
  const MAX_SESSION_ID: int := 10000
  /** At most this many draws are made for one id. */
  const SESSION_ID_DRAWS: int := 11

  // ---- Factors offered to an application ----

  /** The configured order with every factor not in `enabled` erased. */
  function KeepEnabled(order: seq<int>, enabled: seq<int>): seq<int>
  {
    if order == [] then []
    else
      var last := order[|order| - 1];
      KeepEnabled(order[..|order| - 1], enabled) + (if last in enabled then [last] else [])
  }

  /** `base` followed by the elements of `extra` it does not hold yet, in
      the order of `extra`. */
  function AddMissing(base: seq<int>, extra: seq<int>): seq<int>
  {
    if extra == [] then base
    else
      var sorted := AddMissing(base, extra[..|extra| - 1]);
      var last := extra[|extra| - 1];
      if last in sorted then sorted else sorted + [last]
  }

  /** GetAuthTypeByApp: the configured order restricted to the enabled
      factors, then the other enabled factors, then the password. */
  function OrderedAuthTypes(enabled: seq<int>, order: seq<int>): seq<int>
  {
    AddMissing(KeepEnabled(order, enabled), enabled) + [AUTH_TYPE_PASSWORD]
  }

  /** Erasing over one more element of the order. */
  lemma KeepEnabledStep(order: seq<int>, n: nat, enabled: seq<int>)
    requires n < |order|
    ensures KeepEnabled(order[..n + 1], enabled)
         == KeepEnabled(order[..n], enabled) + (if order[n] in enabled then [order[n]] else [])
  {
    assert order[..n + 1][..n] == order[..n];
  }

  lemma {:induction false} KeepEnabledMembers(order: seq<int>, enabled: seq<int>)
    ensures forall t :: t in KeepEnabled(order, enabled) <==> t in order && t in enabled
  {
    if order != [] {
      KeepEnabledMembers(order[..|order| - 1], enabled);
      assert order == order[..|order| - 1] + [order[|order| - 1]];
    }
  }

  lemma {:induction false} AddMissingShape(base: seq<int>, extra: seq<int>)
    ensures var r := AddMissing(base, extra);
      |base| <= |r| && r[..|base|] == base
      && (forall t :: t in r <==> t in base || t in extra)
      && (forall i :: |base| <= i < |r| ==> r[i] in extra && r[i] !in base)
  {
    if extra != [] {
      var front := extra[..|extra| - 1];
      AddMissingShape(base, front);
      assert extra == front + [extra[|extra| - 1]];
      var sorted := AddMissing(base, front);
      var r := AddMissing(base, extra);
      if extra[|extra| - 1] !in sorted {
        assert r == sorted + [extra[|extra| - 1]];
        assert r[..|base|] == sorted[..|base|];
        forall i | |base| <= i < |r| ensures r[i] in extra && r[i] !in base {
          if i < |sorted| {
            assert r[i] == sorted[i];
          }
        }
      }
    }
  }

  /** The list ends in the password; every factor before it is enabled; every
      enabled factor is in it; it starts with the configured order restricted
      to the enabled factors, and what follows that prefix (before the
      password) was not configured. */
  lemma OrderedAuthTypesShape(enabled: seq<int>, order: seq<int>)
    ensures var r := OrderedAuthTypes(enabled, order);
      var kept := KeepEnabled(order, enabled);
      |r| > 0 && r[|r| - 1] == AUTH_TYPE_PASSWORD
      && (forall i :: 0 <= i < |r| - 1 ==> r[i] in enabled)
      && (forall t :: t in enabled ==> t in r)
      && |kept| < |r| && r[..|kept|] == kept
      && (forall i :: |kept| <= i < |r| - 1 ==> r[i] !in order)
  {
    var kept := KeepEnabled(order, enabled);
    KeepEnabledMembers(order, enabled);
    AddMissingShape(kept, enabled);
    var added := AddMissing(kept, enabled);
    var r := OrderedAuthTypes(enabled, order);
    assert r[..|added|] == added;
    forall i | 0 <= i < |r| - 1 ensures r[i] in enabled {
      assert r[i] == added[i];
      if i < |kept| {
        assert added[i] in kept;
      }
    }
    forall i | |kept| <= i < |r| - 1 ensures r[i] !in order {
      assert r[i] == added[i];
    }
  }

  /** The password appears exactly once when it is not among the enabled
      factors, as for every list the configuration produces. */
  lemma PasswordOnce(enabled: seq<int>, order: seq<int>)
    requires AUTH_TYPE_PASSWORD !in enabled
    ensures Count(OrderedAuthTypes(enabled, order), AUTH_TYPE_PASSWORD) == 1
  {
    var kept := KeepEnabled(order, enabled);
    var added := AddMissing(kept, enabled);
    KeepEnabledMembers(order, enabled);
    AddMissingShape(kept, enabled);
    CountZero(added, AUTH_TYPE_PASSWORD);
    CountAppend(added, [AUTH_TYPE_PASSWORD], AUTH_TYPE_PASSWORD);
    assert Count([AUTH_TYPE_PASSWORD], AUTH_TYPE_PASSWORD) == 1;
  }

  /** The configuration never offers the password itself. */
  lemma ConfiguredPasswordOnce(s: ConfigState, authApp: int)
    requires WF(s)
    ensures Count(OrderedAuthTypes(AuthTypesByApp(s, authApp), s.authOrder), AUTH_TYPE_PASSWORD) == 1
  {
    AuthTypesByAppExact(s, authApp);
    PasswordOnce(AuthTypesByApp(s, authApp), s.authOrder);
  }

  // ---- PAM services ----

  /** The PAM services the daemon knows, and their application. */
  const PAM_AUTH_APPS: map<string, int> := map[
    "lightdm" := AUTH_APP_LOGIN,
    "kiran-screensaver" := AUTH_APP_UNLOCK,
    "polkit-1" := AUTH_APP_EMPOWERMENT,
    "sudo" := AUTH_APP_EMPOWERMENT]

  /** QueryAuthApp: the application of a PAM service; none for any other. */
  function QueryAuthApp(pamServiceName: string): (authApp: int)
    ensures authApp != AUTH_APP_NONE <==> pamServiceName in PAM_AUTH_APPS
    ensures authApp == AUTH_APP_NONE || authApp in CONFIG_APPS
  {
    if pamServiceName in PAM_AUTH_APPS then PAM_AUTH_APPS[pamServiceName] else AUTH_APP_NONE
  }

  lemma QueryAuthAppTable(name: string)
    ensures QueryAuthApp("lightdm") == AUTH_APP_LOGIN
    ensures QueryAuthApp("kiran-screensaver") == AUTH_APP_UNLOCK
    ensures QueryAuthApp("polkit-1") == AUTH_APP_EMPOWERMENT && QueryAuthApp("sudo") == AUTH_APP_EMPOWERMENT
    ensures name != "lightdm" && name != "kiran-screensaver" && name != "polkit-1" && name != "sudo" ==>
      QueryAuthApp(name) == AUTH_APP_NONE
  {
  }

  // ---- Session ids ----

  /** The first draw not in `taken`; -1 when there is none. */
  function FirstFree(taken: set<int>, draws: seq<int>): int
  {
    if draws == [] then -1
    else if draws[0] !in taken then draws[0]
    else FirstFree(taken, draws[1..])
  }

  /** generateSessionID: the first of at most eleven draws that names no
      registered session; -1 when all of them do. */
  function SessionIdSpec(taken: set<int>, draws: seq<int>): int
    requires |draws| >= SESSION_ID_DRAWS
  {
    FirstFree(taken, draws[..SESSION_ID_DRAWS])
  }

  predicate DrawsInRange(draws: seq<int>)
  {
    forall i :: 0 <= i < |draws| ==> 1 <= draws[i] < MAX_SESSION_ID
  }

  lemma {:induction false} FirstFreeIsFirst(taken: set<int>, draws: seq<int>)
    ensures (forall i :: 0 <= i < |draws| ==> draws[i] in taken) ==> FirstFree(taken, draws) == -1
    ensures (exists i :: 0 <= i < |draws| && draws[i] !in taken) ==>
      var r := FirstFree(taken, draws);
      exists i :: 0 <= i < |draws| && draws[i] == r && r !in taken && forall j :: 0 <= j < i ==> draws[j] in taken
  {
    if draws != [] {
      var r := FirstFree(taken, draws);
      if draws[0] !in taken {
        assert draws[0] == r;
      } else {
        FirstFreeIsFirst(taken, draws[1..]);
        if exists i :: 0 <= i < |draws| && draws[i] !in taken {
          var k :| 0 <= k < |draws| && draws[k] !in taken;
          assert draws[1..][k - 1] == draws[k];
          var i :| 0 <= i < |draws[1..]| && draws[1..][i] == r && r !in taken
            && forall j :: 0 <= j < i ==> draws[1..][j] in taken;
          assert draws[i + 1] == r;
          forall j | 0 <= j < i + 1 ensures draws[j] in taken {
            if j > 0 {
              assert draws[j] == draws[1..][j - 1];
            }
          }
        } else {
          assert forall i :: 0 <= i < |draws[1..]| ==> draws[1..][i] == draws[i + 1];
        }
      }
    }
  }

  /** With draws in range, the id is -1 exactly when each of the eleven draws
      names a registered session, and otherwise an unregistered id in range
      that is the first such draw. */
  lemma SessionIdFresh(taken: set<int>, draws: seq<int>)
    requires |draws| >= SESSION_ID_DRAWS && DrawsInRange(draws)
    ensures var r := SessionIdSpec(taken, draws);
      (r == -1 <==> forall i :: 0 <= i < SESSION_ID_DRAWS ==> draws[i] in taken)
      && (r != -1 ==>
            1 <= r < MAX_SESSION_ID && r !in taken
            && exists i :: 0 <= i < SESSION_ID_DRAWS && draws[i] == r && forall j :: 0 <= j < i ==> draws[j] in taken)
  {
    var d := draws[..SESSION_ID_DRAWS];
    FirstFreeIsFirst(taken, d);
    var r := SessionIdSpec(taken, draws);
    if exists i :: 0 <= i < |d| && d[i] !in taken {
      var i :| 0 <= i < |d| && d[i] == r && r !in taken && forall j :: 0 <= j < i ==> d[j] in taken;
      assert d[i] == draws[i];
    } else {
      assert forall i :: 0 <= i < SESSION_ID_DRAWS ==> d[i] == draws[i];
    }
  }

  /** A registry holding every id in range refuses any further session. */
  lemma FullRegistryRefuses(taken: set<int>, draws: seq<int>)
    requires |draws| >= SESSION_ID_DRAWS && DrawsInRange(draws)
    requires forall id :: 1 <= id < MAX_SESSION_ID ==> id in taken
    ensures SessionIdSpec(taken, draws) == -1
  {
    SessionIdFresh(taken, draws);
  }

  /** Only the first eleven draws are ever looked at. */
  lemma LaterDrawsIgnored(taken: set<int>, d1: seq<int>, d2: seq<int>)
    requires |d1| >= SESSION_ID_DRAWS && |d2| >= SESSION_ID_DRAWS
    requires d1[..SESSION_ID_DRAWS] == d2[..SESSION_ID_DRAWS]
    ensures SessionIdSpec(taken, d1) == SessionIdSpec(taken, d2)
  {
  }

  // ---- The registry ----

  /** The reply to CreateSession: the new session's id, or a D-Bus error
      carrying an error code. */
  datatype CreateReply = Created(sessionID: int) | Refused(code: int)

  class AuthManager {
    const config: AuthConfig
    var sessions: map<int, Session>
    /** The D-Bus names whose disappearance is watched. */
    var watched: set<string>

    ghost predicate Valid()
      reads this, config, sessions.Values
    {
      WF(config.State())
      && forall a, b :: a in sessions && b in sessions && a != b ==> sessions[a] != sessions[b]
    }

    constructor(config: AuthConfig)
      requires WF(config.State())
      ensures this.config == config && sessions == map[] && watched == {} && Valid()
    {
      this.config := config;
      sessions := map[];
      watched := {};
    }

    /** GetAuthTypeByApp: erase the disabled factors from a copy of the
        configured order, append the other enabled ones, then the password. */
    method GetAuthTypeByApp(authApp: int) returns (sortedAuthTypes: seq<int>)
      ensures sortedAuthTypes == OrderedAuthTypes(AuthTypesByApp(config.State(), authApp), config.authOrder)
    {
      var enabledAuthTypes := config.GetAuthTypeByApp(authApp);
      var order := config.authOrder;
      var authOrder := order;
      ghost var seen := 0;
      var i := 0;
      while i < |authOrder|
        invariant 0 <= i <= |authOrder| && 0 <= seen <= |order|
        invariant authOrder[..i] == KeepEnabled(order[..seen], enabledAuthTypes)
        invariant authOrder[i..] == order[seen..]
        decreases |authOrder| - i
      {
        assert authOrder[i] == order[seen] by {
          assert authOrder[i..][0] == order[seen..][0];
        }
        assert authOrder[i + 1..] == order[seen + 1..] by {
          assert authOrder[i + 1..] == authOrder[i..][1..];
          assert order[seen + 1..] == order[seen..][1..];
        }
        KeepEnabledStep(order, seen, enabledAuthTypes);
        if authOrder[i] !in enabledAuthTypes {
          var next := authOrder[..i] + authOrder[i + 1..];
          assert next[..i] == authOrder[..i];
          assert next[i..] == authOrder[i + 1..];
          authOrder := next;
        } else {
          assert authOrder[..i + 1] == authOrder[..i] + [authOrder[i]];
          i := i + 1;
        }
        seen := seen + 1;
      }
      assert authOrder[..i] == authOrder;
      assert |order[seen..]| == 0;
      assert order[..seen] == order;
      sortedAuthTypes := authOrder;
      var j := 0;
      while j < |enabledAuthTypes|
        invariant j <= |enabledAuthTypes|
        invariant sortedAuthTypes == AddMissing(authOrder, enabledAuthTypes[..j])
      {
        assert enabledAuthTypes[..j + 1][..j] == enabledAuthTypes[..j];
        if enabledAuthTypes[j] !in sortedAuthTypes {
          sortedAuthTypes := sortedAuthTypes + [enabledAuthTypes[j]];
        }
        j := j + 1;
      }
      assert enabledAuthTypes[..j] == enabledAuthTypes;
      sortedAuthTypes := sortedAuthTypes + [AUTH_TYPE_PASSWORD];
    }

    /** generateSessionID over the generator's draws. */
    method GenerateSessionID(draws: seq<int>) returns (sessionID: int)
      requires |draws| >= SESSION_ID_DRAWS
      ensures sessionID == SessionIdSpec(sessions.Keys, draws)
    {
      var i := 0;
      while i < SESSION_ID_DRAWS
        invariant 0 <= i <= SESSION_ID_DRAWS
        invariant SessionIdSpec(sessions.Keys, draws) == FirstFree(sessions.Keys, draws[i..SESSION_ID_DRAWS])
      {
        assert draws[i..SESSION_ID_DRAWS][1..] == draws[i + 1..SESSION_ID_DRAWS];
        if draws[i] !in sessions {
          return draws[i];
        }
        i := i + 1;
      }
      sessionID := -1;
    }

    /** CreateSession for the D-Bus client `caller`: refused with
        ERROR_SESSION_EXCEED_MAX_SESSION_NUM when no id is free; otherwise
        the caller is watched and a new session is registered under the id. */
    method CreateSession(caller: string, env: SessionEnv, authApp: int, failures: map<string, int>, draws: seq<int>)
      returns (reply: CreateReply)
      requires Valid() && |draws| >= SESSION_ID_DRAWS
      modifies this
      ensures Valid()
      ensures var id := SessionIdSpec(old(sessions).Keys, draws);
        if id < 0 then
          reply == Refused(ERROR_SESSION_EXCEED_MAX_SESSION_NUM) && sessions == old(sessions) && watched == old(watched)
        else
          reply == Created(id) && id !in old(sessions) && watched == old(watched) + {caller}
          && sessions.Keys == old(sessions).Keys + {id}
          && (forall k :: k in old(sessions) ==> sessions[k] == old(sessions)[k])
          && fresh(sessions[id]) && sessions[id].sessionID == id && sessions[id].serviceName == caller
          && sessions[id].env == env && sessions[id].authApplication == authApp
          && sessions[id].State()
             == InitialState(config.authMode, OrderedAuthTypes(AuthTypesByApp(config.State(), authApp), config.authOrder), failures)
    {
      var sessionID := GenerateSessionID(draws);
      if sessionID < 0 {
        return Refused(ERROR_SESSION_EXCEED_MAX_SESSION_NUM);
      }
      FirstFreeIsFirst(sessions.Keys, draws[..SESSION_ID_DRAWS]);
      watched := watched + {caller};
      var authTypes := GetAuthTypeByApp(authApp);
      var session := new Session(sessionID, caller, env, authApp, config.authMode, authTypes, failures);
      sessions := sessions[sessionID := session];
      reply := Created(sessionID);
    }

    /** DestroySession: an unknown id is ignored; a known session leaves the
        registry first, then its attempt is stopped. */
    method DestroySession(sessionID: int)
      requires Valid()
      modifies this, if sessionID in sessions then {sessions[sessionID]} else {}
      ensures Valid() && watched == old(watched)
      ensures sessionID !in old(sessions) ==> sessions == old(sessions)
      ensures sessionID in old(sessions) ==>
        sessions == old(sessions) - {sessionID}
        && old(sessions)[sessionID].State() == StopAuthSpec(old(sessions[sessionID].State()))
    {
      if sessionID !in sessions {
        return;
      }
      var session := sessions[sessionID];
      sessions := sessions - {sessionID};
      session.StopAuth();
    }

    /** The ids of the sessions opened by `serviceName`, in ascending order. */
    method SessionsOf(serviceName: string) returns (ids: seq<int>)
      ensures forall k :: k in ids <==> k in sessions && sessions[k].serviceName == serviceName
      ensures NoDuplicates(ids)
    {
      ids := [];
      var rest := sessions.Keys;
      while rest != {}
        invariant rest <= sessions.Keys
        invariant forall k :: k in ids <==> k in sessions && k !in rest && sessions[k].serviceName == serviceName
        invariant NoDuplicates(ids)
        decreases |rest|
      {
        var k := LeastKey(rest);
        if sessions[k].serviceName == serviceName {
          ids := ids + [k];
        }
        rest := rest - {k};
      }
    }

    /** The sessions in `registry` are pairwise distinct objects. */
    ghost predicate Distinct(registry: map<int, Session>)
    {
      forall a, b :: a in registry && b in registry && a != b ==> registry[a] != registry[b]
    }

    /** One step of DestroySessions: the session under `id` is destroyed,
        the other sessions of `registry` keep their state. */
    method DestroyNext(ids: seq<int>, id: int, ghost registry: map<int, Session>,
                       ghost before: map<int, SessionState>, ghost done: set<int>)
      requires Valid() && Distinct(registry) && id in ids && id !in done
      requires forall k :: k in ids ==> k in registry && k in before
      requires sessions == registry - done
      requires forall k :: k in ids ==> registry[k].State() == (if k in done then StopAuthSpec(before[k]) else before[k])
      modifies this, registry[id]
      ensures Valid() && watched == old(watched)
      ensures sessions == registry - (done + {id})
      ensures forall k :: k in ids ==> registry[k].State() == (if k in done + {id} then StopAuthSpec(before[k]) else before[k])
    {
      var session := sessions[id];
      assert session == registry[id] && session.State() == before[id];
      label Stopping:
      DestroySession(id);
      assert session.State() == StopAuthSpec(before[id]);
      forall k | k in ids
        ensures registry[k].State() == (if k in done + {id} then StopAuthSpec(before[k]) else before[k])
      {
        if k != id {
          assert registry[k] != session;
          assert registry[k].State() == old@Stopping(registry[k].State());
        }
      }
      assert sessions == registry - (done + {id});
    }

    /** Destroy the sessions under `ids`, one after the other. */
    method DestroySessions(ids: seq<int>)
      requires Valid() && NoDuplicates(ids) && forall k :: k in ids ==> k in sessions
      modifies this, set k | k in ids && k in sessions :: sessions[k]
      ensures Valid() && watched == old(watched)
      ensures forall k :: k in sessions <==> k in old(sessions) && k !in ids
      ensures forall k :: k in sessions ==> sessions[k] == old(sessions)[k]
      ensures forall k :: k in ids ==> old(sessions)[k].State() == StopAuthSpec(old(sessions[k].State()))
    {
      ghost var registry := sessions;
      ghost var before := map k | k in sessions :: sessions[k].State();
      ghost var done: set<int> := {};
      var i := 0;
      while i < |ids|
        invariant 0 <= i <= |ids| && watched == old(watched) && Valid() && Distinct(registry)
        invariant done == set j | 0 <= j < i :: ids[j]
        invariant sessions == registry - done
        invariant forall k :: k in ids ==> registry[k].State() == (if k in done then StopAuthSpec(before[k]) else before[k])
      {
        var id := ids[i];
        assert id !in done by {
          assert forall j :: 0 <= j < i ==> ids[j] != id;
        }
        assert (set j | 0 <= j < i + 1 :: ids[j]) == done + {id};
        DestroyNext(ids, id, registry, before, done);
        done := done + {id};
        i := i + 1;
      }
      assert forall k :: k in ids ==> k in done;
    }

    /** onNameLost: stop watching the name and destroy every session it
        opened; the other sessions stay as they were. */
    method OnNameLost(serviceName: string)
      requires Valid()
      modifies this, sessions.Values
      ensures Valid()
      ensures watched == old(watched) - {serviceName}
      ensures forall k :: k in sessions <==> k in old(sessions) && old(sessions)[k].serviceName != serviceName
      ensures forall k :: k in sessions ==> sessions[k] == old(sessions)[k] && unchanged(sessions[k])
      ensures forall k :: k in old(sessions) && old(sessions)[k].serviceName == serviceName ==>
        old(sessions)[k].State() == StopAuthSpec(old(sessions[k].State()))
    {
      watched := watched - {serviceName};
      var deleted := SessionsOf(serviceName);
      DestroySessions(deleted);
    }

    /** SetDefaultDeviceID: an unchanged id does nothing; otherwise the
        configuration stores it. */
    method SetDefaultDeviceID(authType: int, deviceID: string)
      requires Valid()
      modifies config
      ensures Valid()
      ensures config.State() == SetDefaultDeviceSpec(old(config.State()), authType, deviceID)
      ensures deviceID == DefaultDeviceOf(old(config.State()), authType) ==> config.State() == old(config.State())
    {
      SetDefaultDeviceTakesEffect(config.State(), authType, deviceID);
      SettersKeepWF(config.State(), authType, AUTH_APP_NONE, false, deviceID);
      var oldDeviceID := DefaultDeviceOf(config.State(), authType);
      if deviceID == oldDeviceID {
        return;
      }
      config.SetDefaultDeviceID(authType, deviceID);
    }
  }
}
