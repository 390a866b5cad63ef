// The daemon's configuration (src/daemon/auth-config.cpp): the mode, the
// order of factors, the failure limit and, per factor with a configuration
// group, its default device, its global switch and the applications it is
// enabled for. The INI file is a value read at load time; what the setters
// write back to it is appended to `writes`, and the change signals to
// `signals`.
module AuthConfigModel {
  import opened KasTypes
  import Utils

  // ---- The INI file ----

  /** The values stored in the INI file, by (group, key) and by kind. */
  datatype IniFile = IniFile(
    strings: map<(string, string), string>,
    lists: map<(string, string), seq<string>>,
    ints: map<(string, string), int>,
    flags: map<(string, string), bool>)

  const EMPTY_INI: IniFile := IniFile(map[], map[], map[], map[])

  function StringOr(f: IniFile, group: string, key: string, default: string): string
  {
    if (group, key) in f.strings then f.strings[(group, key)] else default
  }

  function ListOr(f: IniFile, group: string, key: string, default: seq<string>): seq<string>
  {
    if (group, key) in f.lists then f.lists[(group, key)] else default
  }

  function IntOr(f: IniFile, group: string, key: string, default: int): int
  {
    if (group, key) in f.ints then f.ints[(group, key)] else default
  }

  function FlagOr(f: IniFile, group: string, key: string, default: bool): bool
  {
    if (group, key) in f.flags then f.flags[(group, key)] else default
  }

  const GENERAL_GROUP: string := "General"
  const KEY_AUTH_MODE: string := "AuthMode"
  const KEY_AUTH_ORDER: string := "AuthOrder"
  const KEY_MAX_FAILURES: string := "MaxFailures"
  const KEY_DEFAULT_DEVICE: string := "DefaultDeviceID"
  const KEY_ENABLE: string := "Enable"

  /** The configuration group of a factor; empty for a factor without one. */
  function GroupName(authType: int): (r: string)
    ensures r != "" <==> GroupAuthType(authType)
  {
    if authType == AUTH_TYPE_FINGERPRINT then "FingerPrint"
    else if authType == AUTH_TYPE_FACE then "Face"
    else if authType == AUTH_TYPE_UKEY then "Ukey"
    else if authType == AUTH_TYPE_FINGERVEIN then "FingerVein"
    else ""
  }

  /** The key holding a factor's switch for an application; empty for an
      application without one. */
  function AppKey(authApp: int): (r: string)
    ensures r != "" <==> authApp in CONFIG_APPS
  {
    if authApp == AUTH_APP_LOGIN then "LoginEnable"
    else if authApp == AUTH_APP_UNLOCK then "UnlockEnable"
    else if authApp == AUTH_APP_EMPOWERMENT then "EmpowermentEnable"
    else ""
  }

  // ---- The configuration in memory ----

  /** A value written back to the INI file. */
  datatype SettingsWrite =
    | WriteString(group: string, key: string, text: string)
    | WriteFlag(group: string, key: string, flag: bool)

  datatype ConfigSignal =
    | DefaultDeviceChanged(authType: int, deviceID: string)
    | AuthTypeEnableChanged(authType: int, enabled: bool)
    | AuthTypeApplicationEnableChanged(authType: int)

  datatype ConfigState = ConfigState(
    authMode: int,
    authOrder: seq<int>,
    maxFailures: int,
    defaultDevice: map<int, string>,
    enabled: map<int, bool>,
    apps: map<int, seq<int>>,
    writes: seq<SettingsWrite>,
    signals: seq<ConfigSignal>)

  predicate Ascending(s: seq<int>)
  {
    forall i, j :: 0 <= i < j < |s| ==> s[i] < s[j]
  }

  predicate NoDuplicates(s: seq<int>)
  {
    forall i, j :: 0 <= i < j < |s| ==> s[i] != s[j]
  }

  /** What loading establishes and every setter keeps: the three per-factor
      maps hold exactly the factors with a group, and each application list
      holds known applications, each once. */
  ghost predicate WF(s: ConfigState)
  {
    (forall t :: t in s.defaultDevice <==> GroupAuthType(t))
    && (forall t :: t in s.enabled <==> GroupAuthType(t))
    && (forall t :: t in s.apps <==> GroupAuthType(t))
    && (forall t :: t in s.apps ==> NoDuplicates(s.apps[t]) && forall a :: a in s.apps[t] ==> a in CONFIG_APPS)
  }

  // ---- Loading ----

  /** The applications a group enables, among the first `n` known ones, in
      the known order. */
  function EnabledApps(f: IniFile, group: string, n: nat): seq<int>
    requires n <= |CONFIG_APPS|
  {
    if n == 0 then []
    else
      var app := CONFIG_APPS[n - 1];
      EnabledApps(f, group, n - 1) + (if FlagOr(f, group, AppKey(app), false) then [app] else [])
  }

  /** The per-factor maps after loading the first `n` groups. */
  function LoadedDefaults(f: IniFile, n: nat): map<int, string>
    requires n <= |GROUP_AUTH_TYPES|
  {
    if n == 0 then map[]
    else LoadedDefaults(f, n - 1)[GROUP_AUTH_TYPES[n - 1] :=
      StringOr(f, GroupName(GROUP_AUTH_TYPES[n - 1]), KEY_DEFAULT_DEVICE, "")]
  }

  function LoadedEnabled(f: IniFile, n: nat): map<int, bool>
    requires n <= |GROUP_AUTH_TYPES|
  {
    if n == 0 then map[]
    else LoadedEnabled(f, n - 1)[GROUP_AUTH_TYPES[n - 1] :=
      FlagOr(f, GroupName(GROUP_AUTH_TYPES[n - 1]), KEY_ENABLE, false)]
  }

  function LoadedApps(f: IniFile, n: nat): map<int, seq<int>>
    requires n <= |GROUP_AUTH_TYPES|
  {
    if n == 0 then map[]
    else LoadedApps(f, n - 1)[GROUP_AUTH_TYPES[n - 1] :=
      EnabledApps(f, GroupName(GROUP_AUTH_TYPES[n - 1]), |CONFIG_APPS|)]
  }

  /** load: the general settings with their defaults, then every group. */
  function LoadSpec(f: IniFile): ConfigState
  {
    ConfigState(
      Utils.AuthModeStr2Enum(StringOr(f, GENERAL_GROUP, KEY_AUTH_MODE, AUTH_MODE_STR_OR)),
      Utils.AuthOrderStr2Enum(ListOr(f, GENERAL_GROUP, KEY_AUTH_ORDER, [AUTH_TYPE_STR_FINGERPRINT, AUTH_TYPE_STR_UKEY])),
      IntOr(f, GENERAL_GROUP, KEY_MAX_FAILURES, 3),
      LoadedDefaults(f, |GROUP_AUTH_TYPES|),
      LoadedEnabled(f, |GROUP_AUTH_TYPES|),
      LoadedApps(f, |GROUP_AUTH_TYPES|),
      [], [])
  }

  // ---- Queries ----

  function DefaultDeviceOf(s: ConfigState, authType: int): string
  {
    if authType in s.defaultDevice then s.defaultDevice[authType] else ""
  }

  function EnableOf(s: ConfigState, authType: int): bool
  {
    authType in s.enabled && s.enabled[authType]
  }

  /** getAuthTypeEnabledForApp: false for a factor without group or list. */
  function EnabledForApp(s: ConfigState, authType: int, authApp: int): bool
  {
    if GroupName(authType) == "" || authType !in s.apps then false
    else authApp in s.apps[authType]
  }

  /** Whether a factor is offered to an application: listed for it and
      switched on. */
  predicate OfferedTo(s: ConfigState, authType: int, authApp: int)
  {
    authType in s.apps && authApp in s.apps[authType] && EnableOf(s, authType)
  }

  /** The factors among `keys` offered to `authApp`, in the order of `keys`. */
  function OfferedAmong(s: ConfigState, authApp: int, keys: seq<int>): seq<int>
  {
    if keys == [] then []
    else
      var last := keys[|keys| - 1];
      OfferedAmong(s, authApp, keys[..|keys| - 1]) + (if OfferedTo(s, last, authApp) then [last] else [])
  }

  /** getAuthTypeByApp: the factors offered to an application, walking the
      per-factor map in ascending key order. */
  function AuthTypesByApp(s: ConfigState, authApp: int): seq<int>
  {
    OfferedAmong(s, authApp, GROUP_AUTH_TYPES)
  }

  // ---- Updates ----

  /** setDefaultDeviceID: ignored for a factor without group and for an
      unchanged id; otherwise written, stored and signalled. */
  function SetDefaultDeviceSpec(s: ConfigState, authType: int, deviceID: string): ConfigState
  {
    var group := GroupName(authType);
    if group == "" then s
    else if authType in s.defaultDevice && s.defaultDevice[authType] == deviceID then s
    else s.(writes := s.writes + [WriteString(group, KEY_DEFAULT_DEVICE, deviceID)],
            defaultDevice := s.defaultDevice[authType := deviceID],
            signals := s.signals + [DefaultDeviceChanged(authType, deviceID)])
  }

  /** setAuthTypeEnable: ignored for a factor without group and for an
      unchanged switch; otherwise written, stored and signalled. */
  function SetAuthTypeEnableSpec(s: ConfigState, authType: int, enable: bool): ConfigState
  {
    var group := GroupName(authType);
    if group == "" then s
    else if authType in s.enabled && s.enabled[authType] == enable then s
    else s.(writes := s.writes + [WriteFlag(group, KEY_ENABLE, enable)],
            enabled := s.enabled[authType := enable],
            signals := s.signals + [AuthTypeEnableChanged(authType, enable)])
  }

  /** QList::removeAll. */
  function RemoveAll(s: seq<int>, x: int): (r: seq<int>)
    ensures x !in r
    ensures forall y :: y != x ==> (y in r <==> y in s)
  {
    if s == [] then [] else (if s[0] == x then [] else [s[0]]) + RemoveAll(s[1..], x)
  }

  lemma {:induction false} RemoveAllKeepsNoDuplicates(s: seq<int>, x: int)
    requires NoDuplicates(s)
    ensures NoDuplicates(RemoveAll(s, x))
  {
    if s != [] {
      RemoveAllKeepsNoDuplicates(s[1..], x);
      var r := RemoveAll(s, x);
      var rest := RemoveAll(s[1..], x);
      if s[0] != x {
        assert r == [s[0]] + rest;
        assert s[0] !in s[1..];
        assert s[0] !in rest;
        forall i, j | 0 <= i < j < |r| ensures r[i] != r[j] {
          if i == 0 {
            assert r[j] == rest[j - 1];
          } else {
            assert r[i] == rest[i - 1] && r[j] == rest[j - 1];
          }
        }
      }
    }
  }

  /** setAuthTypeEnabledForApp: ignored for a factor without group or list,
      for an unchanged switch and for an application without key; otherwise
      written, the application appended to or removed from the list, and
      signalled. */
  function SetEnabledForAppSpec(s: ConfigState, authType: int, authApp: int, enable: bool): ConfigState
  {
    var group := GroupName(authType);
    if group == "" || authType !in s.apps then s
    else
      var apps := s.apps[authType];
      if (authApp in apps) == enable then s
      else if AppKey(authApp) == "" then s
      else s.(writes := s.writes + [WriteFlag(group, AppKey(authApp), enable)],
              apps := s.apps[authType := if enable then apps + [authApp] else RemoveAll(apps, authApp)],
              signals := s.signals + [AuthTypeApplicationEnableChanged(authType)])
  }

  // ---- Properties ----

  /** The order is read with the shared name table: an order of named
      factors, password and iris among them, stored under AuthOrder loads
      back as the same factors in the same order. */
  lemma LoadedOrderRoundTrip(f: IniFile, order: seq<int>)
    requires forall i :: 0 <= i < |order| ==> Utils.NamedAuthType(order[i])
    requires (GENERAL_GROUP, KEY_AUTH_ORDER) in f.lists
    requires f.lists[(GENERAL_GROUP, KEY_AUTH_ORDER)] == Utils.AuthOrderEnum2Str(order)
    ensures LoadSpec(f).authOrder == order
  {
    Utils.AuthOrderRoundTrip(order);
  }

  /** An INI file without entries loads mode "Or", the order fingerprint then
      UKey, a limit of three failures, and every factor switched off, for no
      application and without default device. */
  lemma LoadDefaults()
    ensures var s := LoadSpec(EMPTY_INI);
      s.authMode == AUTH_MODE_OR && s.authOrder == [AUTH_TYPE_FINGERPRINT, AUTH_TYPE_UKEY] && s.maxFailures == 3
      && forall t :: GroupAuthType(t) ==>
           !EnableOf(s, t) && DefaultDeviceOf(s, t) == "" && t in s.apps && s.apps[t] == []
  {
    var s := LoadSpec(EMPTY_INI);
    LoadWellFormed(EMPTY_INI);
    forall t | GroupAuthType(t)
      ensures !EnableOf(s, t) && DefaultDeviceOf(s, t) == "" && s.apps[t] == []
    {
      LoadReadsGroup(EMPTY_INI, t);
      NoAppsWithoutFlags(GroupName(t), |CONFIG_APPS|);
    }
  }

  lemma {:induction false} NoAppsWithoutFlags(group: string, n: nat)
    requires n <= |CONFIG_APPS|
    ensures EnabledApps(EMPTY_INI, group, n) == []
  {
    if n > 0 {
      NoAppsWithoutFlags(group, n - 1);
    }
  }

  lemma {:induction false} EnabledAppsShape(f: IniFile, group: string, n: nat)
    requires n <= |CONFIG_APPS|
    ensures NoDuplicates(EnabledApps(f, group, n))
    ensures forall a :: a in EnabledApps(f, group, n) <==> a in CONFIG_APPS[..n] && FlagOr(f, group, AppKey(a), false)
  {
    if n > 0 {
      EnabledAppsShape(f, group, n - 1);
      assert CONFIG_APPS[..n] == CONFIG_APPS[..n - 1] + [CONFIG_APPS[n - 1]];
    }
  }

  lemma {:induction false} LoadedDefaultsShape(f: IniFile, n: nat)
    requires n <= |GROUP_AUTH_TYPES|
    ensures forall t :: t in LoadedDefaults(f, n) <==> t in GROUP_AUTH_TYPES[..n]
    ensures forall t :: t in GROUP_AUTH_TYPES[..n] ==>
      LoadedDefaults(f, n)[t] == StringOr(f, GroupName(t), KEY_DEFAULT_DEVICE, "")
  {
    if n > 0 {
      LoadedDefaultsShape(f, n - 1);
      assert GROUP_AUTH_TYPES[..n] == GROUP_AUTH_TYPES[..n - 1] + [GROUP_AUTH_TYPES[n - 1]];
    }
  }

  lemma {:induction false} LoadedEnabledShape(f: IniFile, n: nat)
    requires n <= |GROUP_AUTH_TYPES|
    ensures forall t :: t in LoadedEnabled(f, n) <==> t in GROUP_AUTH_TYPES[..n]
    ensures forall t :: t in GROUP_AUTH_TYPES[..n] ==>
      LoadedEnabled(f, n)[t] == FlagOr(f, GroupName(t), KEY_ENABLE, false)
  {
    if n > 0 {
      LoadedEnabledShape(f, n - 1);
      assert GROUP_AUTH_TYPES[..n] == GROUP_AUTH_TYPES[..n - 1] + [GROUP_AUTH_TYPES[n - 1]];
    }
  }

  lemma {:induction false} LoadedAppsShape(f: IniFile, n: nat)
    requires n <= |GROUP_AUTH_TYPES|
    ensures forall t :: t in LoadedApps(f, n) <==> t in GROUP_AUTH_TYPES[..n]
    ensures forall t :: t in GROUP_AUTH_TYPES[..n] ==>
      LoadedApps(f, n)[t] == EnabledApps(f, GroupName(t), |CONFIG_APPS|)
  {
    if n > 0 {
      LoadedAppsShape(f, n - 1);
      assert GROUP_AUTH_TYPES[..n] == GROUP_AUTH_TYPES[..n - 1] + [GROUP_AUTH_TYPES[n - 1]];
    }
  }

  lemma LoadedMaps(f: IniFile, n: nat)
    requires n <= |GROUP_AUTH_TYPES|
    ensures forall t :: t in LoadedDefaults(f, n) <==> t in GROUP_AUTH_TYPES[..n]
    ensures forall t :: t in LoadedEnabled(f, n) <==> t in GROUP_AUTH_TYPES[..n]
    ensures forall t :: t in LoadedApps(f, n) <==> t in GROUP_AUTH_TYPES[..n]
    ensures forall t :: t in GROUP_AUTH_TYPES[..n] ==>
      LoadedDefaults(f, n)[t] == StringOr(f, GroupName(t), KEY_DEFAULT_DEVICE, "")
      && LoadedEnabled(f, n)[t] == FlagOr(f, GroupName(t), KEY_ENABLE, false)
      && LoadedApps(f, n)[t] == EnabledApps(f, GroupName(t), |CONFIG_APPS|)
  {
    LoadedDefaultsShape(f, n);
    LoadedEnabledShape(f, n);
    LoadedAppsShape(f, n);
  }

  /** Every factor with a group is read from its group, under its keys. */
  lemma LoadReadsGroup(f: IniFile, t: int)
    requires GroupAuthType(t)
    ensures var s := LoadSpec(f);
      DefaultDeviceOf(s, t) == StringOr(f, GroupName(t), KEY_DEFAULT_DEVICE, "")
      && EnableOf(s, t) == FlagOr(f, GroupName(t), KEY_ENABLE, false)
      && t in s.apps && s.apps[t] == EnabledApps(f, GroupName(t), |CONFIG_APPS|)
  {
    LoadedMaps(f, |GROUP_AUTH_TYPES|);
    assert GROUP_AUTH_TYPES[..|GROUP_AUTH_TYPES|] == GROUP_AUTH_TYPES;
  }

  lemma LoadWellFormed(f: IniFile)
    ensures WF(LoadSpec(f))
  {
    LoadedMaps(f, |GROUP_AUTH_TYPES|);
    assert GROUP_AUTH_TYPES[..|GROUP_AUTH_TYPES|] == GROUP_AUTH_TYPES;
    forall t | GroupAuthType(t)
      ensures NoDuplicates(LoadSpec(f).apps[t]) && forall a :: a in LoadSpec(f).apps[t] ==> a in CONFIG_APPS
    {
      EnabledAppsShape(f, GroupName(t), |CONFIG_APPS|);
      assert CONFIG_APPS[..|CONFIG_APPS|] == CONFIG_APPS;
    }
  }

  lemma {:induction false} OfferedAmongMembers(s: ConfigState, authApp: int, keys: seq<int>)
    ensures forall t :: t in OfferedAmong(s, authApp, keys) <==> t in keys && OfferedTo(s, t, authApp)
  {
    if keys != [] {
      var front := keys[..|keys| - 1];
      OfferedAmongMembers(s, authApp, front);
      assert keys == front + [keys[|keys| - 1]];
    }
  }

  lemma {:induction false} OfferedAmongSorted(s: ConfigState, authApp: int, keys: seq<int>)
    requires Ascending(keys)
    ensures Ascending(OfferedAmong(s, authApp, keys))
  {
    if keys != [] {
      var front := keys[..|keys| - 1];
      var last := keys[|keys| - 1];
      OfferedAmongSorted(s, authApp, front);
      OfferedAmongMembers(s, authApp, front);
      var r := OfferedAmong(s, authApp, keys);
      var p := OfferedAmong(s, authApp, front);
      assert r == p + (if OfferedTo(s, last, authApp) then [last] else []);
      forall i | 0 <= i < |p| ensures p[i] < last {
        assert p[i] in p;
        assert p[i] in OfferedAmong(s, authApp, front);
        assert p[i] in front && OfferedTo(s, p[i], authApp);
        var k :| 0 <= k < |front| && front[k] == p[i];
        assert keys[k] < keys[|keys| - 1];
      }
      forall i, j | 0 <= i < j < |r| ensures r[i] < r[j]
      {
        if j < |p| {
          assert r[i] == p[i] && r[j] == p[j];
        } else {
          assert r[i] == p[i] && r[j] == last;
        }
      }
    }
  }

  /** getAuthTypeByApp returns exactly the factors listed for the application
      and switched on, in strictly ascending order. */
  lemma AuthTypesByAppExact(s: ConfigState, authApp: int)
    requires WF(s)
    ensures var r := AuthTypesByApp(s, authApp);
      (forall t :: t in r <==> GroupAuthType(t) && authApp in s.apps[t] && s.enabled[t])
      && Ascending(r)
  {
    OfferedAmongMembers(s, authApp, GROUP_AUTH_TYPES);
    OfferedAmongSorted(s, authApp, GROUP_AUTH_TYPES);
  }

  /** A factor without a configuration group reads as no default device,
      switched off, enabled for no application, and offered to none. */
  lemma UnknownFactorQueries(s: ConfigState, t: int, authApp: int)
    requires WF(s) && GroupName(t) == ""
    ensures DefaultDeviceOf(s, t) == "" && !EnableOf(s, t) && !EnabledForApp(s, t, authApp)
    ensures t !in AuthTypesByApp(s, authApp)
  {
    OfferedAmongMembers(s, authApp, GROUP_AUTH_TYPES);
  }

  /** After switching a known factor for a known application, the query
      reports the new switch; a second identical call changes nothing, so
      writes and signals no more. */
  lemma SetEnabledForAppTakesEffect(s: ConfigState, t: int, authApp: int, enable: bool)
    requires WF(s) && GroupAuthType(t) && authApp in CONFIG_APPS
    ensures var s1 := SetEnabledForAppSpec(s, t, authApp, enable);
      EnabledForApp(s1, t, authApp) == enable
      && SetEnabledForAppSpec(s1, t, authApp, enable) == s1
      && (s1 != s <==> EnabledForApp(s, t, authApp) != enable)
      && (s1 != s ==> s1.signals == s.signals + [AuthTypeApplicationEnableChanged(t)] && |s1.writes| == |s.writes| + 1)
  {
  }

  /** Switching one (factor, application) pair leaves every other pair as it was. */
  lemma SetEnabledForAppIsLocal(s: ConfigState, t: int, authApp: int, enable: bool, u: int, b: int)
    requires WF(s) && (u != t || b != authApp)
    ensures EnabledForApp(SetEnabledForAppSpec(s, t, authApp, enable), u, b) == EnabledForApp(s, u, b)
  {
  }

  /** The setters keep the per-factor maps on the known factors and each
      application list free of repeats. */
  lemma SettersKeepWF(s: ConfigState, t: int, authApp: int, flag: bool, deviceID: string)
    requires WF(s)
    ensures WF(SetEnabledForAppSpec(s, t, authApp, flag))
    ensures WF(SetAuthTypeEnableSpec(s, t, flag))
    ensures WF(SetDefaultDeviceSpec(s, t, deviceID))
  {
    var s1 := SetEnabledForAppSpec(s, t, authApp, flag);
    if s1 != s && !flag {
      RemoveAllKeepsNoDuplicates(s.apps[t], authApp);
    }
    if s1 != s && flag {
      var l := s.apps[t] + [authApp];
      assert authApp !in s.apps[t];
      assert NoDuplicates(l) by {
        forall i, j | 0 <= i < j < |l| ensures l[i] != l[j] {
          if j == |l| - 1 {
            assert l[i] in s.apps[t];
          }
        }
      }
    }
  }

  /** setDefaultDeviceID: afterwards a known factor reads the new id; the
      store is written and a signal sent exactly when the id changed. */
  lemma SetDefaultDeviceTakesEffect(s: ConfigState, t: int, deviceID: string)
    requires WF(s)
    ensures var s1 := SetDefaultDeviceSpec(s, t, deviceID);
      (GroupAuthType(t) ==> DefaultDeviceOf(s1, t) == deviceID)
      && (!GroupAuthType(t) ==> s1 == s)
      && (s1 != s <==> GroupAuthType(t) && DefaultDeviceOf(s, t) != deviceID)
      && (s1 != s ==> s1.signals == s.signals + [DefaultDeviceChanged(t, deviceID)] && |s1.writes| == |s.writes| + 1)
      && forall u :: u != t ==> DefaultDeviceOf(s1, u) == DefaultDeviceOf(s, u)
  {
  }

  /** setAuthTypeEnable: afterwards a known factor reads the new switch; the
      store is written and a signal sent exactly when the switch changed. */
  lemma SetAuthTypeEnableTakesEffect(s: ConfigState, t: int, enable: bool)
    requires WF(s)
    ensures var s1 := SetAuthTypeEnableSpec(s, t, enable);
      (GroupAuthType(t) ==> EnableOf(s1, t) == enable)
      && (!GroupAuthType(t) ==> s1 == s)
      && (s1 != s <==> GroupAuthType(t) && EnableOf(s, t) != enable)
      && (s1 != s ==> s1.signals == s.signals + [AuthTypeEnableChanged(t, enable)] && |s1.writes| == |s.writes| + 1)
      && forall u :: u != t ==> EnableOf(s1, u) == EnableOf(s, u)
  {
  }

  // ---- The configuration object ----

  class AuthConfig {
    var authMode: int
    var authOrder: seq<int>
    var maxFailures: int
    var defaultDevice: map<int, string>
    var enabled: map<int, bool>
    var apps: map<int, seq<int>>
    var writes: seq<SettingsWrite>
    var signals: seq<ConfigSignal>

    function State(): ConfigState
      reads this
    {
      ConfigState(authMode, authOrder, maxFailures, defaultDevice, enabled, apps, writes, signals)
    }

    /** init and load: read the general settings, then each factor group in
        ascending factor order, and in it each application switch. */
    constructor(file: IniFile)
      ensures State() == LoadSpec(file)
    {
      authMode := Utils.AuthModeStr2Enum(StringOr(file, GENERAL_GROUP, KEY_AUTH_MODE, AUTH_MODE_STR_OR));
      authOrder := Utils.AuthOrderStr2Enum(
        ListOr(file, GENERAL_GROUP, KEY_AUTH_ORDER, [AUTH_TYPE_STR_FINGERPRINT, AUTH_TYPE_STR_UKEY]));
      maxFailures := IntOr(file, GENERAL_GROUP, KEY_MAX_FAILURES, 3);
      var devices: map<int, string> := map[];
      var switches: map<int, bool> := map[];
      var lists: map<int, seq<int>> := map[];
      var i := 0;
      while i < |GROUP_AUTH_TYPES|
        invariant i <= |GROUP_AUTH_TYPES|
        invariant devices == LoadedDefaults(file, i)
        invariant switches == LoadedEnabled(file, i)
        invariant lists == LoadedApps(file, i)
      {
        var authType := GROUP_AUTH_TYPES[i];
        var group := GroupName(authType);
        devices := devices[authType := StringOr(file, group, KEY_DEFAULT_DEVICE, "")];
        switches := switches[authType := FlagOr(file, group, KEY_ENABLE, false)];
        var authApps := ReadAppSwitches(file, group);
        lists := lists[authType := authApps];
        i := i + 1;
      }
      assert i == |GROUP_AUTH_TYPES|;
      defaultDevice := devices;
      enabled := switches;
      apps := lists;
      writes := [];
      signals := [];
    }

    /** The applications whose switch is set in a group, in the known order. */
    static method ReadAppSwitches(file: IniFile, group: string) returns (authApps: seq<int>)
      ensures authApps == EnabledApps(file, group, |CONFIG_APPS|)
    {
      authApps := [];
      var j := 0;
      while j < |CONFIG_APPS|
        invariant j <= |CONFIG_APPS|
        invariant authApps == EnabledApps(file, group, j)
      {
        var authApp := CONFIG_APPS[j];
        if FlagOr(file, group, AppKey(authApp), false) {
          authApps := authApps + [authApp];
        }
        j := j + 1;
      }
    }

    /** getAuthTypeByApp: walk the per-factor lists in ascending factor order. */
    method GetAuthTypeByApp(authApp: int) returns (authTypes: seq<int>)
      ensures authTypes == AuthTypesByApp(State(), authApp)
    {
      authTypes := [];
      var i := 0;
      while i < |GROUP_AUTH_TYPES|
        invariant i <= |GROUP_AUTH_TYPES|
        invariant authTypes == OfferedAmong(State(), authApp, GROUP_AUTH_TYPES[..i])
      {
        var authType := GROUP_AUTH_TYPES[i];
        assert GROUP_AUTH_TYPES[..i + 1][..i] == GROUP_AUTH_TYPES[..i];
        if authType in apps && authApp in apps[authType] && authType in enabled && enabled[authType] {
          authTypes := authTypes + [authType];
        }
        i := i + 1;
      }
      assert GROUP_AUTH_TYPES[..i] == GROUP_AUTH_TYPES;
    }

    method SetDefaultDeviceID(authType: int, deviceID: string)
      modifies this
      ensures State() == SetDefaultDeviceSpec(old(State()), authType, deviceID)
    {
      var group := GroupName(authType);
      if group == "" {
        return;
      }
      if authType in defaultDevice && defaultDevice[authType] == deviceID {
        return;
      }
      writes := writes + [WriteString(group, KEY_DEFAULT_DEVICE, deviceID)];
      defaultDevice := defaultDevice[authType := deviceID];
      signals := signals + [DefaultDeviceChanged(authType, deviceID)];
    }

    method SetAuthTypeEnable(authType: int, enable: bool)
      modifies this
      ensures State() == SetAuthTypeEnableSpec(old(State()), authType, enable)
    {
      var group := GroupName(authType);
      if group == "" {
        return;
      }
      if authType in enabled && enabled[authType] == enable {
        return;
      }
      writes := writes + [WriteFlag(group, KEY_ENABLE, enable)];
      enabled := enabled[authType := enable];
      signals := signals + [AuthTypeEnableChanged(authType, enable)];
    }

    method SetAuthTypeEnabledForApp(authType: int, authApp: int, enable: bool)
      modifies this
      ensures State() == SetEnabledForAppSpec(old(State()), authType, authApp, enable)
    {
      var group := GroupName(authType);
      if group == "" || authType !in apps {
        return;
      }
      var enabledApps := apps[authType];
      if (authApp in enabledApps) == enable {
        return;
      }
      var key := AppKey(authApp);
      if key == "" {
        return;
      }
      writes := writes + [WriteFlag(group, key, enable)];
      if enable {
        enabledApps := enabledApps + [authApp];
      } else {
        enabledApps := RemoveAll(enabledApps, authApp);
      }
      apps := apps[authType := enabledApps];
      signals := signals + [AuthTypeApplicationEnableChanged(authType)];
    }
  }
}
