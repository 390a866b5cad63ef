// One authentication attempt of a client (src/daemon/session.cpp): the factor
// being tried, the factors still to pass in "And" mode, the device request in
// flight and the user matched so far.
//
// The collaborators are values: `SessionEnv` says which factors have a device
// queue, who owns each identification id and how identification ids are
// derived; the users' failure counters are a map the session updates. What
// the session asks of a device queue is appended to `commands`; what the
// queue calls back (`queued`, `interrupt`, `cancel`, `end`, identify status)
// are methods of the class. Signals to the client are appended to `signals`.
module SessionModel {
  import opened KasTypes
  import opened AuthDeviceJson
  import opened KadError
  import Utils
  import UserModel
  import DeviceProtocol

  /** What the session tells its client (AuthMessage texts are named by kind). */
  datatype Message =
    | QueuedTip(authType: int)
    | ResultText(text: string)
    | NoUKeyDevice
    | InvalidAuthType(typeName: string)
    | NoDevice(typeName: string)
    | UKeyPinPrompt

  datatype Signal =
    | AuthTypeChanged(authType: int)
    | AuthMessage(msg: Message, msgType: int)
    | AuthPrompt(msg: Message, promptType: int)
    | AuthSuccessed(userName: string)
    | AuthFailed

  /** A call made on the device queue of a factor: identify with the JSON
      object sent as extra information, or stop a request. */
  datatype Command =
    | Identify(authType: int, extraInfo: map<string, Json>)
    | StopRequest(authType: int, requestID: int)

  /** What the session reads but never changes. `adaptors` holds the factors
      for which the queue factory yields a queue; `iidOwner` is the user
      manager's index from identification id to user name; `iidOf` derives an
      identification id from a factor and a device feature id. */
  datatype SessionEnv = SessionEnv(
    userName: string,
    adaptors: set<int>,
    iidOwner: map<string, string>,
    iidOf: (int, string) -> string)

  datatype SessionState = SessionState(
    authMode: int,
    authType: int,
    authOrderWaiting: seq<int>,
    inAuth: bool,
    requestID: int,
    deviceAdaptor: Option<int>,
    verifyAuthType: int,
    authenticatedUserName: string,
    loginUserSwitchable: bool,
    waitingForResponse: bool,
    failures: map<string, int>,
    signals: seq<Signal>,
    commands: seq<Command>)

  /** Sessions ask for devices at the lowest priority. */
  function Priority(): (p: int)
    ensures p == DeviceProtocol.DEVICE_REQUEST_PRIORITY_LOW
  {
    DeviceProtocol.DEVICE_REQUEST_PRIORITY_LOW
  }

  /** The extra information a UKey pin is sent with. */
  function UKeyPin(pin: string): map<string, Json>
  {
    map["ukey" := JObject(map["pin" := JString(pin)])]
  }

  /** The session as constructed: the first offered factor, and in "And" mode
      all of them still to pass. */
  function InitialState(authMode: int, authTypes: seq<int>, failures: map<string, int>): SessionState
  {
    SessionState(authMode, if |authTypes| > 0 then authTypes[0] else AUTH_TYPE_NONE,
      if authMode == AUTH_MODE_AND then authTypes else [],
      false, -1, None, 0, "", false, false, failures, [], [])
  }

  // ---- Specification of each step ----

  /** The user a failure is charged to: the matched user, else the requested one. */
  function FailedUser(e: SessionEnv, s: SessionState): string
  {
    if s.authenticatedUserName == "" then e.userName else s.authenticatedUserName
  }

  /** The failure counters after charging one failure to `user`, when the
      system knows the user. */
  function ChargeFailure(failures: map<string, int>, user: string): map<string, int>
  {
    if user in failures then failures[user := UserModel.SetFailuresSpec(failures[user], failures[user] + 1)]
    else failures
  }

  /** finishAuth: report the attempt's outcome and leave the attempt. */
  function FinishAuthSpec(e: SessionEnv, s: SessionState, isSuccess: bool, recordFailure: bool): SessionState
  {
    var name := s.authenticatedUserName;
    if isSuccess && name != "" then
      var f := if name in s.failures then s.failures[name := UserModel.SetFailuresSpec(s.failures[name], 0)] else s.failures;
      s.(failures := f, signals := s.signals + [AuthSuccessed(name)], inAuth := false)
    else
      var f := if recordFailure then ChargeFailure(s.failures, FailedUser(e, s)) else s.failures;
      s.(failures := f, signals := s.signals + [AuthFailed], inAuth := false)
  }

  /** finishPhaseAuth: a failed phase ends the attempt, so does a success in
      "Or" mode; a success in "And" mode strikes the factor off and either
      ends the attempt or starts the next factor. */
  function FinishPhaseSpec(e: SessionEnv, s: SessionState, isSuccess: bool, recordFailure: bool): SessionState
    decreases if isSuccess then 3 else 0
  {
    if !isSuccess then FinishAuthSpec(e, s, false, recordFailure)
    else if s.authMode == AUTH_MODE_OR then FinishAuthSpec(e, s, true, recordFailure)
    else if s.authMode == AUTH_MODE_AND then
      var w := RemoveOne(s.authOrderWaiting, s.authType);
      if |w| == 0 then FinishAuthSpec(e, s.(authOrderWaiting := w), true, recordFailure)
      else StartPhaseSpec(e, s.(authOrderWaiting := w, authType := w[0]))
    else s
  }

  /** startPhaseAuth: announce the factor, then ask for a UKey pin or start a
      device identification. */
  function StartPhaseSpec(e: SessionEnv, s: SessionState): SessionState
    decreases 2
  {
    var s1 := s.(waitingForResponse := false, signals := s.signals + [AuthTypeChanged(s.authType)]);
    if s.authType == AUTH_TYPE_UKEY then StartUkeySpec(e, s1) else StartGeneralSpec(e, s1, map[])
  }

  /** startUkeyAuth: without a UKey queue the phase fails (charged only in
      "And" mode); otherwise the pin is asked for and the identification waits
      for the answer. */
  function StartUkeySpec(e: SessionEnv, s: SessionState): SessionState
    decreases 1
  {
    if s.authType !in e.adaptors then
      FinishPhaseSpec(e, s.(signals := s.signals + [AuthMessage(NoUKeyDevice, MESSAGE_TYPE_ERROR)]),
        false, s.authMode == AUTH_MODE_AND)
    else
      s.(waitingForResponse := true, signals := s.signals + [AuthPrompt(UKeyPinPrompt, PROMPT_TYPE_SECRET)])
  }

  /** startGeneralAuth: a factor without a device kind, or without a queue,
      fails the phase (charged only in "And" mode); otherwise the queue is
      asked to identify. The request document is copied before the feature
      ids are added to the object, so it carries `extraInfo` alone. */
  function StartGeneralSpec(e: SessionEnv, s: SessionState, extraInfo: map<string, Json>): SessionState
    decreases 1
  {
    var typeName := Utils.AuthTypeEnum2Str(s.authType);
    if Utils.AuthType2DeviceType(s.authType).None? then
      FinishPhaseSpec(e, s.(signals := s.signals + [AuthMessage(InvalidAuthType(typeName), MESSAGE_TYPE_ERROR)]),
        false, s.authMode == AUTH_MODE_AND)
    else if s.authType !in e.adaptors then
      FinishPhaseSpec(e, s.(signals := s.signals + [AuthMessage(NoDevice(typeName), MESSAGE_TYPE_ERROR)]),
        false, s.authMode == AUTH_MODE_AND)
    else
      s.(deviceAdaptor := Some(s.authType), verifyAuthType := s.authType,
         commands := s.commands + [Identify(s.authType, extraInfo)])
  }

  /** matchUser: whether the feature `dataID` belongs to an acceptable user;
      on a match the user is remembered as the authenticated one. */
  function MatchUserSpec(e: SessionEnv, s: SessionState, authType: int, dataID: string): (bool, SessionState)
  {
    if dataID == "" then (false, s)
    else
      var iid := e.iidOf(authType, dataID);
      if iid !in e.iidOwner then (false, s)
      else
        var userName := e.iidOwner[iid];
        if userName != e.userName && !s.loginUserSwitchable then (false, s)
        else if s.authenticatedUserName != "" && s.authenticatedUserName != userName then (false, s)
        else (true, s.(authenticatedUserName := userName))
  }

  /** onIdentifyStatus: every status is matched against the users; a match of
      an unacceptable user counts as a mismatch; only a match or a mismatch
      ends the phase. */
  function IdentifyStatusSpec(e: SessionEnv, s: SessionState, bid: string, result: IdentifyResult): SessionState
  {
    var (matched, s1) := MatchUserSpec(e, s, s.verifyAuthType, bid);
    var r := if !matched && result == IdentifyMatch then IdentifyNotMatch else result;
    var s2 := s1.(signals := s1.signals + [AuthMessage(ResultText(Utils.IdentifyResultEnum2Str(r)),
                     if r == IdentifyMatch then MESSAGE_TYPE_INFO else MESSAGE_TYPE_ERROR)]);
    if r == IdentifyMatch || r == IdentifyNotMatch then FinishPhaseSpec(e, s2, r == IdentifyMatch, true)
    else s2
  }

  /** StartAuth: refused while a request with a positive id is recorded, or
      for no factor or the password; otherwise the attempt starts. */
  function StartAuthSpec(e: SessionEnv, s: SessionState): (int, SessionState)
  {
    if s.requestID > 0 then (ERROR_USER_IDENTIFIYING, s)
    else if s.authType == AUTH_TYPE_NONE || s.authType == AUTH_TYPE_PASSWORD then (ERROR_FAILED, s)
    else (SUCCESS, StartPhaseSpec(e, s.(inAuth := true)))
  }

  /** StopAuth: drop a pending pin question, stop the recorded request on its
      queue, and leave the attempt. */
  function StopAuthSpec(s: SessionState): SessionState
  {
    var s1 := s.(waitingForResponse := false);
    var s2 := if s.requestID != -1 && s.deviceAdaptor.Some?
      then s1.(commands := s1.commands + [StopRequest(s.deviceAdaptor.value, s.requestID)]) else s1;
    s2.(inAuth := false)
  }

  function SetAuthTypeSpec(s: SessionState, authType: int): (int, SessionState)
  {
    if s.authMode == AUTH_MODE_AND then (ERROR_FAILED, s)
    else if authType <= AUTH_TYPE_NONE || authType >= AUTH_TYPE_LAST then (ERROR_INVALID_ARGUMENT, s)
    else (SUCCESS, s.(authType := authType))
  }

  function SetLoginUserSwitchableSpec(s: SessionState, switchable: bool): (int, SessionState)
  {
    if s.authMode == AUTH_MODE_AND then (ERROR_FAILED, s)
    else if s.inAuth then (ERROR_FAILED, s)
    else (SUCCESS, s.(loginUserSwitchable := switchable))
  }

  /** ResponsePrompt: the pending pin question, if any, is answered once: the
      identification starts with the pin. */
  function ResponsePromptSpec(e: SessionEnv, s: SessionState, text: string): SessionState
  {
    if !s.waitingForResponse then s
    else StartGeneralSpec(e, s, UKeyPin(text)).(waitingForResponse := false)
  }

  function QueuedSpec(s: SessionState, reqID: int): SessionState
  {
    s.(requestID := reqID, signals := s.signals + [AuthMessage(QueuedTip(s.authType), MESSAGE_TYPE_INFO)])
  }

  function EndSpec(s: SessionState): SessionState
  {
    s.(requestID := -1, deviceAdaptor := None)
  }

  // ---- Properties ----

  /** No identification request ever carries feature ids. */
  predicate NoFeatureIds(s: SessionState)
  {
    forall i :: 0 <= i < |s.commands| && s.commands[i].Identify? ==> "feature_ids" !in s.commands[i].extraInfo
  }

  /** The user manager's counters after the attempt failed and, if asked,
      one failure was charged. */
  function FailedCounters(e: SessionEnv, s: SessionState, recordFailure: bool): map<string, int>
  {
    if recordFailure then ChargeFailure(s.failures, FailedUser(e, s)) else s.failures
  }

  /** finishAuth reports success exactly when the phase succeeded and a user
      was matched; success clears that user's counter, failure charges the
      matched (or else the requested) user when asked to. Either way the
      attempt is over and nothing else changes. */
  lemma FinishAuthOutcome(e: SessionEnv, s: SessionState, isSuccess: bool, recordFailure: bool)
    ensures var t := FinishAuthSpec(e, s, isSuccess, recordFailure);
      var name := s.authenticatedUserName;
      !t.inAuth && |t.signals| == |s.signals| + 1 && t.signals[..|s.signals|] == s.signals
      && (t.signals[|s.signals|].AuthSuccessed? <==> isSuccess && name != "")
      && (isSuccess && name != "" ==>
            t.signals[|s.signals|] == AuthSuccessed(name)
            && t.failures.Keys == s.failures.Keys
            && (name in s.failures ==> t.failures[name] == 0)
            && (forall u :: u in s.failures && u != name ==> t.failures[u] == s.failures[u]))
      && (!(isSuccess && name != "") ==>
            t.signals[|s.signals|] == AuthFailed
            && t.failures.Keys == s.failures.Keys
            && (forall u :: u in s.failures && (u != FailedUser(e, s) || !recordFailure) ==> t.failures[u] == s.failures[u])
            && (recordFailure && FailedUser(e, s) in s.failures && s.failures[FailedUser(e, s)] >= 0 ==>
                  t.failures[FailedUser(e, s)] == s.failures[FailedUser(e, s)] + 1))
      && t.(inAuth := s.inAuth, signals := s.signals, failures := s.failures) == s
  {
  }

  /** A failed phase ends the attempt at once, and so does a success in "Or" mode. */
  lemma PhaseEndsAttempt(e: SessionEnv, s: SessionState, isSuccess: bool, recordFailure: bool)
    requires !isSuccess || s.authMode == AUTH_MODE_OR
    ensures var t := FinishPhaseSpec(e, s, isSuccess, recordFailure);
      !t.inAuth && t.commands == s.commands && t.authOrderWaiting == s.authOrderWaiting
      && |t.signals| == |s.signals| + 1
      && (t.signals[|s.signals|] == AuthFailed || t.signals[|s.signals|] == AuthSuccessed(s.authenticatedUserName))
      && (!isSuccess ==> t.signals[|s.signals|] == AuthFailed && t.failures == FailedCounters(e, s, recordFailure))
  {
  }

  /** A success in "And" mode strikes one occurrence of the factor off the
      list; with nothing left the attempt ends, otherwise the first remaining
      factor is announced and started. */
  lemma AndPhaseAdvances(e: SessionEnv, s: SessionState, recordFailure: bool)
    requires s.authMode == AUTH_MODE_AND
    ensures var t := FinishPhaseSpec(e, s, true, recordFailure);
      var w := RemoveOne(s.authOrderWaiting, s.authType);
      t.authOrderWaiting == w
      && (s.authType in s.authOrderWaiting ==> |w| == |s.authOrderWaiting| - 1)
      && (w == [] ==> !t.inAuth && t.commands == s.commands && |t.signals| == |s.signals| + 1)
      && (w != [] ==>
            t.authType == w[0] && |t.signals| > |s.signals|
            && t.signals[|s.signals|] == AuthTypeChanged(w[0]))
  {
    var w := RemoveOne(s.authOrderWaiting, s.authType);
    if w != [] {
      StartPhaseOutcome(e, s.(authOrderWaiting := w, authType := w[0]));
    }
  }

  /** startPhaseAuth announces the factor and then does exactly one of three
      things: asks for a UKey pin, sends one identification with no extra
      information to the factor's queue, or fails the attempt, charging a
      failure only in "And" mode. */
  lemma StartPhaseOutcome(e: SessionEnv, s: SessionState)
    ensures var t := StartPhaseSpec(e, s);
      |t.signals| > |s.signals| && t.signals[|s.signals|] == AuthTypeChanged(s.authType)
      && t.authType == s.authType && t.authOrderWaiting == s.authOrderWaiting
      && t.authenticatedUserName == s.authenticatedUserName && t.requestID == s.requestID
      && (s.authType == AUTH_TYPE_UKEY && s.authType in e.adaptors ==>
            t == s.(waitingForResponse := true,
                    signals := s.signals + [AuthTypeChanged(s.authType), AuthPrompt(UKeyPinPrompt, PROMPT_TYPE_SECRET)]))
      && (s.authType != AUTH_TYPE_UKEY && Utils.AuthType2DeviceType(s.authType).Some? && s.authType in e.adaptors ==>
            t == s.(waitingForResponse := false, deviceAdaptor := Some(s.authType), verifyAuthType := s.authType,
                    signals := s.signals + [AuthTypeChanged(s.authType)],
                    commands := s.commands + [Identify(s.authType, map[])]))
      && (s.authType !in e.adaptors || Utils.AuthType2DeviceType(s.authType).None? ==>
            !t.inAuth && !t.waitingForResponse && t.commands == s.commands
            && t.signals == s.signals + [AuthTypeChanged(s.authType), AuthMessage(StartFailure(s.authType), MESSAGE_TYPE_ERROR), AuthFailed]
            && t.failures == FailedCounters(e, s, s.authMode == AUTH_MODE_AND))
  {
    var s1 := s.(waitingForResponse := false, signals := s.signals + [AuthTypeChanged(s.authType)]);
    var typeName := Utils.AuthTypeEnum2Str(s.authType);
    var rec := s.authMode == AUTH_MODE_AND;
    assert Utils.AuthType2DeviceType(AUTH_TYPE_UKEY).Some?;
    if s.authType == AUTH_TYPE_UKEY {
      assert StartPhaseSpec(e, s) == StartUkeySpec(e, s1);
      if s.authType !in e.adaptors {
        var s2 := s1.(signals := s1.signals + [AuthMessage(NoUKeyDevice, MESSAGE_TYPE_ERROR)]);
        assert StartUkeySpec(e, s1) == FinishPhaseSpec(e, s2, false, rec);
        assert FinishPhaseSpec(e, s2, false, rec) == FinishAuthSpec(e, s2, false, rec);
      }
    } else {
      assert StartPhaseSpec(e, s) == StartGeneralSpec(e, s1, map[]);
      if Utils.AuthType2DeviceType(s.authType).None? {
        var s2 := s1.(signals := s1.signals + [AuthMessage(InvalidAuthType(typeName), MESSAGE_TYPE_ERROR)]);
        assert StartGeneralSpec(e, s1, map[]) == FinishPhaseSpec(e, s2, false, rec);
        assert FinishPhaseSpec(e, s2, false, rec) == FinishAuthSpec(e, s2, false, rec);
      } else if s.authType !in e.adaptors {
        var s2 := s1.(signals := s1.signals + [AuthMessage(NoDevice(typeName), MESSAGE_TYPE_ERROR)]);
        assert StartGeneralSpec(e, s1, map[]) == FinishPhaseSpec(e, s2, false, rec);
        assert FinishPhaseSpec(e, s2, false, rec) == FinishAuthSpec(e, s2, false, rec);
      }
    }
  }


  /** The message of a phase that cannot start. */
  function StartFailure(authType: int): Message
  {
    if authType == AUTH_TYPE_UKEY then NoUKeyDevice
    else if Utils.AuthType2DeviceType(authType).None? then InvalidAuthType(Utils.AuthTypeEnum2Str(authType))
    else NoDevice(Utils.AuthTypeEnum2Str(authType))
  }

  /** StartAuth is refused, with nothing changed, exactly while a request
      with a positive id is recorded or the factor is none or the password. */
  lemma StartAuthGuards(e: SessionEnv, s: SessionState)
    ensures var (code, t) := StartAuthSpec(e, s);
      (code == SUCCESS <==> s.requestID <= 0 && s.authType != AUTH_TYPE_NONE && s.authType != AUTH_TYPE_PASSWORD)
      && (s.requestID > 0 ==> code == ERROR_USER_IDENTIFIYING && t == s)
      && (s.requestID <= 0 && (s.authType == AUTH_TYPE_NONE || s.authType == AUTH_TYPE_PASSWORD) ==>
            code == ERROR_FAILED && t == s)
      && (code == SUCCESS ==>
            t == StartPhaseSpec(e, s.(inAuth := true))
            && (t.inAuth || (|t.signals| > 0 && t.signals[|t.signals| - 1] == AuthFailed)))
  {
    if s.requestID <= 0 && s.authType != AUTH_TYPE_NONE && s.authType != AUTH_TYPE_PASSWORD {
      StartPhaseOutcome(e, s.(inAuth := true));
    }
  }

  /** The first id a device queue hands out is 0, which the StartAuth guard
      does not see: a second StartAuth is accepted while request 0 is pending
      and sends a second identification. StopAuth, which tests against -1,
      does stop request 0. */
  lemma FirstRequestIdSlipsGuard(e: SessionEnv, s: SessionState)
    requires s.requestID == 0 && s.inAuth && s.deviceAdaptor == Some(AUTH_TYPE_FINGERPRINT)
    requires s.authType == AUTH_TYPE_FINGERPRINT && AUTH_TYPE_FINGERPRINT in e.adaptors
    ensures var (code, t) := StartAuthSpec(e, s);
      code == SUCCESS && t.commands == s.commands + [Identify(AUTH_TYPE_FINGERPRINT, map[])]
    ensures StopAuthSpec(s).commands == s.commands + [StopRequest(AUTH_TYPE_FINGERPRINT, 0)]
  {
    StartPhaseOutcome(e, s.(inAuth := true));
  }

  lemma SetAuthTypeAccepts(s: SessionState, authType: int)
    ensures var (code, t) := SetAuthTypeSpec(s, authType);
      (code == SUCCESS <==> s.authMode != AUTH_MODE_AND && AUTH_TYPE_NONE < authType < AUTH_TYPE_LAST)
      && (code == SUCCESS ==> t == s.(authType := authType))
      && (code != SUCCESS ==> t == s)
  {
  }

  /** SetLoginUserSwitchable is refused in "And" mode and during an attempt;
      setting the value it already has changes nothing. */
  lemma SetSwitchableAccepts(s: SessionState, switchable: bool)
    ensures var (code, t) := SetLoginUserSwitchableSpec(s, switchable);
      (code == SUCCESS <==> s.authMode != AUTH_MODE_AND && !s.inAuth)
      && (code == SUCCESS ==> t.loginUserSwitchable == switchable && t.(loginUserSwitchable := s.loginUserSwitchable) == s)
      && (code != SUCCESS || switchable == s.loginUserSwitchable ==> t == s)
  {
  }

  /** matchUser accepts exactly a non-empty feature id whose identification
      has an owner that is the requested user (or any user when switching is
      allowed) and agrees with the user matched before; acceptance remembers
      the owner and nothing else changes. */
  lemma MatchUserAccepts(e: SessionEnv, s: SessionState, authType: int, dataID: string)
    ensures var (ok, t) := MatchUserSpec(e, s, authType, dataID);
      var iid := e.iidOf(authType, dataID);
      (ok <==> dataID != "" && iid in e.iidOwner
               && (e.iidOwner[iid] == e.userName || s.loginUserSwitchable)
               && (s.authenticatedUserName == "" || s.authenticatedUserName == e.iidOwner[iid]))
      && (ok ==> t == s.(authenticatedUserName := e.iidOwner[iid]))
      && (!ok ==> t == s)
      && (s.authenticatedUserName != "" ==> t.authenticatedUserName == s.authenticatedUserName)
  {
  }

  /** Once a user is matched, no identification status changes who it is. */
  lemma MatchedUserIsKept(e: SessionEnv, s: SessionState, bid: string, result: IdentifyResult)
    requires s.authenticatedUserName != ""
    ensures IdentifyStatusSpec(e, s, bid, result).authenticatedUserName == s.authenticatedUserName
  {
    var (m, s1) := MatchUserSpec(e, s, s.verifyAuthType, bid);
    var r := if !m && result == IdentifyMatch then IdentifyNotMatch else result;
    if r == IdentifyMatch && s.authMode == AUTH_MODE_AND {
      var s2 := s1.(signals := s1.signals + [AuthMessage(ResultText(Utils.IdentifyResultEnum2Str(r)), MESSAGE_TYPE_INFO)]);
      var w := RemoveOne(s2.authOrderWaiting, s2.authType);
      if w != [] {
        StartPhaseOutcome(e, s2.(authOrderWaiting := w, authType := w[0]));
      }
    }
  }

  /** A status other than a match or a mismatch only reports its text (and may
      remember the matched user); a match of an unacceptable user is reported
      and handled as a mismatch, which fails the attempt and charges a failure. */
  lemma IdentifyStatusOutcome(e: SessionEnv, s: SessionState, bid: string, result: IdentifyResult)
    ensures var t := IdentifyStatusSpec(e, s, bid, result);
      var (matched, s1) := MatchUserSpec(e, s, s.verifyAuthType, bid);
      (result != IdentifyMatch && result != IdentifyNotMatch ==>
         t == s1.(signals := s.signals + [AuthMessage(ResultText(Utils.IdentifyResultEnum2Str(result)), MESSAGE_TYPE_ERROR)]))
      && (result == IdentifyNotMatch || (result == IdentifyMatch && !matched) ==>
         !t.inAuth && t.commands == s.commands
         && t.signals == s.signals + [AuthMessage(ResultText(Utils.IdentifyResultEnum2Str(IdentifyNotMatch)), MESSAGE_TYPE_ERROR), AuthFailed]
         && t.failures == FailedCounters(e, s1, true))
      && (result == IdentifyMatch && matched ==>
         t == FinishPhaseSpec(e, s1.(signals := s.signals + [AuthMessage(ResultText(Utils.IdentifyResultEnum2Str(IdentifyMatch)), MESSAGE_TYPE_INFO)]), true, true))
  {
  }

  /** A cancelled request ends the attempt without charging a failure. */
  lemma CancelChargesNothing(e: SessionEnv, s: SessionState)
    ensures var t := FinishPhaseSpec(e, s, false, false);
      !t.inAuth && t.failures == s.failures && t.signals == s.signals + [AuthFailed]
  {
  }

  /** "And" mode cannot succeed through its password step: with the password
      as the only factor left after the current one, passing the current
      factor starts the password phase, which has no device kind, so the
      attempt fails and a failure is charged. */
  lemma AndModeFailsAtPassword(e: SessionEnv, s: SessionState, recordFailure: bool)
    requires s.authMode == AUTH_MODE_AND && s.authType != AUTH_TYPE_PASSWORD
    requires s.authOrderWaiting == [s.authType, AUTH_TYPE_PASSWORD]
    ensures var t := FinishPhaseSpec(e, s, true, recordFailure);
      !t.inAuth && |t.signals| > |s.signals| && t.signals[|t.signals| - 1] == AuthFailed
      && AuthSuccessed(s.authenticatedUserName) !in t.signals[|s.signals|..]
      && t.authType == AUTH_TYPE_PASSWORD && t.authOrderWaiting == [AUTH_TYPE_PASSWORD]
      && t.commands == s.commands
      && t.failures == ChargeFailure(s.failures, FailedUser(e, s))
  {
    var w := RemoveOne(s.authOrderWaiting, s.authType);
    assert w == [AUTH_TYPE_PASSWORD];
    var s1 := s.(authOrderWaiting := w, authType := w[0]);
    StartPhaseOutcome(e, s1);
  }

  /** No step ever sends feature ids to a device queue. */
  lemma {:induction false} NoFeatureIdsKept(e: SessionEnv, s: SessionState, isSuccess: bool, recordFailure: bool)
    requires NoFeatureIds(s)
    ensures NoFeatureIds(FinishPhaseSpec(e, s, isSuccess, recordFailure))
    ensures NoFeatureIds(StartPhaseSpec(e, s))
    decreases if isSuccess then 3 else 0
  {
    StartPhaseOutcome(e, s);
    if isSuccess && s.authMode == AUTH_MODE_AND {
      var w := RemoveOne(s.authOrderWaiting, s.authType);
      if |w| != 0 {
        NoFeatureIdsKept(e, s.(authOrderWaiting := w, authType := w[0]), false, false);
      }
    }
  }

  /** The pin answer is sent once, as the only extra information. */
  lemma ResponseSendsPinOnce(e: SessionEnv, s: SessionState, text: string)
    requires s.waitingForResponse && s.authType in e.adaptors && Utils.AuthType2DeviceType(s.authType).Some?
    ensures var t := ResponsePromptSpec(e, s, text);
      t.commands == s.commands + [Identify(s.authType, UKeyPin(text))]
      && "feature_ids" !in UKeyPin(text)
      && !t.waitingForResponse
      && ResponsePromptSpec(e, t, text) == t
  {
  }

  /** In "And" mode the next factor is asked for from inside the status
      callback, so the new request is queued before the device queue ends the
      old one; the old request's end then wipes the new request's id, and
      StopAuth can no longer stop the new request. */
  lemma EndClobbersNextRequest(e: SessionEnv, s: SessionState, bid: string, nextID: int)
    requires s.authMode == AUTH_MODE_AND && s.authType == AUTH_TYPE_FINGERPRINT
    requires s.authOrderWaiting == [AUTH_TYPE_FINGERPRINT, AUTH_TYPE_FACE] && AUTH_TYPE_FACE in e.adaptors
    requires MatchUserSpec(e, s, s.verifyAuthType, bid).0
    requires nextID >= 0
    ensures var t1 := IdentifyStatusSpec(e, s, bid, IdentifyMatch);
      var t3 := EndSpec(QueuedSpec(t1, nextID));
      t1.commands == s.commands + [Identify(AUTH_TYPE_FACE, map[])]
      && t3.requestID == -1 && t3.deviceAdaptor.None?
      && StopAuthSpec(t3).commands == t1.commands
  {
    var (m, s1) := MatchUserSpec(e, s, s.verifyAuthType, bid);
    var s2 := s1.(signals := s1.signals + [AuthMessage(ResultText(Utils.IdentifyResultEnum2Str(IdentifyMatch)), MESSAGE_TYPE_INFO)]);
    assert RemoveOne(s2.authOrderWaiting, s2.authType) == [AUTH_TYPE_FACE];
    StartPhaseOutcome(e, s2.(authOrderWaiting := [AUTH_TYPE_FACE], authType := AUTH_TYPE_FACE));
  }

  // ---- The session object ----

  class Session {
    const sessionID: int
    const serviceName: string
    const authApplication: int
    const env: SessionEnv

    var authMode: int
    var authType: int
    var authOrderWaiting: seq<int>
    var inAuth: bool
    var requestID: int
    var deviceAdaptor: Option<int>
    var verifyAuthType: int
    var authenticatedUserName: string
    var loginUserSwitchable: bool
    var waitingForResponse: bool
    var failures: map<string, int>
    var signals: seq<Signal>
    var commands: seq<Command>

    ghost function State(): SessionState
      reads this
    {
      SessionState(authMode, authType, authOrderWaiting, inAuth, requestID, deviceAdaptor, verifyAuthType,
        authenticatedUserName, loginUserSwitchable, waitingForResponse, failures, signals, commands)
    }

    /** `authMode` is the configured mode and `authTypes` the factors the
        manager offers to `authApp`; `failures` are the users' counters. */
    constructor(sessionID: int, serviceName: string, env: SessionEnv, authApp: int,
                authMode: int, authTypes: seq<int>, failures: map<string, int>)
      ensures this.sessionID == sessionID && this.serviceName == serviceName
      ensures this.env == env && this.authApplication == authApp
      ensures State() == InitialState(authMode, authTypes, failures)
    {
      this.sessionID := sessionID;
      this.serviceName := serviceName;
      this.env := env;
      this.authApplication := authApp;
      this.authMode := authMode;
      this.authType := if |authTypes| > 0 then authTypes[0] else AUTH_TYPE_NONE;
      this.authOrderWaiting := if authMode == AUTH_MODE_AND then authTypes else [];
      this.inAuth := false;
      this.requestID := -1;
      this.deviceAdaptor := None;
      this.verifyAuthType := 0;
      this.authenticatedUserName := "";
      this.loginUserSwitchable := false;
      this.waitingForResponse := false;
      this.failures := failures;
      this.signals := [];
      this.commands := [];
    }

    method ResponsePrompt(text: string)
      modifies this
      ensures State() == ResponsePromptSpec(env, old(State()), text)
    {
      if !waitingForResponse {
        return;
      }
      StartGeneralAuth(UKeyPin(text));
      waitingForResponse := false;
    }

    method SetAuthType(t: int) returns (code: int)
      modifies this
      ensures (code, State()) == SetAuthTypeSpec(old(State()), t)
    {
      if authMode == AUTH_MODE_AND {
        return ERROR_FAILED;
      }
      if t <= AUTH_TYPE_NONE || t >= AUTH_TYPE_LAST {
        return ERROR_INVALID_ARGUMENT;
      }
      authType := t;
      code := SUCCESS;
    }

    method StartAuth() returns (code: int)
      modifies this
      ensures (code, State()) == StartAuthSpec(env, old(State()))
    {
      if requestID > 0 {
        return ERROR_USER_IDENTIFIYING;
      }
      if authType == AUTH_TYPE_NONE || authType == AUTH_TYPE_PASSWORD {
        return ERROR_FAILED;
      }
      inAuth := true;
      StartPhaseAuth();
      code := SUCCESS;
    }

    method StopAuth()
      modifies this
      ensures State() == StopAuthSpec(old(State()))
    {
      waitingForResponse := false;
      if requestID != -1 && deviceAdaptor.Some? {
        commands := commands + [StopRequest(deviceAdaptor.value, requestID)];
      }
      inAuth := false;
    }

    method SetLoginUserSwitchable(switchable: bool) returns (code: int)
      modifies this
      ensures (code, State()) == SetLoginUserSwitchableSpec(old(State()), switchable)
    {
      if authMode == AUTH_MODE_AND {
        return ERROR_FAILED;
      }
      if inAuth {
        return ERROR_FAILED;
      }
      code := SUCCESS;
      if switchable == loginUserSwitchable {
        return;
      }
      loginUserSwitchable := switchable;
    }

    /** The device queue accepted the request under `reqID`. */
    method Queued(reqID: int)
      modifies this
      ensures State() == QueuedSpec(old(State()), reqID)
    {
      requestID := reqID;
      signals := signals + [AuthMessage(QueuedTip(authType), MESSAGE_TYPE_INFO)];
    }

    /** The request lost the device; it stays queued and nothing is recorded. */
    method Interrupt()
      ensures State() == old(State())
    {
    }

    method Cancel()
      modifies this
      ensures State() == FinishPhaseSpec(env, old(State()), false, false)
    {
      FinishPhaseAuth(false, false);
    }

    method End()
      modifies this
      ensures State() == EndSpec(old(State()))
    {
      requestID := -1;
      deviceAdaptor := None;
    }

    method OnIdentifyStatus(bid: string, result: IdentifyResult)
      modifies this
      ensures State() == IdentifyStatusSpec(env, old(State()), bid, result)
    {
      var matched := MatchUser(verifyAuthType, bid);
      var r := result;
      if !matched && r == IdentifyMatch {
        r := IdentifyNotMatch;
      }
      var text := Utils.IdentifyResultEnum2Str(r);
      if r == IdentifyMatch {
        signals := signals + [AuthMessage(ResultText(text), MESSAGE_TYPE_INFO)];
      } else {
        signals := signals + [AuthMessage(ResultText(text), MESSAGE_TYPE_ERROR)];
      }
      if r == IdentifyMatch || r == IdentifyNotMatch {
        FinishPhaseAuth(r == IdentifyMatch, true);
      }
    }

    method StartPhaseAuth()
      modifies this
      ensures State() == StartPhaseSpec(env, old(State()))
      decreases 2
    {
      waitingForResponse := false;
      signals := signals + [AuthTypeChanged(authType)];
      if authType == AUTH_TYPE_UKEY {
        StartUkeyAuth();
      } else {
        StartGeneralAuth(map[]);
      }
    }

    method StartUkeyAuth()
      modifies this
      ensures State() == StartUkeySpec(env, old(State()))
      decreases 1
    {
      if authType !in env.adaptors {
        signals := signals + [AuthMessage(NoUKeyDevice, MESSAGE_TYPE_ERROR)];
        FinishPhaseAuth(false, authMode == AUTH_MODE_AND);
        return;
      }
      waitingForResponse := true;
      signals := signals + [AuthPrompt(UKeyPinPrompt, PROMPT_TYPE_SECRET)];
    }

    method StartGeneralAuth(extraInfo: map<string, Json>)
      modifies this
      ensures State() == StartGeneralSpec(env, old(State()), extraInfo)
      decreases 1
    {
      var typeName := Utils.AuthTypeEnum2Str(authType);
      if Utils.AuthType2DeviceType(authType).None? {
        signals := signals + [AuthMessage(InvalidAuthType(typeName), MESSAGE_TYPE_ERROR)];
        FinishPhaseAuth(false, authMode == AUTH_MODE_AND);
        return;
      }
      if authType !in env.adaptors {
        signals := signals + [AuthMessage(NoDevice(typeName), MESSAGE_TYPE_ERROR)];
        FinishPhaseAuth(false, authMode == AUTH_MODE_AND);
        return;
      }
      var doc := extraInfo;
      var rootObject := extraInfo["feature_ids" := JArray([])];
      deviceAdaptor := Some(authType);
      verifyAuthType := authType;
      commands := commands + [Identify(authType, doc)];
    }

    method FinishPhaseAuth(isSuccess: bool, recordFailure: bool)
      modifies this
      ensures State() == FinishPhaseSpec(env, old(State()), isSuccess, recordFailure)
      decreases if isSuccess then 3 else 0
    {
      if !isSuccess {
        FinishAuth(isSuccess, recordFailure);
        return;
      }
      if authMode == AUTH_MODE_OR {
        FinishAuth(isSuccess, recordFailure);
      } else if authMode == AUTH_MODE_AND {
        authOrderWaiting := RemoveOne(authOrderWaiting, authType);
        if |authOrderWaiting| == 0 {
          FinishAuth(isSuccess, recordFailure);
        } else {
          authType := authOrderWaiting[0];
          StartPhaseAuth();
        }
      }
    }

    method FinishAuth(isSuccess: bool, recordFailure: bool)
      modifies this
      ensures State() == FinishAuthSpec(env, old(State()), isSuccess, recordFailure)
    {
      var name := authenticatedUserName;
      if isSuccess && name != "" {
        if name in failures {
          failures := failures[name := UserModel.SetFailuresSpec(failures[name], 0)];
        }
        signals := signals + [AuthSuccessed(name)];
      } else {
        if recordFailure {
          var currentUser := if name == "" then env.userName else name;
          if currentUser in failures {
            failures := failures[currentUser := UserModel.SetFailuresSpec(failures[currentUser], failures[currentUser] + 1)];
          }
        }
        signals := signals + [AuthFailed];
      }
      inAuth := false;
    }

    method MatchUser(authType: int, dataID: string) returns (ok: bool)
      modifies this
      ensures (ok, State()) == MatchUserSpec(env, old(State()), authType, dataID)
    {
      if dataID == "" {
        return false;
      }
      var iid := env.iidOf(authType, dataID);
      if iid !in env.iidOwner {
        return false;
      }
      var userName := env.iidOwner[iid];
      if userName != env.userName && !loginUserSwitchable {
        return false;
      }
      if authenticatedUserName != "" && authenticatedUserName != userName {
        return false;
      }
      authenticatedUserName := userName;
      ok := true;
    }
  }
}
