// The PAM module's side of one authentication (src/pam/authentication.cpp):
// connect to the daemon, decide by the configured action, open a session,
// let the front end pick a factor in "Or" mode, check the lockout, start the
// session, and turn the session's verdict into a PAM result.
//
// What the daemon answers over D-Bus during the run is a `DaemonView`; what
// the front end (terminal or graphical) answers is a `FrontEnd`. The calls
// the module makes on the daemon, the front end and the PAM handle are
// appended, in order, to `effects`; `Finish(code)` is the PAM handle's
// finish with that result.
module PamAuthentication {
  import opened KasTypes

  /** Linux-PAM return codes, as distinct opaque values. */
  datatype PamCode = PamSuccess | PamIgnore | PamAuthErr | PamAuthinfoUnavail | PamSystemErr | PamConvErr | PamBufErr

  /** The two actions the module's arguments can name. */
  const ACTION_DO_AUTH: string := "doauth"
  const ACTION_AUTH_SUCC: string := "authsucc"

  /** The daemon's answers: whether its bus name is registered, the
      application of the PAM service (None: the call failed), the user's
      object path (None: the call failed), the user's failure count, the
      configured lockout threshold and mode, the session created (None: the
      call failed), whether SetAuthType and StartAuth succeed, and the
      session's factor read after SetAuthType. */
  datatype DaemonView = DaemonView(
    registered: bool,
    authApp: Option<int>,
    userPath: Option<string>,
    failures: int,
    maxFailures: int,
    authMode: int,
    session: Option<int>,
    setAuthTypeOk: bool,
    sessionAuthType: int,
    startAuthOk: bool)

  /** The front end's answers: may the login user be switched, and which
      factor was picked from the menu. */
  datatype FrontEnd = FrontEnd(loginUserSwitchable: bool, chosenAuthType: int)

  datatype Effect =
    | NotifyAuthMode
    | CreateSession(userName: string, authApp: int)
    | SetLoginUserSwitchable
    | NotifySupportAuthType
    | NotifyAuthType(authType: int)
    | LockedOutMessage
    | SetAuthType(authType: int)
    | SessionStartAuth
    | ResetFailures(userPath: string)
    | SendPrompt(text: string, promptType: int)
    | SendMessage(text: string, messageType: int)
    | ResponsePrompt(response: string)
    | Finish(code: PamCode)
    | DestroySession(sessionID: int)

  /** A step's PAM result and the calls it made. */
  datatype Outcome = Outcome(code: PamCode, effects: seq<Effect>)

  // ---- Specification of each step ----

  /** init: the daemon must be registered, know the service's application
      and find the user. */
  function InitSpec(v: DaemonView): PamCode
  {
    if !v.registered then PamIgnore
    else if v.authApp.None? then PamIgnore
    else if v.userPath.None? || v.userPath.value == "" then PamIgnore
    else PamSuccess
  }

  /** checkFailures: at or above the threshold the user is told the mode is
      locked; "And" mode then fails hard, any other mode yields to the next
      module. */
  function CheckFailuresSpec(failures: int, maxFailures: int, authMode: int): Outcome
  {
    if failures >= maxFailures then
      Outcome(if authMode == AUTH_MODE_AND then PamSystemErr else PamIgnore, [LockedOutMessage])
    else Outcome(PamSuccess, [])
  }

  /** startAuthPre: announce the mode and open a session; in "Or" mode let
      the front end pick a factor (PASSWORD leaves the password to the next
      module), check the lockout and set the factor; finally announce the
      session's factor. */
  function AuthPreSpec(v: DaemonView, f: FrontEnd, userName: string, authApp: int): Outcome
  {
    var opening := [NotifyAuthMode, CreateSession(userName, authApp)];
    if v.session.None? then Outcome(PamSystemErr, opening)
    else if v.authMode == AUTH_MODE_OR then
      var offered := opening + (if f.loginUserSwitchable then [SetLoginUserSwitchable] else []) + [NotifySupportAuthType];
      if f.chosenAuthType == AUTH_TYPE_PASSWORD then
        Outcome(PamIgnore, offered + [NotifyAuthType(AUTH_TYPE_PASSWORD)])
      else
        var check := CheckFailuresSpec(v.failures, v.maxFailures, v.authMode);
        if check.code != PamSuccess then Outcome(check.code, offered + check.effects)
        else if !v.setAuthTypeOk then Outcome(PamSystemErr, offered + [SetAuthType(f.chosenAuthType)])
        else Outcome(PamSuccess, offered + [SetAuthType(f.chosenAuthType), NotifyAuthType(v.sessionAuthType)])
    else Outcome(PamSuccess, opening + [NotifyAuthType(v.sessionAuthType)])
  }

  /** startActionDoAuth: the preparation, then StartAuth on the session. */
  function DoAuthSpec(v: DaemonView, f: FrontEnd, userName: string, authApp: int): Outcome
  {
    var pre := AuthPreSpec(v, f, userName, authApp);
    if pre.code != PamSuccess then pre
    else Outcome(if v.startAuthOk then PamSuccess else PamSystemErr, pre.effects + [SessionStartAuth])
  }

  /** startActionAuthSucc: a found user's failures are reset; the module
      always yields to the next one. */
  function AuthSuccSpec(v: DaemonView): Outcome
  {
    var path := if v.userPath.Some? then v.userPath.value else "";
    Outcome(PamIgnore, if path != "" then [ResetFailures(path)] else [])
  }

  /** startAction: dispatch on the configured action. */
  function ActionSpec(action: string, v: DaemonView, f: FrontEnd, userName: string, authApp: int): Outcome
  {
    if action == ACTION_DO_AUTH then DoAuthSpec(v, f, userName, authApp)
    else if action == ACTION_AUTH_SUCC then AuthSuccSpec(v)
    else Outcome(PamIgnore, [])
  }

  /** start: the first step that does not succeed finishes the run with its
      result; a run whose steps all succeed waits for the session's verdict. */
  function StartSpec(action: string, v: DaemonView, f: FrontEnd, userName: string): seq<Effect>
  {
    var init := InitSpec(v);
    if init != PamSuccess then [Finish(init)]
    else
      var a := ActionSpec(action, v, f, userName, v.authApp.value);
      if a.code != PamSuccess then a.effects + [Finish(a.code)] else a.effects
  }

  /** onAuthPrompt: a known prompt type goes to the conversation, whose
      answer goes back to the session; an unknown type or a failed
      conversation finishes the run. */
  function PromptSpec(text: string, promptType: int, conv: PamCode, response: string): seq<Effect>
  {
    if promptType == PROMPT_TYPE_QUESTION || promptType == PROMPT_TYPE_SECRET then
      [SendPrompt(text, promptType)] + (if conv != PamSuccess then [Finish(conv)] else [ResponsePrompt(response)])
    else [Finish(PamAuthErr)]
  }

  /** onAuthMessage: like a prompt, without an answer. */
  function MessageSpec(text: string, messageType: int, conv: PamCode): seq<Effect>
  {
    if messageType == MESSAGE_TYPE_ERROR || messageType == MESSAGE_TYPE_INFO then
      [SendMessage(text, messageType)] + (if conv != PamSuccess then [Finish(conv)] else [])
    else [Finish(PamAuthErr)]
  }

  /** The session's verdicts. */
  datatype Verdict = AuthFailed | AuthUnavail | AuthSuccessed(userName: string)

  /** The PAM result each verdict finishes the run with. */
  function VerdictCode(verdict: Verdict): (code: PamCode)
  {
    match verdict
    case AuthFailed => PamAuthErr
    case AuthUnavail => PamAuthinfoUnavail
    case AuthSuccessed(_) => PamSuccess
  }

  /** The calls a verdict makes; success in "And" mode shows PASSWORD as the
      current factor before finishing. */
  function VerdictSpec(verdict: Verdict, authMode: int): seq<Effect>
  {
    (if verdict.AuthSuccessed? && authMode == AUTH_MODE_AND then [NotifyAuthType(AUTH_TYPE_PASSWORD)] else [])
    + [Finish(VerdictCode(verdict))]
  }

  /** PAM_USER after a verdict: only a success naming a user sets it. */
  function VerdictUser(verdict: Verdict, pamUser: string): string
  {
    if verdict.AuthSuccessed? && verdict.userName != "" then verdict.userName else pamUser
  }

  // ---- Properties ----

  /** checkFailures succeeds exactly below the threshold; at or above it
      "And" mode gives PAM_SYSTEM_ERR and every other mode PAM_IGNORE. */
  lemma CheckFailuresDecision(failures: int, maxFailures: int, authMode: int)
    ensures CheckFailuresSpec(failures, maxFailures, authMode).code == PamSuccess <==> failures < maxFailures
    ensures failures >= maxFailures && authMode == AUTH_MODE_AND ==> CheckFailuresSpec(failures, maxFailures, authMode).code == PamSystemErr
    ensures failures >= maxFailures && authMode != AUTH_MODE_AND ==> CheckFailuresSpec(failures, maxFailures, authMode).code == PamIgnore
    ensures LockedOutMessage in CheckFailuresSpec(failures, maxFailures, authMode).effects <==> failures >= maxFailures
  {
  }

  /** The lockout is checked only in "Or" mode after a factor other than
      PASSWORD was picked, so a locked-out user always gets PAM_IGNORE from
      the preparation: the "And" branch of checkFailures is never reached. */
  lemma LockoutOnlyAfterNonPasswordChoice(v: DaemonView, f: FrontEnd, userName: string, authApp: int)
    ensures var pre := AuthPreSpec(v, f, userName, authApp);
      LockedOutMessage in pre.effects ==>
        && v.session.Some? && v.authMode == AUTH_MODE_OR && f.chosenAuthType != AUTH_TYPE_PASSWORD
        && v.failures >= v.maxFailures && pre.code == PamIgnore
    ensures AuthPreSpec(v, f, userName, authApp).code != PamSystemErr ==>
      v.session.Some? && (v.authMode != AUTH_MODE_OR || f.chosenAuthType == AUTH_TYPE_PASSWORD || v.failures >= v.maxFailures || v.setAuthTypeOk)
  {
  }

  /** Picking PASSWORD yields PAM_IGNORE with no lockout check and no
      SetAuthType call. */
  lemma PasswordChoiceSkipsDaemon(v: DaemonView, f: FrontEnd, userName: string, authApp: int)
    requires v.session.Some? && v.authMode == AUTH_MODE_OR && f.chosenAuthType == AUTH_TYPE_PASSWORD
    ensures var pre := AuthPreSpec(v, f, userName, authApp);
      && pre.code == PamIgnore
      && LockedOutMessage !in pre.effects
      && (forall t :: SetAuthType(t) !in pre.effects)
      && pre.effects[|pre.effects| - 1] == NotifyAuthType(AUTH_TYPE_PASSWORD)
  {
  }

  /** start finishes exactly when a step fails, with that step's result, and
      finishes once; StartAuth is called only when every step before it
      succeeded. */
  lemma StartStopsAtFirstFailure(action: string, v: DaemonView, f: FrontEnd, userName: string)
    ensures var e := StartSpec(action, v, f, userName);
      && (InitSpec(v) != PamSuccess ==> e == [Finish(InitSpec(v))])
      && (InitSpec(v) == PamSuccess ==>
            var a := ActionSpec(action, v, f, userName, v.authApp.value);
            (a.code == PamSuccess ==> e == a.effects) && (a.code != PamSuccess ==> e == a.effects + [Finish(a.code)]))
    ensures SessionStartAuth in StartSpec(action, v, f, userName) ==>
      InitSpec(v) == PamSuccess && action == ACTION_DO_AUTH
      && AuthPreSpec(v, f, userName, v.authApp.value).code == PamSuccess
    ensures var e := StartSpec(action, v, f, userName);
      forall i :: 0 <= i < |e| - 1 ==> !e[i].Finish?
  {
  }

  /** doauth runs the authentication; authsucc resets the failures of a found
      user and yields; any other action yields without a call. */
  lemma ActionDispatch(action: string, v: DaemonView, f: FrontEnd, userName: string, authApp: int)
    ensures action == ACTION_DO_AUTH ==> ActionSpec(action, v, f, userName, authApp) == DoAuthSpec(v, f, userName, authApp)
    ensures action == ACTION_AUTH_SUCC ==>
      ActionSpec(action, v, f, userName, authApp).code == PamIgnore
      && (ActionSpec(action, v, f, userName, authApp).effects != [] <==> v.userPath.Some? && v.userPath.value != "")
    ensures action != ACTION_DO_AUTH && action != ACTION_AUTH_SUCC ==> ActionSpec(action, v, f, userName, authApp) == Outcome(PamIgnore, [])
  {
  }

  /** The verdicts map to PAM_AUTH_ERR, PAM_AUTHINFO_UNAVAIL and PAM_SUCCESS,
      each distinct; PAM_USER changes only on a success naming a user. */
  lemma VerdictMapping(verdict: Verdict, pamUser: string)
    ensures VerdictCode(verdict) == PamSuccess <==> verdict.AuthSuccessed?
    ensures verdict == AuthFailed ==> VerdictCode(verdict) == PamAuthErr
    ensures verdict == AuthUnavail ==> VerdictCode(verdict) == PamAuthinfoUnavail
    ensures VerdictUser(verdict, pamUser) != pamUser ==> verdict.AuthSuccessed? && verdict.userName != ""
  {
  }

  /** An unknown prompt type, or a failed conversation, finishes the run
      with that result and sends the session no answer. */
  lemma PromptFailureSendsNoAnswer(text: string, promptType: int, conv: PamCode, response: string)
    ensures var e := PromptSpec(text, promptType, conv, response);
      (forall r :: ResponsePrompt(r) in e <==>
        (r == response && conv == PamSuccess && (promptType == PROMPT_TYPE_QUESTION || promptType == PROMPT_TYPE_SECRET)))
      && (promptType != PROMPT_TYPE_QUESTION && promptType != PROMPT_TYPE_SECRET ==> e == [Finish(PamAuthErr)])
      && (conv != PamSuccess ==> e[|e| - 1] == Finish(if promptType == PROMPT_TYPE_QUESTION || promptType == PROMPT_TYPE_SECRET then conv else PamAuthErr))
  {
  }

  /** init yields to the next module when the service is not registered with
      the daemon or the user is not found. */
  lemma InitIgnoresUnknown(v: DaemonView)
    ensures InitSpec(v) == PamSuccess <==> v.registered && v.authApp.Some? && v.userPath.Some? && v.userPath.value != ""
    ensures InitSpec(v) != PamSuccess ==> InitSpec(v) == PamIgnore
  {
  }

  // ---- One run ----

  class Authentication {
    var userName: string
    var authApplication: int
    var sessionID: Option<int>
    var effects: seq<Effect>

    constructor (userName: string)
      ensures this.userName == userName && effects == [] && sessionID == None && authApplication == AUTH_APP_NONE
    {
      this.userName := userName;
      authApplication := AUTH_APP_NONE;
      sessionID := None;
      effects := [];
    }

    method FinishAuth(result: PamCode)
      modifies this
      ensures effects == old(effects) + [Finish(result)]
      ensures userName == old(userName) && authApplication == old(authApplication) && sessionID == old(sessionID)
    {
      effects := effects + [Finish(result)];
    }

    method Init(v: DaemonView) returns (result: PamCode)
      modifies this
      ensures result == InitSpec(v)
      ensures result == PamSuccess ==> authApplication == v.authApp.value
      ensures effects == old(effects) && userName == old(userName) && sessionID == old(sessionID)
    {
      if !v.registered {
        return PamIgnore;
      }
      authApplication := if v.authApp.Some? then v.authApp.value else AUTH_APP_NONE;
      if v.authApp.None? {
        return PamIgnore;
      }
      if v.userPath.None? || v.userPath.value == "" {
        return PamIgnore;
      }
      result := PamSuccess;
    }

    method CheckFailures(v: DaemonView) returns (result: PamCode)
      modifies this
      ensures result == CheckFailuresSpec(v.failures, v.maxFailures, v.authMode).code
      ensures effects == old(effects) + CheckFailuresSpec(v.failures, v.maxFailures, v.authMode).effects
      ensures userName == old(userName) && authApplication == old(authApplication) && sessionID == old(sessionID)
    {
      if v.failures >= v.maxFailures {
        effects := effects + [LockedOutMessage];
        result := if v.authMode == AUTH_MODE_AND then PamSystemErr else PamIgnore;
        return;
      }
      result := PamSuccess;
    }

    method InitSession(v: DaemonView) returns (ok: bool)
      modifies this
      ensures ok <==> v.session.Some?
      ensures effects == old(effects) + [CreateSession(old(userName), old(authApplication))]
      ensures sessionID == (if ok then v.session else old(sessionID))
      ensures userName == old(userName) && authApplication == old(authApplication)
    {
      effects := effects + [CreateSession(userName, authApplication)];
      if v.session.None? {
        return false;
      }
      sessionID := v.session;
      ok := true;
    }

    method StartAuthPre(v: DaemonView, f: FrontEnd) returns (result: PamCode)
      modifies this
      ensures result == AuthPreSpec(v, f, old(userName), old(authApplication)).code
      ensures effects == old(effects) + AuthPreSpec(v, f, old(userName), old(authApplication)).effects
      ensures userName == old(userName) && authApplication == old(authApplication)
    {
      ghost var e0 := effects;
      ghost var opening := [NotifyAuthMode, CreateSession(userName, authApplication)];
      effects := effects + [NotifyAuthMode];
      var ok := InitSession(v);
      AppendAssoc(e0, [NotifyAuthMode], [CreateSession(userName, authApplication)]);
      if !ok {
        return PamSystemErr;
      }
      ghost var prefix := opening;
      if v.authMode == AUTH_MODE_OR {
        if f.loginUserSwitchable {
          effects := effects + [SetLoginUserSwitchable];
        }
        effects := effects + [NotifySupportAuthType];
        ghost var offered := opening + (if f.loginUserSwitchable then [SetLoginUserSwitchable] else []) + [NotifySupportAuthType];
        assert effects == e0 + offered;
        var authType := f.chosenAuthType;
        if authType == AUTH_TYPE_PASSWORD {
          effects := effects + [NotifyAuthType(authType)];
          AppendAssoc(e0, offered, [NotifyAuthType(authType)]);
          return PamIgnore;
        }
        ghost var check := CheckFailuresSpec(v.failures, v.maxFailures, v.authMode);
        result := CheckFailures(v);
        AppendAssoc(e0, offered, check.effects);
        if result != PamSuccess {
          return;
        }
        assert check.effects == [];
        effects := effects + [SetAuthType(authType)];
        AppendAssoc(e0, offered, [SetAuthType(authType)]);
        if !v.setAuthTypeOk {
          return PamSystemErr;
        }
        AppendAssoc(offered, [SetAuthType(authType)], [NotifyAuthType(v.sessionAuthType)]);
        prefix := offered + [SetAuthType(authType)];
      }
      effects := effects + [NotifyAuthType(v.sessionAuthType)];
      AppendAssoc(e0, prefix, [NotifyAuthType(v.sessionAuthType)]);
      result := PamSuccess;
    }

    method StartAuth(v: DaemonView) returns (result: PamCode)
      modifies this
      ensures result == (if v.startAuthOk then PamSuccess else PamSystemErr)
      ensures effects == old(effects) + [SessionStartAuth]
      ensures userName == old(userName) && authApplication == old(authApplication) && sessionID == old(sessionID)
    {
      effects := effects + [SessionStartAuth];
      result := if v.startAuthOk then PamSuccess else PamSystemErr;
    }

    method StartActionDoAuth(v: DaemonView, f: FrontEnd) returns (result: PamCode)
      modifies this
      ensures result == DoAuthSpec(v, f, old(userName), old(authApplication)).code
      ensures effects == old(effects) + DoAuthSpec(v, f, old(userName), old(authApplication)).effects
      ensures userName == old(userName) && authApplication == old(authApplication)
    {
      result := StartAuthPre(v, f);
      if result != PamSuccess {
        return;
      }
      result := StartAuth(v);
    }

    method StartActionAuthSucc(v: DaemonView) returns (result: PamCode)
      modifies this
      ensures result == AuthSuccSpec(v).code
      ensures effects == old(effects) + AuthSuccSpec(v).effects
      ensures userName == old(userName) && authApplication == old(authApplication) && sessionID == old(sessionID)
    {
      var path := if v.userPath.Some? then v.userPath.value else "";
      if path != "" {
        effects := effects + [ResetFailures(path)];
      }
      result := PamIgnore;
    }

    method StartAction(action: string, v: DaemonView, f: FrontEnd) returns (result: PamCode)
      modifies this
      ensures result == ActionSpec(action, v, f, old(userName), old(authApplication)).code
      ensures effects == old(effects) + ActionSpec(action, v, f, old(userName), old(authApplication)).effects
      ensures userName == old(userName) && authApplication == old(authApplication)
    {
      if action == ACTION_DO_AUTH {
        result := StartActionDoAuth(v, f);
      } else if action == ACTION_AUTH_SUCC {
        result := StartActionAuthSucc(v);
      } else {
        result := PamIgnore;
      }
    }

    /** start: init, then the action; the first failure finishes the run. */
    method Start(action: string, v: DaemonView, f: FrontEnd)
      modifies this
      ensures effects == old(effects) + StartSpec(action, v, f, old(userName))
    {
      var result := Init(v);
      if result != PamSuccess {
        FinishAuth(result);
        return;
      }
      result := StartAction(action, v, f);
      if result != PamSuccess {
        FinishAuth(result);
      }
    }

    method OnAuthPrompt(text: string, promptType: int, conv: PamCode, response: string)
      modifies this
      ensures effects == old(effects) + PromptSpec(text, promptType, conv, response)
    {
      var retval := PamSuccess;
      if promptType == PROMPT_TYPE_QUESTION || promptType == PROMPT_TYPE_SECRET {
        effects := effects + [SendPrompt(text, promptType)];
        retval := conv;
      } else {
        retval := PamAuthErr;
      }
      if retval != PamSuccess {
        FinishAuth(retval);
      } else {
        effects := effects + [ResponsePrompt(response)];
      }
    }

    method OnAuthMessage(text: string, messageType: int, conv: PamCode)
      modifies this
      ensures effects == old(effects) + MessageSpec(text, messageType, conv)
    {
      var retval := PamSuccess;
      if messageType == MESSAGE_TYPE_ERROR || messageType == MESSAGE_TYPE_INFO {
        effects := effects + [SendMessage(text, messageType)];
        retval := conv;
      } else {
        retval := PamAuthErr;
      }
      if retval != PamSuccess {
        FinishAuth(retval);
      }
    }

    method OnAuthFailed()
      modifies this
      ensures effects == old(effects) + VerdictSpec(AuthFailed, AUTH_MODE_NONE)
      ensures userName == old(userName)
    {
      FinishAuth(PamAuthErr);
    }

    method OnAuthUnavail()
      modifies this
      ensures effects == old(effects) + VerdictSpec(AuthUnavail, AUTH_MODE_NONE)
      ensures userName == old(userName)
    {
      FinishAuth(PamAuthinfoUnavail);
    }

    /** onAuthSuccessed: PAM_USER takes a non-empty name; `authMode` is the
        daemon's mode read at that moment. */
    method OnAuthSuccessed(name: string, authMode: int)
      modifies this
      ensures effects == old(effects) + VerdictSpec(AuthSuccessed(name), authMode)
      ensures userName == VerdictUser(AuthSuccessed(name), old(userName))
    {
      if name != "" {
        userName := name;
      }
      if authMode == AUTH_MODE_AND {
        effects := effects + [NotifyAuthType(AUTH_TYPE_PASSWORD)];
      }
      FinishAuth(PamSuccess);
    }

    /** onAuthTypeChanged: the front end follows the session's factor. */
    method OnAuthTypeChanged(authType: int)
      modifies this
      ensures effects == old(effects) + [NotifyAuthType(authType)]
      ensures userName == old(userName) && sessionID == old(sessionID)
    {
      effects := effects + [NotifyAuthType(authType)];
    }

    /** The destructor: a session this run created is destroyed. */
    method Dispose()
      modifies this
      ensures effects == old(effects) + (if old(sessionID).Some? then [DestroySession(old(sessionID).value)] else [])
    {
      if sessionID.Some? {
        effects := effects + [DestroySession(sessionID.value)];
      }
    }
  }
}
