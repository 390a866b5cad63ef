// A user known to the daemon (src/daemon/user.cpp): its failure counter,
// its identifications and its enrollment request on a device queue.
//
// The store is a `UserConfig` object the user owns. What the user asks of a
// device queue is appended to `commands`; what the queue calls back
// (`start`, `interrupt`, `cancel`, `end`, enroll status) are methods of the
// class. Signals are appended to `signals`. The queue factory and the user
// manager's index enter as values: `adaptors` is the set of factors for
// which the factory yields a queue, `indexed` the identification ids the
// manager knows an owner for, `iidOf` the derivation of identification ids.
module UserModel {
  import opened KasTypes
  import opened KadError
  import opened UserConfigModel
  import Utils
  import DeviceProtocol

  /** setFailures: a negative count is refused and leaves the counter as it
      was; any other count becomes the counter (the store skips an unchanged
      value, which leaves the same counter). */
  function SetFailuresSpec(current: int, failures: int): (r: int)
    ensures failures < 0 ==> r == current
    ensures failures >= 0 ==> r == failures
  {
    if failures < 0 then current else failures
  }

  /** Enrollment asks for devices at high priority. */
  function Priority(): (p: int)
    ensures p == DeviceProtocol.DEVICE_REQUEST_PRIORITY_HIGH
  {
    DeviceProtocol.DEVICE_REQUEST_PRIORITY_HIGH
  }

  datatype DBusError = AccessDenied | AddressInUse | InvalidArgs | Failed

  /** What a handler answers its D-Bus caller: a plain reply, nothing, or an
      error with a daemon error code. */
  datatype Reply = Replied | NoReply | ErrorReply(error: DBusError, code: int)

  datatype UserSignal =
    | EnrollStatus(bid: string, result: EnrollResult, progress: int, interrupt: bool)
    | IdentificationAdded(iid: string)
    | IdentificationDeleted(iid: string)

  /** A call made on the device queue of a factor. */
  datatype EnrollCommand =
    | Enroll(authType: int, extraInfo: string)
    | StopEnroll(authType: int, requestID: int)

  /** The enrollment bookkeeping: the queued request id (-1 when none) and
      the factor whose queue holds it. */
  datatype UserState = UserState(
    requestID: int,
    adaptor: Option<int>,
    signals: seq<UserSignal>,
    commands: seq<EnrollCommand>)

  const INITIAL_USER: UserState := UserState(-1, None, [], [])

  // ---- Specification of each step ----

  /** onEnrollStart: refused while a request id above 0 is recorded, and
      when the factory has no queue for the factor. */
  function EnrollStartReply(u: UserState, authType: int, adaptors: set<int>): Reply
  {
    if u.requestID > 0 then ErrorReply(AccessDenied, ERROR_USER_ENROLLING)
    else if authType !in adaptors then ErrorReply(AddressInUse, ERROR_FAILED)
    else Replied
  }

  /** Otherwise the queue is remembered and asked to enroll. */
  function EnrollStartSpec(u: UserState, authType: int, extraInfo: string, adaptors: set<int>): UserState
  {
    if EnrollStartReply(u, authType, adaptors) != Replied then u
    else u.(adaptor := Some(authType), commands := u.commands + [Enroll(authType, extraInfo)])
  }

  /** onEnrollStop: the queue is told to stop only when a request id above 0
      is recorded and a queue is held. */
  function EnrollStopSpec(u: UserState): UserState
  {
    if u.requestID > 0 && u.adaptor.Some? then u.(commands := u.commands + [StopEnroll(u.adaptor.value, u.requestID)])
    else u
  }

  /** The status a stopped enrollment reports: failed, by interruption. */
  const INTERRUPTED_STATUS: UserSignal := EnrollStatus("", EnrollFail, 0, true)

  /** interrupt and cancel report the same interrupted failure. */
  function InterruptSpec(u: UserState): UserState
  {
    u.(signals := u.signals + [INTERRUPTED_STATUS])
  }

  /** end: the request is done; no id and no queue are held any more. */
  function EndSpec(u: UserState): UserState
  {
    u.(requestID := -1, adaptor := None)
  }

  /** onAddIdentification: refused for a factor without a name, and for an
      id the user manager already knows an owner for. */
  function AddIdentificationReply(authType: int, dataID: string, indexed: set<string>, iidOf: (int, string) -> string): Reply
  {
    if Utils.AuthTypeEnum2Str(authType) == "" then ErrorReply(InvalidArgs, ERROR_FAILED)
    else if iidOf(authType, dataID) in indexed then ErrorReply(Failed, ERROR_USER_IID_ALREADY_EXISTS)
    else NoReply
  }

  /** Otherwise the store is asked to add the id, and the addition is
      announced whatever the store answered. */
  function AddIdentificationSpec(u: UserState, authType: int, dataID: string, indexed: set<string>, iidOf: (int, string) -> string): UserState
  {
    if AddIdentificationReply(authType, dataID, indexed, iidOf) != NoReply then u
    else u.(signals := u.signals + [IdentificationAdded(iidOf(authType, dataID))])
  }

  function AddIdentificationStoreSpec(c: UserConfigState, authType: int, name: string, dataID: string, indexed: set<string>, iidOf: (int, string) -> string): UserConfigState
  {
    if AddIdentificationReply(authType, dataID, indexed, iidOf) != NoReply then c
    else AddIIDSpec(c, authType, iidOf(authType, dataID), name, dataID)
  }

  /** onDeleteIdentification: refused for an id the user does not list. */
  function DeleteIdentificationReply(c: UserConfigState, iid: string): Reply
  {
    if iid !in c.iids then ErrorReply(InvalidArgs, ERROR_INVALID_ARGUMENT) else Replied
  }

  function DeleteIdentificationSpec(u: UserState, c: UserConfigState, iid: string): UserState
  {
    if iid !in c.iids then u else u.(signals := u.signals + [IdentificationDeleted(iid)])
  }

  function DeleteIdentificationStoreSpec(c: UserConfigState, iid: string): UserConfigState
  {
    if iid !in c.iids then c else DeleteIIDSpec(c, iid)
  }

  /** setFailures on the store: a negative count changes nothing. */
  function UserSetFailuresSpec(c: UserConfigState, failures: int): UserConfigState
  {
    if failures < 0 then c else UserConfigModel.SetFailuresSpec(c, failures)
  }

  /** hasIdentification: getIIDs of the factor is not empty. */
  predicate HasIdentificationSpec(c: UserConfigState, authType: int)
  {
    |IIDsOfType(c, authType)| > 0
  }

  // ---- Properties ----

  /** Enrollment pre-empts authentication on a shared device: a session asks
      at low priority, strictly below the user's. */
  lemma EnrollmentOutranksSessions()
    ensures Priority() > DeviceProtocol.DEVICE_REQUEST_PRIORITY_LOW
  {
    DeviceProtocol.PrioritiesOrdered();
  }

  /** The counter the store keeps is the one the session charges through. */
  lemma UserSetFailuresCounter(c: UserConfigState, failures: int)
    ensures UserSetFailuresSpec(c, failures).failures == SetFailuresSpec(c.failures, failures)
    ensures failures < 0 ==> UserSetFailuresSpec(c, failures) == c
    ensures UserSetFailuresSpec(c, failures).iids == c.iids && UserSetFailuresSpec(c, failures).info == c.info
  {
  }

  /** hasIdentification holds exactly when some stored id is of the factor. */
  lemma HasIdentificationExact(c: UserConfigState, authType: int)
    ensures HasIdentificationSpec(c, authType) <==> exists k :: k in c.info && c.info[k].authType == authType
  {
    GetIIDsExact(c, authType);
    var ids := IIDsOfType(c, authType);
    if exists k :: k in c.info && c.info[k].authType == authType {
      var k :| k in c.info && c.info[k].authType == authType;
      assert k in ids;
    }
    if |ids| > 0 {
      assert ids[0] in ids;
    }
  }

  /** onEnrollStart: a recorded request id above 0 blocks a new enrollment,
      and so does a factor without a queue; otherwise the enrollment is
      handed to the factor's queue. */
  lemma EnrollStartGuards(u: UserState, authType: int, extraInfo: string, adaptors: set<int>)
    ensures u.requestID > 0 ==> EnrollStartReply(u, authType, adaptors) == ErrorReply(AccessDenied, ERROR_USER_ENROLLING)
    ensures u.requestID <= 0 && authType !in adaptors ==> EnrollStartReply(u, authType, adaptors) == ErrorReply(AddressInUse, ERROR_FAILED)
    ensures EnrollStartReply(u, authType, adaptors) != Replied ==> EnrollStartSpec(u, authType, extraInfo, adaptors) == u
    ensures EnrollStartReply(u, authType, adaptors) == Replied <==> u.requestID <= 0 && authType in adaptors
    ensures EnrollStartReply(u, authType, adaptors) == Replied ==>
      EnrollStartSpec(u, authType, extraInfo, adaptors).commands == u.commands + [Enroll(authType, extraInfo)]
      && EnrollStartSpec(u, authType, extraInfo, adaptors).adaptor == Some(authType)
  {
  }

  /** A device queue hands out 0 as its first request id, and the guard only
      blocks ids above 0: while a first request is queued, a second
      enrollment is accepted and replaces the queue the user holds. */
  lemma EnrollStartIgnoresFirstRequest(u: UserState, authType: int, extraInfo: string, adaptors: set<int>)
    requires u.requestID == 0 && u.adaptor.Some? && authType in adaptors
    ensures EnrollStartReply(u, authType, adaptors) == Replied
    ensures EnrollStartSpec(u, authType, extraInfo, adaptors).adaptor == Some(authType)
    ensures EnrollStartSpec(u, authType, extraInfo, adaptors).requestID == 0
  {
  }

  /** A queued enrollment ends in one of two ways: stopped (interrupt or
      cancel) it reports an interrupted failure; finished, end clears the
      id so that a new enrollment is accepted. */
  lemma EnrollLifecycle(u: UserState, authType: int, extraInfo: string, adaptors: set<int>)
    requires authType in adaptors
    ensures InterruptSpec(u).signals[|u.signals|] == EnrollStatus("", EnrollFail, 0, true)
    ensures EndSpec(u).requestID == -1 && EndSpec(u).adaptor == None
    ensures EnrollStartReply(EndSpec(u), authType, adaptors) == Replied
    ensures EnrollStopSpec(EndSpec(u)) == EndSpec(u)
  {
  }

  /** onAddIdentification: a factor with no name and an id someone owns are
      refused with nothing changed; otherwise the id is announced and, when
      the store had no group for it, the user has an identification of that
      factor afterwards. */
  lemma AddIdentificationGuards(u: UserState, c: UserConfigState, authType: int, name: string, dataID: string,
                                indexed: set<string>, iidOf: (int, string) -> string)
    ensures !Utils.NamedAuthType(authType) ==>
      AddIdentificationReply(authType, dataID, indexed, iidOf) == ErrorReply(InvalidArgs, ERROR_FAILED)
    ensures Utils.NamedAuthType(authType) && iidOf(authType, dataID) in indexed ==>
      AddIdentificationReply(authType, dataID, indexed, iidOf) == ErrorReply(Failed, ERROR_USER_IID_ALREADY_EXISTS)
    ensures AddIdentificationReply(authType, dataID, indexed, iidOf) != NoReply ==>
      AddIdentificationSpec(u, authType, dataID, indexed, iidOf) == u
      && AddIdentificationStoreSpec(c, authType, name, dataID, indexed, iidOf) == c
    ensures AddIdentificationReply(authType, dataID, indexed, iidOf) == NoReply && iidOf(authType, dataID) !in c.file.groups ==>
      var t := AddIdentificationStoreSpec(c, authType, name, dataID, indexed, iidOf);
      HasIdentificationSpec(t, authType) && IIDName(t, iidOf(authType, dataID)) == name
      && IIDBid(t, iidOf(authType, dataID)) == dataID
  {
    var iid := iidOf(authType, dataID);
    if AddIdentificationReply(authType, dataID, indexed, iidOf) == NoReply && iid !in c.file.groups {
      AddIIDTakesEffect(c, authType, iid, name, dataID);
      HasIdentificationExact(AddIIDSpec(c, authType, iid, name, dataID), authType);
    }
  }

  /** onDeleteIdentification: an id the user does not list is refused with
      nothing changed; a listed id with a group in the file is gone from
      every factor afterwards. */
  lemma DeleteIdentificationGuards(u: UserState, c: UserConfigState, iid: string, authType: int)
    ensures iid !in c.iids ==>
      (DeleteIdentificationReply(c, iid) == ErrorReply(InvalidArgs, ERROR_INVALID_ARGUMENT)
       && DeleteIdentificationSpec(u, c, iid) == u && DeleteIdentificationStoreSpec(c, iid) == c)
    ensures iid in c.iids ==>
      (DeleteIdentificationReply(c, iid) == Replied
       && DeleteIdentificationSpec(u, c, iid).signals == u.signals + [IdentificationDeleted(iid)])
    ensures iid in c.iids && iid in c.file.groups ==>
      iid !in IIDsOfType(DeleteIdentificationStoreSpec(c, iid), authType)
      && IIDAuthType(DeleteIdentificationStoreSpec(c, iid), iid) == AUTH_TYPE_NONE
  {
    if iid in c.iids && iid in c.file.groups {
      DeleteIIDTakesEffect(c, iid, authType);
    }
  }

  // ---- The user ----

  class User {
    const userName: string
    const uid: int
    const config: UserConfig
    var requestID: int
    var adaptor: Option<int>
    var signals: seq<UserSignal>
    var commands: seq<EnrollCommand>

    function State(): UserState
      reads this
    {
      UserState(requestID, adaptor, signals, commands)
    }

    /** A user with the store read from its file and no enrollment. */
    constructor (userName: string, uid: int, file: UserFile)
      ensures this.userName == userName && this.uid == uid
      ensures State() == INITIAL_USER
      ensures fresh(config) && config.userName == userName && config.State() == LoadSpec(file)
    {
      this.userName := userName;
      this.uid := uid;
      config := new UserConfig(userName, file);
      requestID := -1;
      adaptor := None;
      signals := [];
      commands := [];
    }

    /** getIIDs: the listed identification ids. */
    function GetIIDs(): (r: seq<string>)
      reads this, config
      ensures forall k :: k in config.info && WF(config.State()) ==> k in r
    {
      config.iids
    }

    /** hasIdentification: some stored id is of the factor. */
    predicate HasIdentification(authType: int)
      reads this, config
    {
      HasIdentificationSpec(config.State(), authType)
    }

    /** setFailures: a negative count is an invalid argument for a D-Bus
        caller and ignored for a caller in the daemon. */
    method SetFailures(failures: int, fromDBus: bool) returns (reply: Reply)
      modifies config
      ensures config.State() == UserSetFailuresSpec(old(config.State()), failures)
      ensures reply == (if failures < 0 && fromDBus then ErrorReply(InvalidArgs, ERROR_FAILED) else NoReply)
    {
      if failures < 0 {
        if fromDBus {
          return ErrorReply(InvalidArgs, ERROR_FAILED);
        }
        return NoReply;
      }
      config.SetFailures(failures);
      reply := NoReply;
    }

    /** onResetFailures: the counter becomes 0. */
    method ResetFailures() returns (reply: Reply)
      modifies config
      ensures config.State() == UserConfigModel.SetFailuresSpec(old(config.State()), 0)
      ensures reply == Replied
    {
      config.SetFailures(0);
      reply := Replied;
    }

    /** The queue's callback once the request is queued: its id is recorded. */
    method Start(reqID: int)
      modifies this
      ensures State() == old(State()).(requestID := reqID)
    {
      requestID := reqID;
    }

    method Interrupt()
      modifies this
      ensures State() == InterruptSpec(old(State()))
    {
      signals := signals + [EnrollStatus("", EnrollFail, 0, true)];
    }

    method Cancel()
      modifies this
      ensures State() == InterruptSpec(old(State()))
    {
      signals := signals + [EnrollStatus("", EnrollFail, 0, true)];
    }

    method End()
      modifies this
      ensures State() == EndSpec(old(State()))
    {
      requestID := -1;
      adaptor := None;
    }

    /** onEnrollStatus: forwarded, not as an interruption. */
    method OnEnrollStatus(bid: string, progress: int, result: EnrollResult)
      modifies this
      ensures State() == old(State()).(signals := old(signals) + [EnrollStatus(bid, result, progress, false)])
    {
      signals := signals + [EnrollStatus(bid, result, progress, false)];
    }

    method OnEnrollStart(authType: int, extraInfo: string, adaptors: set<int>) returns (reply: Reply)
      modifies this
      ensures reply == EnrollStartReply(old(State()), authType, adaptors)
      ensures State() == EnrollStartSpec(old(State()), authType, extraInfo, adaptors)
    {
      if requestID > 0 {
        return ErrorReply(AccessDenied, ERROR_USER_ENROLLING);
      }
      if authType !in adaptors {
        return ErrorReply(AddressInUse, ERROR_FAILED);
      }
      adaptor := Some(authType);
      commands := commands + [Enroll(authType, extraInfo)];
      reply := Replied;
    }

    method OnEnrollStop() returns (reply: Reply)
      modifies this
      ensures reply == Replied
      ensures State() == EnrollStopSpec(old(State()))
    {
      if requestID > 0 && adaptor.Some? {
        commands := commands + [StopEnroll(adaptor.value, requestID)];
      }
      reply := Replied;
    }

    method OnAddIdentification(authType: int, name: string, dataID: string,
                               indexed: set<string>, iidOf: (int, string) -> string) returns (reply: Reply)
      modifies this, config
      ensures reply == AddIdentificationReply(authType, dataID, indexed, iidOf)
      ensures State() == AddIdentificationSpec(old(State()), authType, dataID, indexed, iidOf)
      ensures config.State() == AddIdentificationStoreSpec(old(config.State()), authType, name, dataID, indexed, iidOf)
    {
      var authTypeStr := Utils.AuthTypeEnum2Str(authType);
      if |authTypeStr| == 0 {
        return ErrorReply(InvalidArgs, ERROR_FAILED);
      }
      var iid := iidOf(authType, dataID);
      if iid in indexed {
        return ErrorReply(Failed, ERROR_USER_IID_ALREADY_EXISTS);
      }
      var _ := config.AddIID(authType, iid, name, dataID);
      signals := signals + [IdentificationAdded(iid)];
      reply := NoReply;
    }

    method OnDeleteIdentification(iid: string) returns (reply: Reply)
      modifies this, config
      ensures reply == DeleteIdentificationReply(old(config.State()), iid)
      ensures State() == DeleteIdentificationSpec(old(State()), old(config.State()), iid)
      ensures config.State() == DeleteIdentificationStoreSpec(old(config.State()), iid)
    {
      if iid !in config.iids {
        return ErrorReply(InvalidArgs, ERROR_INVALID_ARGUMENT);
      }
      var _ := config.DeleteIID(iid);
      reply := Replied;
      signals := signals + [IdentificationDeleted(iid)];
    }

    /** removeCache: the store's file is emptied. */
    method RemoveCache()
      modifies config
      ensures config.State() == RemoveCacheSpec(old(config.State()))
    {
      config.RemoveCache();
    }
  }
}
