# kiran-authentication-service, modelled in Dafny

The Kiran authentication service is a system daemon with a PAM module in front
of it. It runs login, unlock and privilege-escalation attempts that can use
several factors: fingerprint, finger vein, face, iris, UKey and password.
Several callers may need the same biometric or UKey device at once, and the
daemon keeps them in order.

This project models the decision logic of the daemon and of the PAM module:

- **Device arbitration.**
  - Each device has a queue of requests. The queue decides which request holds
    the device, by priority and then by arrival. A request of strictly higher
    priority pre-empts the running one.
  - The queue tells each request's source when it is queued, interrupted,
    cancelled or ended.
  - The modules are `DeviceAdaptorModel` and `DeviceProtocol`.
  - An older variant of the queue only serves processes of the active login
    session. It has a dispatcher that routes requests by major type. These are
    `DeviceRequestControllerModel` and `DeviceRequestDispatcherModel`.
  - `DeviceAdaptorFactoryModel` caches one queue per factor and chooses the
    device behind it.
- **Authentication sessions** (`SessionModel`).
  - A session runs one factor in "Or" mode, or every enabled factor in turn in
    "And" mode.
  - It matches the identification a device reports against the user.
  - It charges or resets the user's failure counter.
- **Policy and registry.**
  - `AuthConfigModel` holds the configuration: which factors are enabled, for
    which applications, and each factor's default device.
  - `AuthManagerModel` holds the ordered factor list an application is offered,
    the table from PAM service to application, and the session registry with
    its id allocation.
- **Users.**
  - `UserConfigModel` is the user's table of identifications and failure
    counter.
  - `UserModel` covers enrollment and the adding and deleting of
    identifications.
  - `UserManagerModel` is the daemon's index from identification to user.
- **Conversions.**
  - `Utils` holds the name and device-type tables the daemon and the PAM
    module use (src/utils/utils.cpp).
  - `DaemonUtils` is the second copy of those tables in src/daemon/utils.cpp,
    which is not part of the daemon's build; it is modelled to state how it
    differs from the shared copy.
  - `AuthDeviceJson` parses the device list.
  - `KadError` builds the error descriptions.
- **The PAM module.**
  - `PamAuthentication` covers the lockout check, the action dispatch, the
    preparation of a session, and the mapping from session outcomes to PAM
    results.
  - `PamTerminal` covers the numbered factor menu of the text front end.

## How the model is built

Each component that updates its state in place is a Dafny class whose fields
are that state.

- A function `State()` reads the fields into a value.
- Every method states its new state as a specification function of the old
  state and its inputs.
- The properties are lemmas about those functions.

What a component does to others is recorded as a sequence the methods append
to. This covers calls on a request's source, signals, D-Bus replies, calls on
the session proxy and messages to the PAM conversation. Call order can
therefore be stated and proved.

The system's own services enter as values or parameters:

- the account database, the users' and the daemon's INI files, the login
  manager's active sessions and a process's session;
- the device service and the D-Bus proxies, the random draws of session ids,
  and the digest that names an identification.

The model follows the code as written, with one exception: the parameter
order of the enrollment status, where the model reads the value passed as the
result as the result (see `DeviceAdaptorModel.StartSpec` and
`UserModel.User.OnEnrollStatus` under "## Left out"). The lemmas expose
these behaviours of the code:

- the first request id 0 slips past the guards that test for an id above 0;
- "And" mode always fails at the password factor;
- the feature ids are never sent to the device;
- `end` can clear the request id of the next phase;
- the terminal offers the password factor twice;
- the controller's `removeRequest` dereferences a missing current request.

Each of these is modelled as the code has it.

## Model

| member | source | states |
|---|---|---|
| Utils.AuthModeEnum2Str | src/utils/utils.cpp:59-71 | a mode has a name exactly when it is "And" or "Or" |
| Utils.AuthModeStr2Enum | src/utils/utils.cpp:73-85 | every string reads as NONE, AND or OR; an unknown name reads as NONE |
| Utils.AuthModeRoundTrip | src/utils/utils.cpp:59-85 | a named mode survives being written and read back, and so does a recognised name |
| Utils.AuthTypeEnum2Str | src/utils/utils.cpp:87-107 | a factor has a name exactly when it is one of the six named factors |
| Utils.AuthTypeStr2Enum | src/utils/utils.cpp:109-129 | every string reads as NONE or as one of the six named factors |
| Utils.AuthTypeRoundTrip | src/utils/utils.cpp:87-129 | name and value determine each other for every named factor, in both directions |
| Utils.AuthType2DeviceType | src/utils/utils.cpp:131-149 | a device kind exists exactly for the five named factors other than password (None stands for -1) |
| Utils.DeviceType2AuthType | src/utils/utils.cpp:151-169 | only an unknown device kind reads as NONE |
| Utils.DeviceTypeRoundTrip | src/utils/utils.cpp:131-169 | every device kind and every device factor map to each other and back |
| Utils.AuthOrderEnum2Str | src/utils/utils.cpp:171-179 | the list of names has the order's length and names each element in place |
| Utils.AuthOrderStr2Enum | src/utils/utils.cpp:181-189 | the list of factors has the names' length and reads each element in place |
| Utils.AuthOrderRoundTrip | src/utils/utils.cpp:171-189 | an order made of named factors is unchanged by writing it out and reading it back |
| Utils.AuthTypeEnum2LocaleStr | src/utils/utils.cpp:191-210 | a factor has a display label exactly when it is one of the six named factors |
| Utils.IdentifyResultEnum2Str | src/utils/utils.cpp:212-228 | the message is empty exactly for the NORMAL status |
| Utils.IdentifyResultMessagesDistinct | src/utils/utils.cpp:212-228 | two different listed statuses have different messages |
| DaemonUtils.AuthTypeEnum2Str | src/daemon/utils.cpp:86-102 | the daemon names exactly the four factors with a configuration group |
| DaemonUtils.AuthTypeStr2Enum | src/daemon/utils.cpp:104-120 | every string reads as NONE or as one of those four factors |
| DaemonUtils.AuthTypeRoundTrip | src/daemon/utils.cpp:86-120 | name and value determine each other for those four factors, in both directions |
| DaemonUtils.AgreesWithSharedTable | src/daemon/utils.cpp:86-120 | where this copy's table gives a name it is the shared table's; among the shared names it lacks exactly password and iris |
| DaemonUtils.AuthType2DeviceType | src/daemon/utils.cpp:122-136 | only fingerprint, face and finger vein have a device kind, the same one as in the shared table |
| DaemonUtils.DeviceType2AuthType | src/daemon/utils.cpp:138-152 | only the fingerprint, face and finger-vein kinds read as a factor |
| DaemonUtils.DeviceTypeRoundTrip | src/daemon/utils.cpp:122-152 | those three kinds and factors map to each other and back |
| DaemonUtils.AuthOrderEnum2Str | src/daemon/utils.cpp:154-162 | element-wise names, same length |
| DaemonUtils.AuthOrderStr2Enum | src/daemon/utils.cpp:164-172 | element-wise values, same length |
| DaemonUtils.AuthOrderRoundTrip | src/daemon/utils.cpp:154-172 | reading back a written order gives the order with every factor outside the four groups replaced by NONE |
| DaemonUtils.VerifyResultEnum2Str | src/daemon/utils.cpp:198-212 | the message is never empty: it is the shared message, and NORMAL gets the "unknown" message |
| KadError.AsUnsigned32 | src/daemon/error.cpp:55 | the value `%x` prints for a 32-bit code is below 2^32 and equals the code when the code is non-negative |
| KadError.Hex | src/daemon/error.cpp:55 | lowercase hexadecimal digits without a leading zero |
| KadError.HexRoundTrip | src/daemon/error.cpp:55 | the printed hexadecimal reads back as the number |
| KadError.MessageHasNoPercent | src/daemon/error.cpp:27-53 | no message of the table contains '%' |
| KadError.GetErrorDesc | src/daemon/error.cpp:24-57 | the description starts with the code's message, is longer than it and contains no '%' |
| KadError.SuffixRoundTrip | src/daemon/error.cpp:55 | the code suffix ends with ')' and the hexadecimal after its last 'x' is the code |
| KadError.ErrorDescCodeRoundTrip | src/daemon/error.cpp:24-57 | the code can be read back from any description |
| KadError.ErrorDescDeterminesCode | src/daemon/error.cpp:24-57 | two codes with the same description are the same code |
| AuthDeviceJson.MemberString | src/daemon/json/auth-device.cpp:35-37 | a member reads as its text when it is a string and as "" otherwise, including when it is missing |
| AuthDeviceJson.DevicesOfItems | src/daemon/json/auth-device.cpp:26-40 | at most one device per array element |
| AuthDeviceJson.AuthDevicesFromJson | src/daemon/json/auth-device.cpp:15-42 | a text that is not a JSON array gives no device |
| AuthDeviceJson.DevicesAreConvertedObjects | src/daemon/json/auth-device.cpp:26-40 | the devices are the object elements, converted one by one and kept in order |
| AuthDeviceJson.AllObjectsKept | src/daemon/json/auth-device.cpp:29-32 | no element is dropped exactly when every element is an object |
| AuthDeviceJson.ObjectRoundTrip | src/daemon/json/auth-device.cpp:34-39 | an object carrying a device's three fields decodes to that device |
| DeviceProtocol.MajorRequestType | src/daemon/device/device-protocol.h:25 | the family is a 16-bit value, and for a 32-bit request type it is the type's upper half |
| DeviceProtocol.RequestFamilies | src/daemon/device/device-protocol.h:35-53 | every fingerprint request type is in family 1, every face type in family 2, and NONE in family 0 |
| DeviceProtocol.PrioritiesOrdered | src/daemon/device/device-protocol.h:28-33 | LOW < NORMAL < HIGH |
| DeviceRequestDispatcherModel.NextID | src/daemon/device/device-request-dispatcher.cpp:52-56 | the next id lies in [1, LLONG_MAX]: the counter plus one, or 1 once the counter has reached LLONG_MAX |
| DeviceRequestDispatcherModel.RegisterSpec | src/daemon/device/device-request-dispatcher.cpp:36-46 | registration succeeds exactly for a family without a listener, and only then adds it |
| DeviceRequestDispatcherModel.DeliverySpec | src/daemon/device/device-request-dispatcher.cpp:48-74 | a delivery never changes the registered listeners |
| DeviceRequestDispatcherModel.DeliveryRoutesByFamily | src/daemon/device/device-request-dispatcher.cpp:48-74 | a request goes to the listener of its family and to no other; without one it is dropped but still consumes an id; a missing request changes nothing |
| DeviceRequestDispatcherModel.IdsCountFromOne | src/daemon/device/device-request-dispatcher.cpp:22-24 | from the initial counter, n deliveries leave the counter at n and give every delivered request an id from 1 to n |
| DeviceRequestDispatcherModel.DeliverAllCounts | src/daemon/device/device-request-dispatcher.cpp:52-56 | successive deliveries take increasing ids above the starting counter and only append |
| DeviceRequestDispatcherModel.DeviceRequestDispatcher.constructor | src/daemon/device/device-request-dispatcher.cpp:22-24 | no listener, counter 0 |
| DeviceRequestDispatcherModel.DeviceRequestDispatcher.RegisterListener | src/daemon/device/device-request-dispatcher.cpp:36-46 | result and new state are those of RegisterSpec |
| DeviceRequestDispatcherModel.DeviceRequestDispatcher.DeliveryRequest | src/daemon/device/device-request-dispatcher.cpp:48-74 | the new state is DeliverySpec of the old one, and the counter stays in range |
| DeviceRequestControllerModel.BestActiveExists | src/daemon/device/device-request-controller.cpp:93-107 | whenever some queued request belongs to the active session, the scan has a best one: highest priority, then earliest time, then lowest id |
| DeviceRequestControllerModel.BestActiveUnique | src/daemon/device/device-request-controller.cpp:93-107 | the scan's choice is determined: two requests that both beat every eligible request are the same |
| DeviceRequestControllerModel.BestActiveKey | src/daemon/device/device-request-controller.cpp:93-107 | the combo the scan picks is eligible and beats every other eligible combo |
| DeviceRequestControllerModel.InterruptSpec | src/daemon/device/device-request-controller.cpp:65-72 | after an interrupt nothing runs and the queue and session are untouched |
| DeviceRequestControllerModel.WakeSpec | src/daemon/device/device-request-controller.cpp:114-124 | waking either changes nothing or leaves the woken combo running, with the queue untouched |
| DeviceRequestControllerModel.ScheduleSpec | src/daemon/device/device-request-controller.cpp:87-112 | scheduling never changes what is queued nor the active session |
| DeviceRequestControllerModel.PushSpec | src/daemon/device/device-request-controller.cpp:30-44 | pushing stores the combo under its request id, replacing any entry there |
| DeviceRequestControllerModel.RemoveSpec | src/daemon/device/device-request-controller.cpp:46-63 | removal dereferences a null running combo exactly when the id is queued and nothing runs; otherwise the id is gone afterwards; removing an id that is not queued changes nothing |
| DeviceRequestControllerModel.FinishSpec | src/daemon/device/device-request-controller.cpp:74-85 | finishing keeps every combo stored under its own request id |
| DeviceRequestControllerModel.ActiveChangedSpec | src/daemon/device/device-request-controller.cpp:133-146 | a session change never alters the queue and records the new session's processes |
| DeviceRequestControllerModel.ScheduleRunsBestActive | src/daemon/device/device-request-controller.cpp:87-112 | from idle, scheduling runs the best combo of the active session and tells its target once, or changes nothing when no queued combo is eligible; the running combo stays queued under its id |
| DeviceRequestControllerModel.PushPreempts | src/daemon/device/device-request-controller.cpp:37-43 | a new combo runs at once exactly when nothing runs or its priority is strictly higher; a preempted combo is interrupted before the new one is scheduled; otherwise nothing else happens |
| DeviceRequestControllerModel.DuplicatePushOrphansRunning | src/daemon/device/device-request-controller.cpp:33-35 | the id is not checked on push: a second combo under the running combo's id replaces its entry, and the running combo is no longer queued |
| DeviceRequestControllerModel.WakeRunningIsNoop | src/daemon/device/device-request-controller.cpp:118 | waking the request that already runs changes nothing |
| DeviceRequestControllerModel.RemoveEnds | src/daemon/device/device-request-controller.cpp:46-63 | removing a queued combo while something runs ends its target once, interrupting it first only when it was the running one, and then reschedules |
| DeviceRequestControllerModel.RemoveAfterSessionChangeCrashes | src/daemon/device/device-request-controller.cpp:51 | the null dereference is reachable: push a request, switch the active session away, then remove it |
| DeviceRequestControllerModel.FinishEndsRunning | src/daemon/device/device-request-controller.cpp:74-85 | finishing ends the running combo's target, drops it from the queue, and the next eligible combo runs |
| DeviceRequestControllerModel.ActiveChangeReschedules | src/daemon/device/device-request-controller.cpp:133-146 | a session change interrupts the running combo exactly when its process left the active session; whatever runs afterwards is eligible or was already running |
| DeviceRequestControllerModel.DeviceRequestController.constructor | src/daemon/device/device-request-controller.cpp:23-28 | a new queue is empty with nothing running |
| DeviceRequestControllerModel.DeviceRequestController.PushRequest | src/daemon/device/device-request-controller.cpp:30-44 | the queue's new state is the push specification of the old one |
| DeviceRequestControllerModel.DeviceRequestController.RemoveRequest | src/daemon/device/device-request-controller.cpp:46-63 | the new state is the remove specification, so an unknown id changes nothing; it reports failure and changes nothing where the source dereferences a missing current request |
| DeviceRequestControllerModel.DeviceRequestController.InterruptRequest | src/daemon/device/device-request-controller.cpp:65-72 | the new state is the interrupt specification |
| DeviceRequestControllerModel.DeviceRequestController.FinishRequest | src/daemon/device/device-request-controller.cpp:74-85 | the new state is the finish specification |
| DeviceRequestControllerModel.DeviceRequestController.Schedule | src/daemon/device/device-request-controller.cpp:87-112 | the scan over the queue in ascending id order leaves the state the schedule specification gives |
| DeviceRequestControllerModel.DeviceRequestController.WakeRequest | src/daemon/device/device-request-controller.cpp:114-124 | the new state is the wake specification |
| DeviceRequestControllerModel.DeviceRequestController.OnActiveSessionChanged | src/daemon/device/device-request-controller.cpp:133-146 | the new state is the session-change specification |
| DeviceAdaptorModel.BestExists | src/daemon/device/device-adaptor.cpp:189-223 | a non-empty queue always has a best request: highest priority, then earliest time, then lowest id |
| DeviceAdaptorModel.BestUnique | src/daemon/device/device-adaptor.cpp:189-223 | the scan's choice is determined: two requests that both run no later than every queued request are the same |
| DeviceAdaptorModel.BestKey | src/daemon/device/device-adaptor.cpp:189-223 | the request the scan picks runs no later than any other queued request |
| DeviceAdaptorModel.MinKey | src/daemon/device/device-adaptor.cpp:77-82 | the least id of a non-empty set, the order in which the queue is walked |
| DeviceAdaptorModel.InterruptSpec | src/daemon/device/device-adaptor.cpp:166-174 | interrupting leaves nothing running and the timer off, keeps the whole queue and the device, and only appends callbacks |
| DeviceAdaptorModel.StartSpec | src/daemon/device/device-adaptor.cpp:243-279 | starting a request keeps the queue well formed, never adds requests and never changes the device or the id counter |
| DeviceAdaptorModel.IdentifyStatusSpec | src/daemon/device/device-adaptor.cpp:331-349 | forwarding an identify status keeps the queue well formed and never adds requests |
| DeviceAdaptorModel.EnrollStatusSpec | src/daemon/device/device-adaptor.cpp:311-329 | forwarding an enroll status keeps the queue well formed and never adds requests |
| DeviceAdaptorModel.FinishSpec | src/daemon/device/device-adaptor.cpp:176-187 | finishing keeps the queue well formed and never adds requests |
| DeviceAdaptorModel.ScheduleSpec | src/daemon/device/device-adaptor.cpp:189-223 | scheduling keeps the queue well formed and never adds requests |
| DeviceAdaptorModel.WakeSpec | src/daemon/device/device-adaptor.cpp:133-143 | waking keeps the queue well formed and never adds requests; waking the request that already runs changes nothing |
| DeviceAdaptorModel.PushSpec | src/daemon/device/device-adaptor.cpp:118-131 | pushing keeps the queue well formed, adds at most the pushed request, and never changes the device or the id counter |
| DeviceAdaptorModel.RemoveSpec | src/daemon/device/device-adaptor.cpp:145-164 | after removal the id is no longer queued; nothing else is added; removing an id that is not queued changes nothing |
| DeviceAdaptorModel.RemoveAllSpec | src/daemon/device/device-adaptor.cpp:71-83 | after removing all, the queue is empty, nothing runs and the timer is off |
| DeviceAdaptorModel.GenerateIdSpec | src/daemon/device/device-adaptor.cpp:225-241 | the new id is the old counter plus one, restarting from 1 after LONG_LONG_MAX, and no queued request holds it |
| DeviceAdaptorModel.SubmitSpec | src/daemon/device/device-adaptor.cpp:49-69 | enroll and identify keep the queue well formed |
| DeviceAdaptorModel.UpdateProxySpec | src/daemon/device/device-adaptor.cpp:91-116 | updating the device keeps the queue well formed and never changes the id counter |
| DeviceAdaptorModel.ActiveSessionChangedSpec | src/daemon/device/device-adaptor.cpp:358-367 | a session change keeps the queue well formed |
| DeviceAdaptorModel.OccupyTimeoutSpec | src/daemon/device/device-adaptor.cpp:369-373 | the occupancy timeout keeps the queue well formed |
| DeviceAdaptorModel.ScheduleRunsBest | src/daemon/device/device-adaptor.cpp:189-223 | with a device, scheduling from idle runs the best queued request, arms its timer with its kind's timeout and sends its start command |
| DeviceAdaptorModel.ScheduleWithoutDevice | src/daemon/device/device-adaptor.cpp:243-279 | without a device, scheduling fails every queued request in scheduling order, ends each, and empties the queue |
| DeviceAdaptorModel.PushPreempts | src/daemon/device/device-adaptor.cpp:118-131 | a new request runs at once exactly when nothing runs or its priority is strictly higher; a preempted request is interrupted and stays queued; the invariant is kept |
| DeviceAdaptorModel.PushWithoutDevice | src/daemon/device/device-adaptor.cpp:118-131 | without a device a pushed request is queued, failed and ended at once, and the queue stays empty |
| DeviceAdaptorModel.ScheduleSettles | src/daemon/device/device-adaptor.cpp:189-223 | after scheduling, something runs with its timer armed whenever anything is queued |
| DeviceAdaptorModel.RemoveCancelsThenEnds | src/daemon/device/device-adaptor.cpp:145-164 | removing a running request stops it on the device, interrupts, cancels and ends its source in that order, and the best remaining request takes over; removing a waiting one only cancels and ends it |
| DeviceAdaptorModel.RemoveKeepsInv | src/daemon/device/device-adaptor.cpp:145-164 | removal keeps the invariant for any id, with or without a device |
| DeviceAdaptorModel.IdentifyStatusFinishesOnVerdict | src/daemon/device/device-adaptor.cpp:331-349 | only a match or a mismatch finishes the running request, which is ended right after its status is forwarded; other statuses are only forwarded |
| DeviceAdaptorModel.EnrollStatusFinishesOnVerdict | src/daemon/device/device-adaptor.cpp:311-329 | only completion or failure finishes the running enrollment, which is ended right after its status is forwarded; progress is only forwarded |
| DeviceAdaptorModel.TimeoutRemovesRunning | src/daemon/device/device-adaptor.cpp:369-373 | the occupancy timeout stops, interrupts, cancels and ends the running request, in that order, and drops it |
| DeviceAdaptorModel.SwitchDeviceStopsOnNewDevice | src/daemon/device/device-adaptor.cpp:96-115 | switching device while a request runs sends its stop command to the new device (the proxy is replaced before the interrupt), then restarts the best request there |
| DeviceAdaptorModel.UpdateProxyKeepsInv | src/daemon/device/device-adaptor.cpp:91-116 | updating the device keeps the invariant, whatever the new proxy |
| DeviceAdaptorModel.CancelEndAllPairs | src/daemon/device/device-adaptor.cpp:77-82 | removing all produces one cancel followed by one end for every queued request and nothing else |
| DeviceAdaptorModel.ActiveSessionChangeClears | src/daemon/device/device-adaptor.cpp:358-367 | a session change interrupts the running request, cancels and ends every queued request, and leaves the device idle |
| DeviceAdaptorModel.SubmitQueues | src/daemon/device/device-adaptor.cpp:49-69 | with a device, a new request gets the next id, is queued under it and its source is told, and it is never the one evicted to free the id |
| DeviceAdaptorModel.FirstRequestIdIsZero | src/daemon/device/device-adaptor.cpp:36-47 | the counter starts at -1, so a new queue's first request gets id 0 |
| DeviceAdaptorModel.SubmitKeepsInv | src/daemon/device/device-adaptor.cpp:49-69 | enroll and identify keep the invariant, with or without a device |
| DeviceAdaptorModel.DeviceAdaptor.constructor | src/daemon/device/device-adaptor.cpp:36-47 | a new queue is the empty queue after updating it to the given device |
| DeviceAdaptorModel.DeviceAdaptor.GetDeviceID | src/daemon/device/device-adaptor.h:38 | the device id the queue runs on, that of its proxy when it has one |
| DeviceAdaptorModel.DeviceAdaptor.Enroll | src/daemon/device/device-adaptor.cpp:49-58 | the new state is the submit specification for an enroll request; the invariant is kept |
| DeviceAdaptorModel.DeviceAdaptor.Identify | src/daemon/device/device-adaptor.cpp:60-69 | the new state is the submit specification for an identify request; the invariant is kept |
| DeviceAdaptorModel.DeviceAdaptor.Stop | src/daemon/device/device-adaptor.cpp:85-89 | the new state is the remove specification, so stopping an unknown id changes nothing; the invariant is kept |
| DeviceAdaptorModel.DeviceAdaptor.RemoveAllRequest | src/daemon/device/device-adaptor.cpp:71-83 | the loop leaves the state the remove-all specification gives |
| DeviceAdaptorModel.DeviceAdaptor.UpdateDBusDeviceProxy | src/daemon/device/device-adaptor.cpp:91-116 | the new state is the proxy-update specification |
| DeviceAdaptorModel.DeviceAdaptor.PushRequest | src/daemon/device/device-adaptor.cpp:118-131 | the new state is the push specification |
| DeviceAdaptorModel.DeviceAdaptor.WakeRequest | src/daemon/device/device-adaptor.cpp:133-143 | the new state is the wake specification, so waking the running request changes nothing |
| DeviceAdaptorModel.DeviceAdaptor.RemoveRequest | src/daemon/device/device-adaptor.cpp:145-164 | the new state is the remove specification, so an unknown id changes nothing |
| DeviceAdaptorModel.DeviceAdaptor.InterruptRequest | src/daemon/device/device-adaptor.cpp:166-174 | the new state is the interrupt specification |
| DeviceAdaptorModel.DeviceAdaptor.FinishRequest | src/daemon/device/device-adaptor.cpp:176-187 | the new state is the finish specification |
| DeviceAdaptorModel.DeviceAdaptor.Schedule | src/daemon/device/device-adaptor.cpp:189-223 | the scan over the queue in ascending id order leaves the state the schedule specification gives |
| DeviceAdaptorModel.DeviceAdaptor.GenerateRequestID | src/daemon/device/device-adaptor.cpp:225-241 | the new state is the id-generation specification and the returned id is the new counter |
| DeviceAdaptorModel.DeviceAdaptor.StartRequest | src/daemon/device/device-adaptor.cpp:49-69 | the new state is the start specification of the running request |
| DeviceAdaptorModel.DeviceAdaptor.StopRequest | src/daemon/device/device-adaptor.cpp:49-69 | with a device, the timer is off and the kind's stop command is sent; without one nothing changes |
| DeviceAdaptorModel.DeviceAdaptor.EnrollStart | src/daemon/device/device-adaptor.cpp:243-255 | the new state is the start specification of the running enrollment |
| DeviceAdaptorModel.DeviceAdaptor.EnrollStop | src/daemon/device/device-adaptor.cpp:257-264 | with a device, the timer is off and the enroll-stop command is sent; without one nothing changes |
| DeviceAdaptorModel.DeviceAdaptor.IdentifyStart | src/daemon/device/device-adaptor.cpp:266-279 | the new state is the start specification of the running identification |
| DeviceAdaptorModel.DeviceAdaptor.IdentifyStop | src/daemon/device/device-adaptor.cpp:281-289 | with a device, the timer is off and the identify-stop command is sent; without one nothing changes |
| DeviceAdaptorModel.DeviceAdaptor.StartDeviceOccupyTimer | src/daemon/device/device-adaptor.cpp:299-303 | the timer is armed for the running request with the given duration; nothing else changes |
| DeviceAdaptorModel.DeviceAdaptor.StopDeviceOccupyTimer | src/daemon/device/device-adaptor.cpp:305-309 | the timer is off; nothing else changes |
| DeviceAdaptorModel.DeviceAdaptor.OnEnrollStatus | src/daemon/device/device-adaptor.cpp:311-329 | the new state is the enroll-status specification |
| DeviceAdaptorModel.DeviceAdaptor.OnIdentifyStatus | src/daemon/device/device-adaptor.cpp:331-349 | the new state is the identify-status specification |
| DeviceAdaptorModel.DeviceAdaptor.OnActiveSessionChanged | src/daemon/device/device-adaptor.cpp:358-367 | the new state is the session-change specification; the invariant is kept |
| DeviceAdaptorModel.DeviceAdaptor.OnDeviceOccupyTimeout | src/daemon/device/device-adaptor.cpp:369-373 | the new state is the timeout specification; the invariant is kept |
| DeviceAdaptorFactoryModel.ProxySelection | src/daemon/device/device-adaptor-factory.cpp:139-186 | the suggested device is used when the service knows it; otherwise the first device of the type; otherwise there is no proxy |
| DeviceAdaptorFactoryModel.SuggestedDeviceWins | src/daemon/device/device-adaptor-factory.cpp:146-153 | a device the service knows under the suggested id, at a path that reports that id, is the one selected |
| DeviceAdaptorFactoryModel.NoDeviceNoProxy | src/daemon/device/device-adaptor-factory.cpp:156-185 | with no device known to the service, no proxy is produced |
| DeviceAdaptorFactoryModel.DeviceAdaptorFactory.constructor | src/daemon/device/device-adaptor-factory.cpp:95-104 | a new factory caches no queue |
| DeviceAdaptorFactoryModel.DeviceAdaptorFactory.GetDeviceAdaptor | src/daemon/device/device-adaptor-factory.cpp:44-56 | the cached queue of the type; otherwise a new queue on the selected device, cached only when a device was found; otherwise none |
| DeviceAdaptorFactoryModel.DeviceAdaptorFactory.OnDefaultDeviceChanged | src/daemon/device/device-adaptor-factory.cpp:188-202 | a type without a queue gets one created and cached on the selected device, or none when no device is found; the queue, cached or just created, then undergoes the default-device change; no other queue changes |
| DeviceAdaptorFactoryModel.DeviceAdaptorFactory.RebindIfMoved | src/daemon/device/device-adaptor-factory.cpp:192-201 | the cached queue undergoes the default-device change and no other queue changes |
| DeviceAdaptorFactoryModel.DefaultChangedSpec | src/daemon/device/device-adaptor-factory.cpp:192-201 | when the service has a device reporting the new id the queue afterwards runs on that id; otherwise it is left as it was |
| DeviceAdaptorFactoryModel.CreatedOnDefaultNotRebound | src/daemon/device/device-adaptor-factory.cpp:188-202 | a queue created while the default is already the new id runs on the device selected for it, and the default-device change leaves it as created |
| DeviceAdaptorFactoryModel.DeviceAdaptorFactory.Rebind | src/daemon/device/device-adaptor-factory.cpp:201 | the queue gets the proxy-update specification and keeps its invariant; no other queue changes |
| DeviceAdaptorFactoryModel.DeviceAdaptorFactory.OnAuthDeviceManagerLost | src/daemon/device/device-adaptor-factory.cpp:204-213 | every cached queue gets the remove-all specification (all its requests cancelled and ended, nothing running, no timer), and the cache is emptied |
| DeviceAdaptorFactoryModel.DeviceAdaptorFactory.EraseNext | src/daemon/device/device-adaptor-factory.cpp:207-212 | one turn of the loop: the first cached queue is cleared and erased, the queues erased before stay cleared, the others keep their state |
| DeviceAdaptorFactoryModel.DeviceAdaptorFactory.ClearAndErase | src/daemon/device/device-adaptor-factory.cpp:223-224 | the queue gets the remove-all specification and leaves the cache; the other queues keep their state and their invariant |
| DeviceAdaptorFactoryModel.DeviceAdaptorFactory.FindByDevice | src/daemon/device/device-adaptor-factory.cpp:218-227 | the first type, in ascending order, whose queue runs on the device; none when no queue does |
| DeviceAdaptorFactoryModel.DeviceAdaptorFactory.OnDeviceDeleted | src/daemon/device/device-adaptor-factory.cpp:215-228 | the first queue on the unplugged device gets the remove-all specification and leaves the cache, the other queues keep their state; with no such queue nothing changes |
| SessionModel.Priority | src/daemon/session.cpp:182-185 | a session asks for the device at the lowest request priority |
| SessionModel.FinishAuthOutcome | src/daemon/session.cpp:375-407 | success is reported exactly when the phase passed and a user was matched; success resets that user's counter to 0, failure adds one to the matched (else the requested) user's counter only when asked to, no other counter changes, and the attempt is over |
| SessionModel.PhaseEndsAttempt | src/daemon/session.cpp:336-355 | a failed phase ends the attempt at once, charging the failure as asked, and so does a success in "Or" mode; no device command is issued |
| SessionModel.AndPhaseAdvances | src/daemon/session.cpp:356-369 | a success in "And" mode strikes one occurrence of the factor off the waiting list; with none left the attempt ends, otherwise the first remaining factor is announced and started |
| SessionModel.StartPhaseOutcome | src/daemon/session.cpp:251-334 | a phase first announces its factor; UKey with a queue asks for the pin; a device factor with a queue sends one identify request carrying no extra information; a factor without device kind or queue reports why and fails the attempt |
| SessionModel.StartAuthGuards | src/daemon/session.cpp:123-141 | StartAuth succeeds exactly when no positive request id is recorded and the factor is neither none nor the password; a refusal changes nothing; a started attempt is running or has already failed |
| SessionModel.FirstRequestIdSlipsGuard | src/daemon/session.cpp:123-156 | the guard tests for a positive id, so an attempt whose request got id 0 can be started again while StopAuth does stop request 0 |
| SessionModel.SetAuthTypeAccepts | src/daemon/session.cpp:107-121 | SetAuthType succeeds exactly outside "And" mode with a factor strictly between none and the last; it sets only the factor, and a refusal changes nothing |
| SessionModel.SetSwitchableAccepts | src/daemon/session.cpp:163-180 | SetLoginUserSwitchable succeeds exactly outside "And" mode and outside an attempt; it changes only that flag, and a refusal or an unchanged value changes nothing |
| SessionModel.MatchUserAccepts | src/daemon/session.cpp:409-433 | a feature is accepted exactly when it is non-empty, its identification has an owner, the owner is the requested user or switching is on, and the owner agrees with any user matched before; acceptance remembers the owner and nothing else changes |
| SessionModel.MatchedUserIsKept | src/daemon/session.cpp:427-428 | once a user is matched, no identification status changes who it is |
| SessionModel.IdentifyStatusOutcome | src/daemon/session.cpp:223-249 | a status other than match or mismatch is only reported; a mismatch, or a match of an unacceptable user, is reported as a mismatch, fails the attempt and charges a failure; an acceptable match passes the phase |
| SessionModel.CancelChargesNothing | src/daemon/session.cpp:210-214 | a cancelled request ends the attempt with a failure signal and charges no failure |
| SessionModel.AndModeFailsAtPassword | src/daemon/session.cpp:356-369 | in "And" mode with the password as the only factor left, passing the current factor starts the password phase, which has no device kind, so the attempt fails, is charged and never reports success |
| SessionModel.NoFeatureIdsKept | src/daemon/session.cpp:310-333 | the request document is copied before the feature ids are added, so no identify request ever carries feature ids, through any sequence of phases |
| SessionModel.ResponseSendsPinOnce | src/daemon/session.cpp:100-105 | a pending pin question is answered once: one identify request carrying the pin alone, after which further answers change nothing |
| SessionModel.EndClobbersNextRequest | src/daemon/session.cpp:216-221 | in "And" mode the next factor's request is queued before the old request ends, so the old end wipes the new id and StopAuth can no longer stop the new request |
| SessionModel.Session.constructor | src/daemon/session.cpp:36-73 | a new session has the configured mode, the first offered factor (none when there is none), and in "And" mode all offered factors waiting |
| SessionModel.Session.ResponsePrompt | src/daemon/session.cpp:100-105 | the new state is the pin-answer specification |
| SessionModel.Session.SetAuthType | src/daemon/session.cpp:107-121 | the reply and new state are the SetAuthType specification |
| SessionModel.Session.StartAuth | src/daemon/session.cpp:123-141 | the reply and new state are the StartAuth specification |
| SessionModel.Session.StopAuth | src/daemon/session.cpp:143-156 | the pin question is dropped, the recorded request is stopped on its queue when there is one, and the attempt is left |
| SessionModel.Session.SetLoginUserSwitchable | src/daemon/session.cpp:163-180 | the reply and new state are the SetLoginUserSwitchable specification |
| SessionModel.Session.Queued | src/daemon/session.cpp:197-203 | the request id is recorded and the client is told to wait |
| SessionModel.Session.Interrupt | src/daemon/session.cpp:205-208 | an interrupt changes nothing |
| SessionModel.Session.Cancel | src/daemon/session.cpp:210-214 | a cancel fails the phase without charging a failure |
| SessionModel.Session.End | src/daemon/session.cpp:216-221 | the request id and the device queue are forgotten |
| SessionModel.Session.OnIdentifyStatus | src/daemon/session.cpp:223-249 | the new state is the identify-status specification |
| SessionModel.Session.StartPhaseAuth | src/daemon/session.cpp:251-266 | the new state is the phase-start specification |
| SessionModel.Session.StartUkeyAuth | src/daemon/session.cpp:268-286 | the new state is the UKey-start specification |
| SessionModel.Session.StartGeneralAuth | src/daemon/session.cpp:288-334 | the new state is the device-start specification |
| SessionModel.Session.FinishPhaseAuth | src/daemon/session.cpp:336-373 | the new state is the phase-end specification |
| SessionModel.Session.FinishAuth | src/daemon/session.cpp:375-407 | the new state is the attempt-end specification |
| SessionModel.Session.MatchUser | src/daemon/session.cpp:409-433 | the answer and new state are the user-matching specification |
| AuthConfigModel.GroupName | src/daemon/auth-config.cpp:149-160 | a factor has a configuration group exactly when it is fingerprint, face, UKey or finger vein |
| AuthConfigModel.AppKey | src/daemon/auth-config.cpp:61-74 | an application has a switch key exactly when it is login, unlock or empowerment |
| AuthConfigModel.RemoveAll | src/daemon/auth-config.cpp:316 | removing an application from a list drops every occurrence of it and keeps every other member |
| AuthConfigModel.RemoveAllKeepsNoDuplicates | src/daemon/auth-config.cpp:316 | removal keeps a list free of repeats |
| AuthConfigModel.LoadedOrderRoundTrip | src/daemon/auth-config.cpp:104-105 | the order is read with the shared name table: a stored order of named factors, password and iris included, loads back unchanged |
| AuthConfigModel.LoadDefaults | src/daemon/auth-config.cpp:98-147 | an empty INI file loads mode "Or", the order fingerprint then UKey, a limit of 3, and every factor off, for no application and without default device |
| AuthConfigModel.NoAppsWithoutFlags | src/daemon/auth-config.cpp:126-139 | a group with no switch set enables no application |
| AuthConfigModel.EnabledAppsShape | src/daemon/auth-config.cpp:126-139 | a group's application list holds exactly the known applications whose switch is set, each once |
| AuthConfigModel.LoadedMaps | src/daemon/auth-config.cpp:113-144 | after reading groups, each per-factor map holds exactly the factors read so far, each with the value read from its own group |
| AuthConfigModel.LoadReadsGroup | src/daemon/auth-config.cpp:113-144 | every factor with a group gets its default device, switch and application list from its group, under its keys, with the stated defaults |
| AuthConfigModel.LoadWellFormed | src/daemon/auth-config.cpp:98-147 | loading yields per-factor maps on exactly the factors with a group and application lists of known applications without repeats |
| AuthConfigModel.OfferedAmongMembers | src/daemon/auth-config.cpp:267-281 | the factors collected are exactly the walked ones listed for the application and switched on |
| AuthConfigModel.OfferedAmongSorted | src/daemon/auth-config.cpp:267-281 | walking factors in ascending order collects them in ascending order |
| AuthConfigModel.AuthTypesByAppExact | src/daemon/auth-config.cpp:267-281 | getAuthTypeByApp returns exactly the factors listed for the application and switched on, in strictly ascending order |
| AuthConfigModel.UnknownFactorQueries | src/daemon/auth-config.cpp:177-188 | a factor without a group reads as no default device, switched off, enabled for no application and offered to none |
| AuthConfigModel.SetEnabledForAppTakesEffect | src/daemon/auth-config.cpp:283-320 | after setting a known factor for a known application the query reports the new value; a repeated call changes nothing; the store is written and a signal sent exactly when the value changed |
| AuthConfigModel.SetEnabledForAppIsLocal | src/daemon/auth-config.cpp:252-320 | setting one factor and application pair leaves every other pair's answer as it was |
| AuthConfigModel.SettersKeepWF | src/daemon/auth-config.cpp:190-320 | the three setters keep the per-factor maps on the known factors and the application lists free of repeats |
| AuthConfigModel.SetDefaultDeviceTakesEffect | src/daemon/auth-config.cpp:190-213 | afterwards a known factor reads the new device id and a factor without group is ignored; the store is written and a signal sent exactly when the id changed; other factors are unaffected |
| AuthConfigModel.SetAuthTypeEnableTakesEffect | src/daemon/auth-config.cpp:228-250 | afterwards a known factor reads the new switch and a factor without group is ignored; the store is written and a signal sent exactly when the switch changed; other factors are unaffected |
| AuthConfigModel.AuthConfig.constructor | src/daemon/auth-config.cpp:92-147 | a loaded configuration is the load specification of the file |
| AuthConfigModel.AuthConfig.ReadAppSwitches | src/daemon/auth-config.cpp:126-139 | the loop collects the group's enabled applications in the known order |
| AuthConfigModel.AuthConfig.GetAuthTypeByApp | src/daemon/auth-config.cpp:267-281 | the loop returns the factors offered to the application |
| AuthConfigModel.AuthConfig.SetDefaultDeviceID | src/daemon/auth-config.cpp:190-213 | the new state is the default-device specification |
| AuthConfigModel.AuthConfig.SetAuthTypeEnable | src/daemon/auth-config.cpp:228-250 | the new state is the switch specification |
| AuthConfigModel.AuthConfig.SetAuthTypeEnabledForApp | src/daemon/auth-config.cpp:283-320 | the new state is the per-application switch specification |
| AuthManagerModel.KeepEnabledMembers | src/daemon/auth-manager.cpp:175-185 | erasing the disabled factors from the order keeps exactly the configured factors that are enabled |
| AuthManagerModel.AddMissingShape | src/daemon/auth-manager.cpp:187-197 | appending the enabled factors not yet present keeps the filtered order as a prefix, adds only enabled factors that were missing, and misses none |
| AuthManagerModel.OrderedAuthTypesShape | src/daemon/auth-manager.cpp:170-202 | the list ends in the password, every factor before it is enabled, every enabled factor appears, it starts with the configured order restricted to enabled factors, and what follows that prefix was not configured |
| AuthManagerModel.PasswordOnce | src/daemon/auth-manager.cpp:199 | the password appears exactly once when it is not among the enabled factors |
| AuthManagerModel.ConfiguredPasswordOnce | src/daemon/auth-manager.cpp:170-202 | for any loaded configuration the list offered to an application holds the password exactly once |
| AuthManagerModel.QueryAuthApp | src/daemon/auth-manager.cpp:204-223 | a PAM service has an application exactly when it is one of the four known services, and that application has a configuration key |
| AuthManagerModel.QueryAuthAppTable | src/daemon/auth-manager.cpp:206-211 | lightdm is login, kiran-screensaver is unlock, polkit-1 and sudo are empowerment, any other service is none |
| AuthManagerModel.FirstFreeIsFirst | src/daemon/auth-manager.cpp:277-289 | the draws are tried in order and the first one naming no registered session is returned; -1 when every draw names one |
| AuthManagerModel.SessionIdFresh | src/daemon/auth-manager.cpp:274-290 | with draws in [1, 10000), the id is -1 exactly when each of the eleven draws is registered, and otherwise an unregistered id in range, the first such draw |
| AuthManagerModel.FullRegistryRefuses | src/daemon/auth-manager.cpp:274-290 | a registry holding every id in range yields -1 |
| AuthManagerModel.LaterDrawsIgnored | src/daemon/auth-manager.cpp:277 | only the first eleven draws are ever looked at |
| AuthManagerModel.AuthManager.constructor | src/daemon/auth-manager.cpp:250-267 | a new manager has no session and watches no name |
| AuthManagerModel.AuthManager.GetAuthTypeByApp | src/daemon/auth-manager.cpp:170-202 | the two loops return the configured order restricted to the enabled factors, then the other enabled factors, then the password |
| AuthManagerModel.AuthManager.GenerateSessionID | src/daemon/auth-manager.cpp:274-290 | the loop returns the first free draw among eleven, or -1 |
| AuthManagerModel.AuthManager.CreateSession | src/daemon/auth-manager.cpp:70-94 | without a free id the call is refused with ERROR_SESSION_EXCEED_MAX_SESSION_NUM and nothing changes; otherwise the caller is watched and a new session, built from the configured mode and the application's ordered factors, is registered under the id, with the other sessions kept |
| AuthManagerModel.AuthManager.DestroySession | src/daemon/auth-manager.cpp:96-108 | an unknown id changes nothing; a known session leaves the registry and its attempt is stopped |
| AuthManagerModel.AuthManager.SessionsOf | src/daemon/auth-manager.cpp:229-237 | the ids of exactly the sessions opened by the named client, each once |
| AuthManagerModel.AuthManager.DestroyNext | src/daemon/auth-manager.cpp:242 | one DestroySession of the loop: that session leaves the registry and is stopped, every other listed session keeps its state |
| AuthManagerModel.AuthManager.DestroySessions | src/daemon/auth-manager.cpp:239-243 | the listed sessions leave the registry and each has its attempt stopped; the others stay as they were |
| AuthManagerModel.AuthManager.OnNameLost | src/daemon/auth-manager.cpp:225-244 | the name is no longer watched, every session it opened is stopped and removed, and the other sessions are untouched |
| AuthManagerModel.AuthManager.SetDefaultDeviceID | src/daemon/auth-manager.cpp:149-155 | the configuration gets the default-device specification; an unchanged id changes nothing |
| UserConfigModel.StrLeqTotal | src/daemon/user-config.cpp:82-88 | the ordered map's key order compares any two strings |
| UserConfigModel.StrLeqAntisymmetric | src/daemon/user-config.cpp:82-88 | two strings each ordered before the other are equal |
| UserConfigModel.StrLeqTransitive | src/daemon/user-config.cpp:82-88 | the key order is transitive |
| UserConfigModel.LeastStringExists | src/daemon/user-config.cpp:82-88 | every non-empty key set has a least key, the first one the map visits |
| UserConfigModel.LeastString | src/daemon/user-config.cpp:82-88 | the key chosen first belongs to the set and precedes every other key |
| UserConfigModel.SortedKeys | src/daemon/user-config.cpp:82-88 | the visiting order lists every key of the map exactly once |
| UserConfigModel.SortedKeysAscending | src/daemon/user-config.cpp:82-88 | the visiting order is strictly ascending |
| UserConfigModel.KeptIIDsMembers | src/daemon/user-config.cpp:164-194 | init keeps exactly the listed ids whose group is usable |
| UserConfigModel.LoadKeepsUsable | src/daemon/user-config.cpp:152-195 | init keeps exactly the listed ids whose group has a name, a factor string and a factor that string names, remembers what the group says, removes the group of every other listed id, and reads the failure counter |
| UserConfigModel.LoadIdempotent | src/daemon/user-config.cpp:152-195 | loading the file init leaves behind yields the same table: init's clean-up is stable |
| UserConfigModel.KeptSameOnCleaned | src/daemon/user-config.cpp:164-194 | removing unusable groups does not change which listed ids are kept |
| UserConfigModel.LoadStep | src/daemon/user-config.cpp:164-194 | one step of init decides on the group as read so far exactly as on the original group, and each of the three results grows accordingly |
| UserConfigModel.IIDName | src/daemon/user-config.cpp:108-119 | an unknown id has the empty name |
| UserConfigModel.IIDBid | src/daemon/user-config.cpp:121-132 | an unknown id has the empty feature id |
| UserConfigModel.IIDAuthType | src/daemon/user-config.cpp:134-145 | an unknown id has no factor |
| UserConfigModel.IIDsAmongMembers | src/daemon/user-config.cpp:78-91 | the ids collected are exactly the visited ones of the factor |
| UserConfigModel.IIDsAmongAligned | src/daemon/user-config.cpp:78-106 | the id list and the feature-id list have the same length and agree entry by entry |
| UserConfigModel.IIDsAmongAscending | src/daemon/user-config.cpp:78-91 | visiting keys in ascending order collects ids in ascending order |
| UserConfigModel.GetIIDsExact | src/daemon/user-config.cpp:78-106 | getIIDs(t) holds exactly the known ids of factor t, each once, in map order; getBIDs(t) holds, position by position, the feature id of the same entry |
| UserConfigModel.LoadWellFormed | src/daemon/user-config.cpp:152-195 | after init every known id is listed and has a group in the file |
| UserConfigModel.UpdatesKeepWF | src/daemon/user-config.cpp:45-59 | adding, deleting and setting the counter keep every known id listed and grouped |
| UserConfigModel.AddIIDTakesEffect | src/daemon/user-config.cpp:197-215 | a stored identification reads back through every lookup and is listed for its factor; other ids are unaffected; a second add of the same id changes nothing |
| UserConfigModel.DeleteIIDTakesEffect | src/daemon/user-config.cpp:45-59 | a deleted identification reads back as unknown and is listed for no factor; one list entry goes; the other entries stay |
| UserConfigModel.SetFailuresTakesEffect | src/daemon/user-config.cpp:232-237 | the counter reads back the new value; an unchanged value writes nothing; repeating the call changes nothing |
| UserConfigModel.UserConfig.constructor | src/daemon/user-config.cpp:152-195 | the store is the load specification of the user's file |
| UserConfigModel.UserConfig.AddIID | src/daemon/user-config.cpp:197-215 | succeeds exactly when the id has no group in the file; the new state is the add specification |
| UserConfigModel.UserConfig.DeleteIID | src/daemon/user-config.cpp:45-59 | succeeds exactly when the id has a group in the file; the new state is the delete specification |
| UserConfigModel.UserConfig.SetFailures | src/daemon/user-config.cpp:232-237 | the new state is the counter specification |
| UserConfigModel.UserConfig.RemoveCache | src/daemon/user-config.cpp:40-43 | the file is emptied and the table in memory stays |
| UserModel.SetFailuresSpec | src/daemon/user.cpp:99-113 | a negative count leaves the counter as it was; any other count becomes the counter |
| UserModel.Priority | src/daemon/user.cpp:138-141 | enrollment asks for a device at high priority |
| UserModel.EnrollmentOutranksSessions | src/daemon/user.cpp:138-141 | the user's enrollment priority is strictly above the priority a session asks with |
| UserModel.UserSetFailuresCounter | src/daemon/user.cpp:99-113 | the counter the store keeps after setFailures is the counter the rule gives; a negative count changes nothing; the ids and their entries stay |
| UserModel.HasIdentificationExact | src/daemon/user.cpp:84-87 | hasIdentification holds exactly when some stored identification is of that factor |
| UserModel.EnrollStartGuards | src/daemon/user.cpp:186-204 | a recorded request id above 0 is refused as enrolling, a factor without a device queue as failed, with nothing changed; otherwise, and only then, the factor's queue is held and asked to enroll |
| UserModel.EnrollStartIgnoresFirstRequest | src/daemon/user.cpp:188 | while the first request id 0 is queued the enrolling guard lets a second enrollment through, which replaces the queue held |
| UserModel.EnrollLifecycle | src/daemon/user.cpp:153-167 | interrupt and cancel report an interrupted failure; end clears the request id and the queue, after which a stop does nothing and a new enrollment is accepted |
| UserModel.AddIdentificationGuards | src/daemon/user.cpp:224-240 | a factor without a name is refused as invalid, an id already owned as existing, with nothing changed; otherwise the new identification reads back and the user has one of that factor |
| UserModel.DeleteIdentificationGuards | src/daemon/user.cpp:242-254 | an id the user does not list is refused with nothing changed; a listed id is announced as deleted and afterwards reads back as unknown and is listed for no factor |
| UserModel.User.constructor | src/daemon/user.cpp:49-62 | a user with its store loaded from its file and no enrollment |
| UserModel.User.GetIIDs | src/daemon/user.cpp:69-72 | the listed ids include every known identification |
| UserModel.User.SetFailures | src/daemon/user.cpp:99-113 | a negative count is an invalid-argument error for a D-Bus caller and ignored otherwise; the store's counter follows the rule |
| UserModel.User.ResetFailures | src/daemon/user.cpp:217-222 | the counter becomes 0 and the caller gets a reply |
| UserModel.User.Start | src/daemon/user.cpp:148-151 | the queued request's id is recorded |
| UserModel.User.Interrupt | src/daemon/user.cpp:153-156 | an interrupted failure is reported |
| UserModel.User.Cancel | src/daemon/user.cpp:158-161 | an interrupted failure is reported |
| UserModel.User.End | src/daemon/user.cpp:163-167 | no request id and no queue are held any more |
| UserModel.User.OnEnrollStatus | src/daemon/user.cpp:169-173 | the device's enroll status is forwarded as not interrupted |
| UserModel.User.OnEnrollStart | src/daemon/user.cpp:186-204 | the reply and the new state are those of the enroll-start specification |
| UserModel.User.OnEnrollStop | src/daemon/user.cpp:206-215 | the queue is told to stop only while a request id above 0 and a queue are held; the caller always gets a reply |
| UserModel.User.OnAddIdentification | src/daemon/user.cpp:224-240 | the reply, the announcement and the store follow the add-identification specification |
| UserModel.User.OnDeleteIdentification | src/daemon/user.cpp:242-254 | the reply, the announcement and the store follow the delete-identification specification |
| UserModel.User.RemoveCache | src/daemon/user.cpp:89-92 | the store's file is emptied |
| UserManagerModel.UnindexAll | src/daemon/user-manager.cpp:115-118 | after deleting a list of ids from the index, exactly the other entries remain |
| UserManagerModel.IndexAllShape | src/daemon/user-manager.cpp:87-98 | indexing a user's ids never overwrites an owner: every recorded owner stays, every id gets an owner, and the ids that had none get the user |
| UserManagerModel.UnindexAfterIndex | src/daemon/user-manager.cpp:100-113 | deleting the ids just indexed leaves the index as deleting them from the original would, so a user that deleteUser had to create leaves no trace |
| UserManagerModel.FirstOwnerKept | src/daemon/user-manager.cpp:87-98 | an id stays with the first user that announced it; a later announcement by another user changes nothing |
| UserManagerModel.UserManager.constructor | src/daemon/user-manager.cpp:25-31 | no users are cached and no ids indexed |
| UserManagerModel.UserManager.GetUserByIID | src/daemon/user-manager.h:37 | the owner the index records for the id, and none exactly when the index has no entry |
| UserManagerModel.UserManager.AddIID | src/daemon/user-manager.cpp:87-98 | the index gains the id under the user unless it already has an owner; the cache is unchanged |
| UserManagerModel.UserManager.DeleteIID | src/daemon/user-manager.cpp:115-118 | only that id leaves the index |
| UserManagerModel.UserManager.DeleteIIDs | src/daemon/user-manager.cpp:104-107 | the index loses exactly the given ids |
| UserManagerModel.UserManager.AddUser | src/daemon/user-manager.cpp:70-85 | no user for a name without an account, with nothing changed; otherwise a new user whose store is loaded from its file, whose ids are indexed without overwriting an owner, cached under its name |
| UserManagerModel.UserManager.FindUser | src/daemon/user-manager.cpp:40-50 | the cached user when there is one; else the addUser outcome |
| UserManagerModel.UserManager.DeleteUser | src/daemon/user-manager.cpp:100-113 | a name with neither a cached user nor an account changes nothing; otherwise the user's listed ids leave the index, its file is emptied and it leaves the cache |
| UserManagerModel.UserManager.AddIdentification | src/daemon/user-manager.cpp:81 | the user's handler runs against the current index, and its announcement indexes the new id under that user |
| UserManagerModel.UserManager.DeleteIdentification | src/daemon/user-manager.cpp:82 | an id the user lists leaves the index whoever owns it; a refused id changes nothing |
| PamAuthentication.CheckFailuresDecision | src/pam/authentication.cpp:111-130 | checkFailures succeeds exactly below the failure threshold; at or above it the user is told of the lockout, and "And" mode yields PAM_SYSTEM_ERR while every other mode yields PAM_IGNORE |
| PamAuthentication.LockoutOnlyAfterNonPasswordChoice | src/pam/authentication.cpp:183-224 | the lockout message appears only in "Or" mode after a factor other than PASSWORD was picked, and then the preparation yields PAM_IGNORE; a preparation that does not fail has a session and either a factor the daemon accepted or no SetAuthType call |
| PamAuthentication.PasswordChoiceSkipsDaemon | src/pam/authentication.cpp:191-206 | picking PASSWORD in "Or" mode yields PAM_IGNORE with no lockout check and no SetAuthType call, after telling the front end the factor |
| PamAuthentication.StartStopsAtFirstFailure | src/pam/authentication.cpp:53-70 | start finishes with init's result when init fails, else with the action's result when that fails, and only then; it finishes at most once and at the end; StartAuth is called only for the doauth action after every earlier step succeeded |
| PamAuthentication.ActionDispatch | src/pam/authentication.cpp:132-155 | doauth runs the authentication; authsucc yields PAM_IGNORE and resets failures exactly when the user was found; any other action yields PAM_IGNORE without a call |
| PamAuthentication.VerdictMapping | src/pam/authentication.cpp:333-360 | a failed verdict gives PAM_AUTH_ERR, an unavailable one PAM_AUTHINFO_UNAVAIL, and only a success PAM_SUCCESS; PAM_USER changes only on a success naming a user |
| PamAuthentication.PromptFailureSendsNoAnswer | src/pam/authentication.cpp:280-306 | the session gets the answer exactly when the prompt type is a question or a secret and the conversation succeeded; an unknown prompt type finishes with PAM_AUTH_ERR; a failed conversation finishes with its code |
| PamAuthentication.InitIgnoresUnknown | src/pam/authentication.cpp:72-109 | init succeeds exactly when the service is registered with the daemon and the user is found; otherwise it yields PAM_IGNORE |
| PamAuthentication.Authentication.constructor | src/pam/authentication.cpp:34-43 | a run with no session, no application and nothing done yet |
| PamAuthentication.Authentication.FinishAuth | src/pam/authentication.cpp:242-247 | the result is handed back to the PAM stack once |
| PamAuthentication.Authentication.Init | src/pam/authentication.cpp:72-109 | the result is init's specification; on success the application is recorded |
| PamAuthentication.Authentication.CheckFailures | src/pam/authentication.cpp:111-130 | the result and the messages are checkFailures' specification |
| PamAuthentication.Authentication.InitSession | src/pam/authentication.cpp:249-278 | a session is asked for the user and application; it succeeds exactly when the daemon gives one, which is then held |
| PamAuthentication.Authentication.StartAuthPre | src/pam/authentication.cpp:183-224 | the result and the calls are those of the preparation specification |
| PamAuthentication.Authentication.StartAuth | src/pam/authentication.cpp:226-240 | the session is asked to start; a refusal yields PAM_SYSTEM_ERR |
| PamAuthentication.Authentication.StartActionDoAuth | src/pam/authentication.cpp:157-164 | preparation, then StartAuth when it succeeded |
| PamAuthentication.Authentication.StartActionAuthSucc | src/pam/authentication.cpp:166-181 | the failures of a found user are reset; the result is PAM_IGNORE |
| PamAuthentication.Authentication.StartAction | src/pam/authentication.cpp:132-155 | the action selects doauth, authsucc or nothing |
| PamAuthentication.Authentication.Start | src/pam/authentication.cpp:53-70 | init, then the action; the first failure finishes the run |
| PamAuthentication.Authentication.OnAuthPrompt | src/pam/authentication.cpp:280-306 | the calls are those of the prompt specification |
| PamAuthentication.Authentication.OnAuthMessage | src/pam/authentication.cpp:308-331 | the message is shown by its kind; a failed conversation or an unknown kind finishes the run |
| PamAuthentication.Authentication.OnAuthFailed | src/pam/authentication.cpp:333-337 | the run finishes with PAM_AUTH_ERR |
| PamAuthentication.Authentication.OnAuthUnavail | src/pam/authentication.cpp:339-343 | the run finishes with PAM_AUTHINFO_UNAVAIL |
| PamAuthentication.Authentication.OnAuthSuccessed | src/pam/authentication.cpp:345-360 | PAM_USER takes a non-empty name and the run finishes with PAM_SUCCESS |
| PamAuthentication.Authentication.OnAuthTypeChanged | src/pam/authentication.cpp:362-365 | the front end is told the session's new factor |
| PamAuthentication.Authentication.Dispose | src/pam/authentication.cpp:45-51 | a session this run created is destroyed, and nothing else is called |
| PamTerminal.IntToDecimal | src/pam/authentication-terminal.cpp:62-65 | the decimal text of a number is never empty and starts with a minus sign exactly for a negative number |
| PamTerminal.ParseInt | src/pam/authentication-terminal.cpp:82-83 | a parsed answer is a 32-bit integer, and a negative one was typed with a minus sign |
| PamTerminal.DecimalRoundTrip | src/pam/authentication-terminal.cpp:65-83 | the number printed in front of a menu entry parses back to that number |
| PamTerminal.SupportAuthTypes | src/pam/authentication-terminal.cpp:33-46 | the offered factors are the daemon's list followed by PASSWORD |
| PamTerminal.PasswordOfferedTwice | src/pam/authentication-terminal.cpp:33-46 | since the daemon's list for an application already ends with PASSWORD, the terminal offers PASSWORD twice |
| PamTerminal.Label | src/pam/authentication-terminal.cpp:57-63 | a factor's label is its translated name, or "AuthType" and its number when it has none |
| PamTerminal.Menu | src/pam/authentication-terminal.cpp:53-67 | one entry per offered factor, entry i numbered i + 1 |
| PamTerminal.SelectionAccepted | src/pam/authentication-terminal.cpp:90-99 | the factor picked is one of the five the terminal accepts, and either PASSWORD or one offered |
| PamTerminal.OnePromptPerAnswer | src/pam/authentication-terminal.cpp:48-104 | the menu is shown once for each answer read: as many times as there were answers when none is picked, and at most that many when one is |
| PamTerminal.ConvFailureGivesPassword | src/pam/authentication-terminal.cpp:74-79 | a failed conversation picks PASSWORD after one prompt |
| PamTerminal.ShownNumberPicks | src/pam/authentication-terminal.cpp:82-99 | typing the number shown in front of an accepted factor picks that factor after one prompt |
| PamTerminal.UnacceptedFactorAsksAgain | src/pam/authentication-terminal.cpp:90-101 | a valid number naming a factor outside the five accepted ones shows no error and asks again, nothing else changed |
| PamTerminal.InvalidAnswerAsksAgain | src/pam/authentication-terminal.cpp:84-88 | an answer that is not a number from 1 to the menu length shows the error message and asks again, nothing else changed |
| PamTerminal.AuthenticationTerminal.constructor | src/pam/authentication-terminal.cpp:27-31 | nothing offered and nothing shown |
| PamTerminal.AuthenticationTerminal.NotifySupportAuthType | src/pam/authentication-terminal.cpp:33-46 | the offered factors become the daemon's list followed by PASSWORD; nothing is shown |
| PamTerminal.AuthenticationTerminal.MenuEntries | src/pam/authentication-terminal.cpp:53-67 | the entries are the menu of the offered factors |
| PamTerminal.AuthenticationTerminal.AskOnce | src/pam/authentication-terminal.cpp:51-102 | one round: the menu prompt, the error message for an unusable answer, and the round's pick |
| PamTerminal.AuthenticationTerminal.RequestAuthType | src/pam/authentication-terminal.cpp:48-104 | the pick and everything shown are those of the selection over the answers given |

## Left out

- I/O and services: D-Bus, the QSettings files, `getpwnam`, the login manager, polkit authorisation and the device service are values or parameters. Message signing, the clock and the random generator are left out the same way.
- Concurrency: the daemon and the PAM module are single-threaded and driven by callbacks. The thread hand-off between the PAM conversation and the Qt event loop (src/pam/authentication-controller.cpp, src/pam/pam-handle.cpp) is not part of this model.
- Object identity: device queues compare requests and sources by value, not by object identity. A request pushed twice under one id is two values.
- Timers: the occupancy timer is a field naming the request it is armed for. Its firing is the method `OnDeviceOccupyTimeout`; the time it waits is not modelled.
- `Utils::GenerateIID` (an MD5 digest) is a function parameter `iidOf`. Its collisions are not modelled.
- Auth types: `KAD_AUTH_TYPE_IRIS` is missing from include/kas-authentication-i.h, so the model gives it the next free bit, 64. The strings "password" and "iris" follow src/utils/utils.cpp.
- Conversion tables: the daemon links the shared tables of src/utils/utils.cpp, which the `Utils` module models, and every component uses them. src/daemon/utils.cpp defines `authType2DeviceType`, `deviceType2AuthType` and `verifyResultEnum2Str`, which src/daemon/utils.h does not declare, and defines the same `Utils` members as the shared copy, so it cannot be part of that build. `DaemonUtils` models it only to state how its tables differ.
- Error codes: `ERROR_USER_FEATURE_LIMITS_EXCEEDED` is used but not declared in src/daemon/error.h, so the model gives it the value 0x10003.
- QVariant and QString conversions are not modelled. Values read from the INI files are taken as already typed.
- String order: the ordered map's key order is modelled as the lexicographic order of `char` sequences. QString compares UTF-16 code units, which agrees for the identifiers used here.
- `QString::toInt`: leading and trailing whitespace in the terminal's answer is not stripped by the model; such an answer fails to parse.
- The terminal's `requestAuthType` is modelled over a finite sequence of answers. When the answers run out before a factor is picked, the result is `None`, where the source would keep asking.
- Session ids: the draw of ids on Qt before 5.10, with range [1, 10000] (src/daemon/auth-manager.cpp:282-283), is not modelled. The draws of the Qt 5.10 path are a parameter.
- Translations: `tr()` texts and locale names are fixed strings. The PAM module's messages are modelled by kind, not by their translated text.
- Logging: `KLOG_*`, `DEVICE_DEBUG` and the PAM module's syslog calls have no effect and are left out.
- `#if 0` bodies (src/daemon/device/device-adaptor.cpp:196-208, src/daemon/utils.cpp:176-195, src/pam/authentication-terminal.cpp:105-111) are not modelled.
- Operations outside the core: the driver enable setting, the polkit forwarders of auth-manager.cpp, and `renameIID`, `changeIIDName`, `initUsers` and `onUserDeleted` are not modelled.
- The factory's device-manager proxy is always present. Its null case is not modelled.
- Session getDeviceAdaptor: the session reads the factory as a map from factor to queue. That a lookup may create and cache a queue is not modelled.
- Session failures: the failure counter is unbounded, so the int32 overflow of `failures + 1` is not modelled. `recordFailure` defaults to true at src/daemon/session.cpp:247, as in the source.
- UserModel.User.OnEnrollStatus: the device queue passes the status as (id, progress, result), the order of src/daemon/device/device-protocol.h:76. User::onEnrollStatus names its parameters (bid, result, progress) (src/daemon/user.cpp:169), so as written the signal carries the progress in the result position and the result in the progress position. The model forwards each value in its own position.
- DeviceAdaptorModel.StartSpec: when no device is present, enrollStart calls `onEnrollStatus(QString(), ENROLL_STATUS_FAIL, 0, "")`. The definition's third parameter is `result`, so by position the call passes 0 as the result. The status enumeration is not part of this repository, so the model follows the declaration's order and reports a failed enrollment with progress 0. As written, the call reaches the check at src/daemon/device/device-adaptor.cpp:324-326 with result 0, so unless 0 is the value of COMPLETE or FAIL the request stays current with no timer armed. `PushWithoutDevice`'s "failed and ended at once" therefore holds for an enrollment only under the model's reading. On this path the two parameter swaps cancel out, so as written `User` emits (FAIL, 0) as the model does.
- PamAuthentication: the D-Bus replies reached through the authorisation macros are modelled as the replies they send. The list that `startAuthPre` fetches with GetAuthTypeByApp and never uses is not modelled.
- AuthConfigModel.AuthConfig.GetAuthTypeByApp walks the factors the configuration knows, which under the class invariant are exactly the keys of the enable map.
- AuthConfig: the insertion of a default entry by `m_authTypeEnableMap[key]` (operator[]) in getAuthTypeByApp is not modelled. Under the class invariant the key is always present, so the insertion does not happen.
- AuthConfig setAuthTypeEnable: a dereference of the end iterator is possible in the source but unreachable under the class invariant, so it is not modelled.
- UserConfig init: the test against `KAD_AUTH_MODE_NONE` in src/daemon/user-config.cpp is modelled as a test against `AUTH_TYPE_NONE`. Both are 0 (include/kas-authentication-i.h:50,67).
- DeviceRequestControllerModel.RemoveSpec: `removeRequest` on a known id while nothing is current dereferences the missing current request (src/daemon/device/device-request-controller.cpp:51). The model returns `None` there, and `RemoveRequest` reports failure and leaves the state unchanged. The lemma `RemoveAfterSessionChangeCrashes` shows how that state arises.
