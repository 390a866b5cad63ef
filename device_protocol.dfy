// The vocabulary shared by device users and the device queues
// (src/daemon/device/device-protocol.h): priorities, request types, the
// request record and the callbacks a request's source receives.
module DeviceProtocol {
  import opened KasTypes

  const DEVICE_REQUEST_PRIORITY_LOW: int := 5
  const DEVICE_REQUEST_PRIORITY_NORMAL: int := 10
  const DEVICE_REQUEST_PRIORITY_HIGH: int := 20

  const DEVICE_REQUEST_TYPE_NONE: int := 0
  const DEVICE_REQUEST_TYPE_FP_START: int := 0x0001_0000
  const DEVICE_REQUEST_TYPE_FP_ENROLL_START: int := 0x0001_0001
  const DEVICE_REQUEST_TYPE_FP_ENROLL_STOP: int := 0x0001_0002
  const DEVICE_REQUEST_TYPE_FP_VERIFY_START: int := 0x0001_0003
  const DEVICE_REQUEST_TYPE_FP_VERIFY_STOP: int := 0x0001_0004
  const DEVICE_REQUEST_TYPE_FP_IDENTIFY_START: int := 0x0001_0005
  const DEVICE_REQUEST_TYPE_FP_IDENTIFY_STOP: int := 0x0001_0006
  const DEVICE_REQUEST_TYPE_FP_END: int := 0x0001_FFFF
  const DEVICE_REQUEST_TYPE_FACE_START: int := 0x0002_0000
  const DEVICE_REQUEST_TYPE_FACE_END: int := 0x0002_FFFF

  /** The device family of a request type: bits 16 to 31, as an arithmetic
      shift followed by a 16-bit mask computes them. */
  function MajorRequestType(reqType: int): (major: int)
    ensures 0 <= major < 0x1_0000
    ensures 0 <= reqType < 0x1_0000_0000 ==> major * 0x1_0000 <= reqType < (major + 1) * 0x1_0000
  {
    (reqType / 0x1_0000) % 0x1_0000
  }

  /** Every fingerprint request type belongs to family 1 and every face
      request type to family 2. */
  lemma RequestFamilies(t: int)
    ensures DEVICE_REQUEST_TYPE_FP_START <= t <= DEVICE_REQUEST_TYPE_FP_END ==> MajorRequestType(t) == 1
    ensures DEVICE_REQUEST_TYPE_FACE_START <= t <= DEVICE_REQUEST_TYPE_FACE_END ==> MajorRequestType(t) == 2
    ensures MajorRequestType(DEVICE_REQUEST_TYPE_NONE) == 0
  {
  }

  /** The party that asked for a device operation (a session or a user),
      identified by `sid`, with the priority its getPriority() reports. */
  datatype Source = Source(sid: nat, priority: int, pid: int)

  /** The scheduling order both device queues use: a higher priority runs
      first, then an earlier time, then a lower id (the queue is scanned in
      ascending id order and only a strictly better request replaces the
      candidate). */
  predicate RunsBefore(priorityA: int, timeA: int, idA: int, priorityB: int, timeB: int, idB: int)
  {
    priorityA > priorityB
    || (priorityA == priorityB && (timeA < timeB || (timeA == timeB && idA <= idB)))
  }

  /** What the request's start and stop actions drive on the device. */
  datatype RequestKind = EnrollRequest(extra: string) | IdentifyRequest(extra: string)

  /** A queued device request; `time` is the time of day at which it was made. */
  datatype Request = Request(reqID: int, time: int, source: Source, kind: RequestKind)

  /** The calls a device queue makes: callbacks to sources and commands to the device. */
  datatype Event =
    | Queued(source: Source, reqID: int)
    | Interrupted(source: Source)
    | Cancelled(source: Source)
    | Ended(source: Source)
    | EnrollStatusTo(source: Source, featureID: string, progress: int, enrollResult: EnrollResult)
    | IdentifyStatusTo(source: Source, featureID: string, identifyResult: IdentifyResult)
    | DeviceEnrollStart(deviceID: string, extra: string)
    | DeviceEnrollStop(deviceID: string)
    | DeviceIdentifyStart(deviceID: string, extra: string)
    | DeviceIdentifyStop(deviceID: string)

  /** Sessions ask at low priority, users enrolling at high priority, so an
      enrollment always pre-empts an authentication. */
  lemma PrioritiesOrdered()
    ensures DEVICE_REQUEST_PRIORITY_LOW < DEVICE_REQUEST_PRIORITY_NORMAL < DEVICE_REQUEST_PRIORITY_HIGH
  {
  }
}
