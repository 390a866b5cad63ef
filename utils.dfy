// Conversions between the enumerations and their configuration and display
// strings, as shared by the PAM module and the daemon (src/utils/utils.cpp).
module Utils {
  import opened KasTypes

  /** The textual name of an authentication mode; empty for a mode without one. */
  function AuthModeEnum2Str(authMode: int): (r: string)
    ensures r != "" <==> authMode == AUTH_MODE_AND || authMode == AUTH_MODE_OR
  {
    if authMode == AUTH_MODE_AND then AUTH_MODE_STR_AND
    else if authMode == AUTH_MODE_OR then AUTH_MODE_STR_OR
    else ""
  }

  /** The mode named by a string; AUTH_MODE_NONE for an unknown name. */
  function AuthModeStr2Enum(authMode: string): (r: int)
    ensures r == AUTH_MODE_NONE || r == AUTH_MODE_AND || r == AUTH_MODE_OR
  {
    if authMode == AUTH_MODE_STR_AND then AUTH_MODE_AND
    else if authMode == AUTH_MODE_STR_OR then AUTH_MODE_OR
    else AUTH_MODE_NONE
  }

  lemma AuthModeRoundTrip(m: int, s: string)
    ensures AuthModeEnum2Str(m) != "" ==> AuthModeStr2Enum(AuthModeEnum2Str(m)) == m
    ensures AuthModeStr2Enum(s) != AUTH_MODE_NONE ==> AuthModeEnum2Str(AuthModeStr2Enum(s)) == s
  {
  }

  /** The six factors this table knows by name. */
  predicate NamedAuthType(t: int)
  {
    t == AUTH_TYPE_PASSWORD || t == AUTH_TYPE_FINGERPRINT || t == AUTH_TYPE_FACE
    || t == AUTH_TYPE_UKEY || t == AUTH_TYPE_FINGERVEIN || t == AUTH_TYPE_IRIS
  }

  function AuthTypeEnum2Str(authType: int): (r: string)
    ensures r != "" <==> NamedAuthType(authType)
  {
    if authType == AUTH_TYPE_PASSWORD then AUTH_TYPE_STR_PASSWORD
    else if authType == AUTH_TYPE_FINGERPRINT then AUTH_TYPE_STR_FINGERPRINT
    else if authType == AUTH_TYPE_FACE then AUTH_TYPE_STR_FACE
    else if authType == AUTH_TYPE_UKEY then AUTH_TYPE_STR_UKEY
    else if authType == AUTH_TYPE_FINGERVEIN then AUTH_TYPE_STR_FINGERVEIN
    else if authType == AUTH_TYPE_IRIS then AUTH_TYPE_STR_IRIS
    else ""
  }

  function AuthTypeStr2Enum(authType: string): (r: int)
    ensures r == AUTH_TYPE_NONE || NamedAuthType(r)
  {
    if authType == AUTH_TYPE_STR_PASSWORD then AUTH_TYPE_PASSWORD
    else if authType == AUTH_TYPE_STR_FINGERPRINT then AUTH_TYPE_FINGERPRINT
    else if authType == AUTH_TYPE_STR_FACE then AUTH_TYPE_FACE
    else if authType == AUTH_TYPE_STR_UKEY then AUTH_TYPE_UKEY
    else if authType == AUTH_TYPE_STR_FINGERVEIN then AUTH_TYPE_FINGERVEIN
    else if authType == AUTH_TYPE_STR_IRIS then AUTH_TYPE_IRIS
    else AUTH_TYPE_NONE
  }

  /** Name and value determine each other for every named factor. */
  lemma AuthTypeRoundTrip(t: int, s: string)
    ensures NamedAuthType(t) ==> AuthTypeStr2Enum(AuthTypeEnum2Str(t)) == t
    ensures AuthTypeStr2Enum(s) != AUTH_TYPE_NONE ==> AuthTypeEnum2Str(AuthTypeStr2Enum(s)) == s
  {
  }

  /** The device kind serving a factor; None stands for the source's -1. */
  function AuthType2DeviceType(authType: int): (r: Option<DeviceType>)
    ensures r.Some? <==> NamedAuthType(authType) && authType != AUTH_TYPE_PASSWORD
  {
    if authType == AUTH_TYPE_FINGERPRINT then Some(DeviceFingerPrint)
    else if authType == AUTH_TYPE_FACE then Some(DeviceFace)
    else if authType == AUTH_TYPE_FINGERVEIN then Some(DeviceFingerVein)
    else if authType == AUTH_TYPE_UKEY then Some(DeviceUKey)
    else if authType == AUTH_TYPE_IRIS then Some(DeviceIris)
    else None
  }

  /** The factor a device kind serves; AUTH_TYPE_NONE for an unknown kind. */
  function DeviceType2AuthType(deviceType: Option<DeviceType>): (r: int)
    ensures r == AUTH_TYPE_NONE <==> deviceType.None?
  {
    match deviceType
    case None => AUTH_TYPE_NONE
    case Some(DeviceFingerPrint) => AUTH_TYPE_FINGERPRINT
    case Some(DeviceFace) => AUTH_TYPE_FACE
    case Some(DeviceFingerVein) => AUTH_TYPE_FINGERVEIN
    case Some(DeviceUKey) => AUTH_TYPE_UKEY
    case Some(DeviceIris) => AUTH_TYPE_IRIS
  }

  /** Every device kind belongs to exactly one factor, and back. */
  lemma DeviceTypeRoundTrip(t: int, d: DeviceType)
    ensures AuthType2DeviceType(t).Some? ==> DeviceType2AuthType(AuthType2DeviceType(t)) == t
    ensures AuthType2DeviceType(DeviceType2AuthType(Some(d))) == Some(d)
  {
  }

  /** Element-wise name of an ordered list of factors. */
  function AuthOrderEnum2Str(authOrder: seq<int>): (r: seq<string>)
    ensures |r| == |authOrder|
    ensures forall i :: 0 <= i < |r| ==> r[i] == AuthTypeEnum2Str(authOrder[i])
  {
    if authOrder == [] then [] else [AuthTypeEnum2Str(authOrder[0])] + AuthOrderEnum2Str(authOrder[1..])
  }

  /** Element-wise value of an ordered list of factor names. */
  function AuthOrderStr2Enum(authOrder: seq<string>): (r: seq<int>)
    ensures |r| == |authOrder|
    ensures forall i :: 0 <= i < |r| ==> r[i] == AuthTypeStr2Enum(authOrder[i])
  {
    if authOrder == [] then [] else [AuthTypeStr2Enum(authOrder[0])] + AuthOrderStr2Enum(authOrder[1..])
  }

  /** An order made of named factors survives being written out and read back. */
  lemma {:induction false} AuthOrderRoundTrip(order: seq<int>)
    requires forall i :: 0 <= i < |order| ==> NamedAuthType(order[i])
    ensures AuthOrderStr2Enum(AuthOrderEnum2Str(order)) == order
  {
    if order != [] {
      AuthOrderRoundTrip(order[1..]);
      AuthTypeRoundTrip(order[0], "");
      assert AuthOrderEnum2Str(order) == [AuthTypeEnum2Str(order[0])] + AuthOrderEnum2Str(order[1..]);
    }
  }

  /** Text shown to a user for a factor; empty when the factor has no label. */
  function AuthTypeEnum2LocaleStr(authType: int): (r: string)
    ensures r != "" <==> NamedAuthType(authType)
  {
    if authType == AUTH_TYPE_PASSWORD then "password"
    else if authType == AUTH_TYPE_FINGERPRINT then "fingerprint"
    else if authType == AUTH_TYPE_FACE then "face"
    else if authType == AUTH_TYPE_FINGERVEIN then "fingervein"
    else if authType == AUTH_TYPE_IRIS then "iris"
    else if authType == AUTH_TYPE_UKEY then "ukey"
    else ""
  }

  /** Message describing an identification result; NORMAL has no message. */
  function IdentifyResultEnum2Str(result: IdentifyResult): (r: string)
    ensures r == "" <==> result == IdentifyNormal
  {
    match result
    case IdentifyNotMatch => "Feature not match."
    case IdentifyMatch => "Feature matching successed."
    case IdentifyRetry => "Feature not match, please retry it."
    case IdentifyNormal => ""
    case IdentifyOther => "Unknown verfication error."
  }

  /** Distinct results carrying a message have distinct messages. */
  lemma IdentifyResultMessagesDistinct(a: IdentifyResult, b: IdentifyResult)
    requires a != b && a != IdentifyOther && b != IdentifyOther
    ensures IdentifyResultEnum2Str(a) != IdentifyResultEnum2Str(b)
  {
  }
}
