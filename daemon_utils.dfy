// A second copy of the conversion tables (src/daemon/utils.cpp). It knows
// only the four factors that have a configuration group. It is not part of
// the daemon's build: it defines functions that src/daemon/utils.h does not
// declare, and it defines the same Utils members as src/utils/utils.cpp, so
// the daemon's calls resolve to the shared copy (module Utils). It is kept
// here to state how the two tables differ. Its mode conversions and
// GenerateIID are the same code as the shared copy and are modelled there.
module DaemonUtils {
  import opened KasTypes
  import Utils

  function AuthTypeEnum2Str(authType: int): (r: string)
    ensures r != "" <==> GroupAuthType(authType)
  {
    if authType == AUTH_TYPE_FINGERPRINT then AUTH_TYPE_STR_FINGERPRINT
    else if authType == AUTH_TYPE_FACE then AUTH_TYPE_STR_FACE
    else if authType == AUTH_TYPE_UKEY then AUTH_TYPE_STR_UKEY
    else if authType == AUTH_TYPE_FINGERVEIN then AUTH_TYPE_STR_FINGERVEIN
    else ""
  }

  function AuthTypeStr2Enum(authType: string): (r: int)
    ensures r == AUTH_TYPE_NONE || GroupAuthType(r)
  {
    if authType == AUTH_TYPE_STR_FINGERPRINT then AUTH_TYPE_FINGERPRINT
    else if authType == AUTH_TYPE_STR_FACE then AUTH_TYPE_FACE
    else if authType == AUTH_TYPE_STR_UKEY then AUTH_TYPE_UKEY
    else if authType == AUTH_TYPE_STR_FINGERVEIN then AUTH_TYPE_FINGERVEIN
    else AUTH_TYPE_NONE
  }

  lemma AuthTypeRoundTrip(t: int, s: string)
    ensures GroupAuthType(t) ==> AuthTypeStr2Enum(AuthTypeEnum2Str(t)) == t
    ensures AuthTypeStr2Enum(s) != AUTH_TYPE_NONE ==> AuthTypeEnum2Str(AuthTypeStr2Enum(s)) == s
  {
  }

  /** Where this copy's table names a factor it agrees with the shared table,
      and it leaves out exactly password and iris among the shared names. */
  lemma AgreesWithSharedTable(t: int, s: string)
    ensures AuthTypeEnum2Str(t) != "" ==> AuthTypeEnum2Str(t) == Utils.AuthTypeEnum2Str(t)
    ensures Utils.NamedAuthType(t) && AuthTypeEnum2Str(t) == "" <==> t == AUTH_TYPE_PASSWORD || t == AUTH_TYPE_IRIS
    ensures AuthTypeStr2Enum(s) != AUTH_TYPE_NONE ==> AuthTypeStr2Enum(s) == Utils.AuthTypeStr2Enum(s)
  {
  }

  /** Only fingerprint, face and finger vein have a device kind here. */
  function AuthType2DeviceType(authType: int): (r: Option<DeviceType>)
    ensures r.Some? <==> authType == AUTH_TYPE_FINGERPRINT || authType == AUTH_TYPE_FACE || authType == AUTH_TYPE_FINGERVEIN
    ensures r.Some? ==> r == Utils.AuthType2DeviceType(authType)
  {
    if authType == AUTH_TYPE_FINGERPRINT then Some(DeviceFingerPrint)
    else if authType == AUTH_TYPE_FACE then Some(DeviceFace)
    else if authType == AUTH_TYPE_FINGERVEIN then Some(DeviceFingerVein)
    else None
  }

  function DeviceType2AuthType(deviceType: Option<DeviceType>): (r: int)
    ensures r != AUTH_TYPE_NONE <==> deviceType in {Some(DeviceFingerPrint), Some(DeviceFace), Some(DeviceFingerVein)}
  {
    match deviceType
    case Some(DeviceFingerPrint) => AUTH_TYPE_FINGERPRINT
    case Some(DeviceFace) => AUTH_TYPE_FACE
    case Some(DeviceFingerVein) => AUTH_TYPE_FINGERVEIN
    case _ => AUTH_TYPE_NONE
  }

  lemma DeviceTypeRoundTrip(t: int, d: Option<DeviceType>)
    ensures AuthType2DeviceType(t).Some? ==> DeviceType2AuthType(AuthType2DeviceType(t)) == t
    ensures DeviceType2AuthType(d) != AUTH_TYPE_NONE ==> AuthType2DeviceType(DeviceType2AuthType(d)) == d
  {
  }

  function AuthOrderEnum2Str(authOrder: seq<int>): (r: seq<string>)
    ensures |r| == |authOrder|
    ensures forall i :: 0 <= i < |r| ==> r[i] == AuthTypeEnum2Str(authOrder[i])
  {
    if authOrder == [] then [] else [AuthTypeEnum2Str(authOrder[0])] + AuthOrderEnum2Str(authOrder[1..])
  }

  function AuthOrderStr2Enum(authOrder: seq<string>): (r: seq<int>)
    ensures |r| == |authOrder|
    ensures forall i :: 0 <= i < |r| ==> r[i] == AuthTypeStr2Enum(authOrder[i])
  {
    if authOrder == [] then [] else [AuthTypeStr2Enum(authOrder[0])] + AuthOrderStr2Enum(authOrder[1..])
  }

  /** Reading back a written order gives the order, with every factor outside
      the four groups replaced by AUTH_TYPE_NONE. */
  lemma {:induction false} AuthOrderRoundTrip(order: seq<int>)
    ensures var back := AuthOrderStr2Enum(AuthOrderEnum2Str(order));
      |back| == |order| &&
      forall i :: 0 <= i < |order| ==> back[i] == (if GroupAuthType(order[i]) then order[i] else AUTH_TYPE_NONE)
  {
    if order != [] {
      AuthOrderRoundTrip(order[1..]);
      AuthTypeRoundTrip(order[0], "");
      assert AuthOrderEnum2Str(order) == [AuthTypeEnum2Str(order[0])] + AuthOrderEnum2Str(order[1..]);
    }
  }

  /** Message for a verification result; this table has no empty NORMAL entry. */
  function VerifyResultEnum2Str(result: IdentifyResult): (r: string)
    ensures r != ""
    ensures result != IdentifyNormal ==> r == Utils.IdentifyResultEnum2Str(result)
    ensures result == IdentifyNormal ==> r == Utils.IdentifyResultEnum2Str(IdentifyOther)
  {
    match result
    case IdentifyNotMatch => "Feature not match."
    case IdentifyMatch => "Feature matching successed."
    case IdentifyRetry => "Feature not match, please retry it."
    case _ => "Unknown verfication error."
  }
}
