// Shared vocabulary of the authentication service: the public enumerations of
// include/kas-authentication-i.h and small helpers used by every other module.
module KasTypes {

  datatype Option<+T> = None | Some(value: T)

  // ---- Authentication modes (KADAuthMode) ----
  const AUTH_MODE_NONE: int := 0
  const AUTH_MODE_AND: int := 1
  const AUTH_MODE_OR: int := 2
  const AUTH_MODE_LAST: int := 3

  const AUTH_MODE_STR_AND: string := "And"
  const AUTH_MODE_STR_OR: string := "Or"

  // ---- Authentication types (KADAuthType), one bit each ----
  const AUTH_TYPE_NONE: int := 0
  const AUTH_TYPE_PASSWORD: int := 1
  const AUTH_TYPE_FINGERPRINT: int := 2
  const AUTH_TYPE_FACE: int := 4
  const AUTH_TYPE_UKEY: int := 8
  const AUTH_TYPE_FINGERVEIN: int := 16
  const AUTH_TYPE_LAST: int := 32
  /** Iris is referred to by the utilities but has no value in the public header;
      the model gives it the next bit, which lies above AUTH_TYPE_LAST. */
  const AUTH_TYPE_IRIS: int := 64

  const AUTH_TYPE_STR_FINGERPRINT: string := "fingerprint"
  const AUTH_TYPE_STR_FACE: string := "face"
  const AUTH_TYPE_STR_UKEY: string := "uKey"
  const AUTH_TYPE_STR_FINGERVEIN: string := "fingervein"
  const AUTH_TYPE_STR_PASSWORD: string := "password"
  const AUTH_TYPE_STR_IRIS: string := "iris"

  // ---- Applications that ask for authentication (KADAuthApplication) ----
  const AUTH_APP_NONE: int := 0
  const AUTH_APP_LOGIN: int := 1
  const AUTH_APP_UNLOCK: int := 2
  const AUTH_APP_EMPOWERMENT: int := 3
  const AUTH_APP_LAST: int := 4

  // ---- Prompt and message kinds sent to the PAM client ----
  const PROMPT_TYPE_QUESTION: int := 1
  const PROMPT_TYPE_SECRET: int := 2
  const MESSAGE_TYPE_ERROR: int := 0
  const MESSAGE_TYPE_INFO: int := 1

  /** The biometric and token factors that have a configuration group. */
  const GROUP_AUTH_TYPES: seq<int> := [AUTH_TYPE_FINGERPRINT, AUTH_TYPE_FACE, AUTH_TYPE_UKEY, AUTH_TYPE_FINGERVEIN]

  /** Membership in GROUP_AUTH_TYPES, written out. */
  predicate GroupAuthType(t: int)
  {
    t == AUTH_TYPE_FINGERPRINT || t == AUTH_TYPE_FACE || t == AUTH_TYPE_UKEY || t == AUTH_TYPE_FINGERVEIN
  }

  /** The applications that have a per-factor enable list, in ascending order. */
  const CONFIG_APPS: seq<int> := [AUTH_APP_LOGIN, AUTH_APP_UNLOCK, AUTH_APP_EMPOWERMENT]

  /** Kinds of device driven by the device service. */
  datatype DeviceType = DeviceFingerPrint | DeviceFace | DeviceFingerVein | DeviceUKey | DeviceIris

  /** Result of an identification reported by a device. */
  datatype IdentifyResult = IdentifyNotMatch | IdentifyMatch | IdentifyRetry | IdentifyNormal | IdentifyOther

  /** Result of an enrollment step reported by a device. */
  datatype EnrollResult = EnrollComplete | EnrollFail | EnrollInProgress

  /** The elements of `s` that satisfy `p`, in order. */
  function Filter<T>(p: T -> bool, s: seq<T>): (r: seq<T>)
    ensures |r| <= |s|
    ensures forall x :: x in r ==> x in s && p(x)
    ensures forall x :: x in s && p(x) ==> x in r
  {
    if s == [] then [] else (if p(s[0]) then [s[0]] else []) + Filter(p, s[1..])
  }

  /** `s` with its first occurrence of `x` removed (QList::removeOne). */
  function RemoveOne<T(==)>(s: seq<T>, x: T): (r: seq<T>)
    ensures x in s ==> |r| == |s| - 1
    ensures x !in s ==> r == s
    ensures forall y :: y in r ==> y in s
    ensures forall y :: y in s && y != x ==> y in r
  {
    if s == [] then []
    else if s[0] == x then s[1..]
    else [s[0]] + RemoveOne(s[1..], x)
  }

  /** Number of occurrences of `x` in `s`. */
  function Count<T(==)>(s: seq<T>, x: T): nat
  {
    if s == [] then 0 else (if s[0] == x then 1 else 0) + Count(s[1..], x)
  }

  lemma {:induction false} CountZero<T>(s: seq<T>, x: T)
    ensures Count(s, x) == 0 <==> x !in s
  {
    if s != [] {
      CountZero(s[1..], x);
      assert s == [s[0]] + s[1..];
    }
  }

  lemma {:induction false} CountAppend<T>(a: seq<T>, b: seq<T>, x: T)
    ensures Count(a + b, x) == Count(a, x) + Count(b, x)
  {
    if a == [] {
      assert a + b == b;
    } else {
      assert (a + b)[1..] == a[1..] + b;
      CountAppend(a[1..], b, x);
    }
  }

  /** Appending to a log, then appending more: one append of both. */
  lemma AppendAssoc<T>(a: seq<T>, b: seq<T>, c: seq<T>)
    ensures (a + b) + c == a + (b + c)
  {
  }

  /** Some element of a non-empty set. */
  lemma Pick<T>(s: set<T>) returns (x: T)
    requires s != {}
    ensures x in s
  {
    if forall y :: y !in s {
      assert false;
    }
    x :| x in s;
  }

  /** The smallest element of a non-empty finite set of integers exists. */
  lemma {:induction false} MinExists(s: set<int>)
    requires s != {}
    ensures exists m :: m in s && forall y :: y in s ==> m <= y
    decreases |s|
  {
    var x := Pick(s);
    var rest := s - {x};
    if rest == {} {
      forall y | y in s ensures x <= y { assert y !in rest; }
    } else {
      MinExists(rest);
      var m :| m in rest && forall y :: y in rest ==> m <= y;
      if x < m {
        forall y | y in s ensures x <= y { if y != x { assert y in rest; } }
      } else {
        forall y | y in s ensures m <= y { if y != x { assert y in rest; } }
      }
    }
  }

  /** The smallest key of a non-empty key set: the first one an ordered map
      visits. */
  method LeastKey(keys: set<int>) returns (k: int)
    requires keys != {}
    ensures k in keys && forall j :: j in keys ==> k <= j
  {
    MinExists(keys);
    k :| k in keys && forall j :: j in keys ==> k <= j;
  }
}
