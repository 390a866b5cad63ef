// Error codes of the daemon and their human-readable descriptions
// (src/daemon/error.h, src/daemon/error.cpp).
module KadError {
  import opened KasTypes

  const SUCCESS: int := 0
  const ERROR_FAILED: int := 1
  const ERROR_INVALID_ARGUMENT: int := 2
  const ERROR_USER_IID_ALREADY_EXISTS: int := 0x10000
  const ERROR_USER_ENROLLING: int := 0x10001
  const ERROR_NO_DEVICE: int := 0x10002
  /** Used by the description table but not declared with the other codes;
      the model places it after ERROR_NO_DEVICE. */
  const ERROR_USER_FEATURE_LIMITS_EXCEEDED: int := 0x10003
  const ERROR_SESSION_EXCEED_MAX_SESSION_NUM: int := 0x20000
  const ERROR_USER_IDENTIFIYING: int := 0x20001

  const INT32_MIN: int := -0x8000_0000
  const INT32_MAX: int := 0x7fff_ffff

  /** The message part of a description. */
  function ErrorMessage(code: int): string
  {
    if code == ERROR_USER_IID_ALREADY_EXISTS then "Authentication ID already exists."
    else if code == ERROR_USER_ENROLLING then "The user is enrolling."
    else if code == ERROR_USER_FEATURE_LIMITS_EXCEEDED then "User Feature limits exceeded"
    else if code == ERROR_SESSION_EXCEED_MAX_SESSION_NUM then "Too many sessions."
    else if code == ERROR_USER_IDENTIFIYING then "The session is in authentication."
    else if code == ERROR_FAILED then "Internel error."
    else if code == ERROR_NO_DEVICE then "No Such Device."
    else "Unknown error."
  }

  /** The value `%x` prints for a 32-bit signed code: its two's complement bits. */
  function AsUnsigned32(code: int): (u: nat)
    requires INT32_MIN <= code <= INT32_MAX
    ensures u < 0x1_0000_0000
    ensures code >= 0 ==> u == code
  {
    if code < 0 then code + 0x1_0000_0000 else code
  }

  function HexDigit(d: nat): (c: char)
    requires d < 16
  {
    if d < 10 then '0' + d as char else 'a' + (d - 10) as char
  }

  predicate IsHexDigit(c: char)
  {
    '0' <= c <= '9' || 'a' <= c <= 'f'
  }

  function HexValue(c: char): (d: nat)
    requires IsHexDigit(c)
    ensures d < 16 && HexDigit(d) == c
  {
    if c <= '9' then (c - '0') as nat else (c - 'a') as nat + 10
  }

  /** Lower-case hexadecimal without leading zeros, as `%x` prints it. */
  function Hex(n: nat): (s: string)
    ensures |s| > 0
    ensures forall i :: 0 <= i < |s| ==> IsHexDigit(s[i])
    ensures s[0] == '0' ==> n == 0
  {
    if n < 16 then [HexDigit(n)] else Hex(n / 16) + [HexDigit(n % 16)]
  }

  function ParseHex(s: string): nat
    requires forall i :: 0 <= i < |s| ==> IsHexDigit(s[i])
  {
    if s == [] then 0 else ParseHex(s[..|s| - 1]) * 16 + HexValue(s[|s| - 1])
  }

  lemma {:induction false} HexRoundTrip(n: nat)
    ensures ParseHex(Hex(n)) == n
  {
    if n >= 16 {
      HexRoundTrip(n / 16);
      var s := Hex(n);
      assert s[..|s| - 1] == Hex(n / 16);
    }
  }

  /** The text appended to every description: the code in hexadecimal. */
  function CodeSuffix(u: nat): string
  {
    CODE_LEAD + "x" + Hex(u) + ")"
  }

  const CODE_LEAD: string := " (error code: 0"

  /** The user-related messages contain no '%'. */
  lemma UserMessagesHaveNoPercent()
    ensures '%' !in "Authentication ID already exists."
    ensures '%' !in "The user is enrolling."
    ensures '%' !in "User Feature limits exceeded"
    ensures '%' !in "Unknown error."
  {
  }

  /** The session and device messages contain no '%'. */
  lemma OtherMessagesHaveNoPercent()
    ensures '%' !in "Too many sessions."
    ensures '%' !in "The session is in authentication."
    ensures '%' !in "Internel error."
    ensures '%' !in "No Such Device."
  {
  }

  lemma MessageHasNoPercent(code: int)
    ensures '%' !in ErrorMessage(code)
  {
    UserMessagesHaveNoPercent();
    OtherMessagesHaveNoPercent();
  }

  /** The description of an error code: its message and the code in hexadecimal.
      It contains no '%', so the callers that use it as a format string print it as is. */
  function GetErrorDesc(code: int): (desc: string)
    requires INT32_MIN <= code <= INT32_MAX
    ensures |ErrorMessage(code)| < |desc| && desc[..|ErrorMessage(code)|] == ErrorMessage(code)
    ensures '%' !in desc
  {
    var msg, hex := ErrorMessage(code), Hex(AsUnsigned32(code));
    MessageHasNoPercent(code);
    assert forall i :: 0 <= i < |hex| ==> hex[i] != '%';
    msg + CodeSuffix(AsUnsigned32(code))
  }

  /** The characters after the last 'x' of a string (all of it if there is none). */
  function AfterLastX(s: string): string
  {
    if s == [] then []
    else if s[|s| - 1] == 'x' then []
    else AfterLastX(s[..|s| - 1]) + [s[|s| - 1]]
  }

  lemma {:induction false} AfterLastXOfHex(prefix: string, hex: string)
    requires forall i :: 0 <= i < |hex| ==> IsHexDigit(hex[i])
    ensures AfterLastX(prefix + "x" + hex) == hex
  {
    var s := prefix + "x" + hex;
    if hex == [] {
      assert s[|s| - 1] == 'x';
    } else {
      assert s[..|s| - 1] == prefix + "x" + hex[..|hex| - 1];
      AfterLastXOfHex(prefix, hex[..|hex| - 1]);
      assert hex == hex[..|hex| - 1] + [hex[|hex| - 1]];
    }
  }

  /** The hexadecimal a description prints: the characters between its last
      'x' and its closing character. */
  function PrintedHex(desc: string): string
  {
    if desc == [] then [] else AfterLastX(desc[..|desc| - 1])
  }

  /** The code printed in a description can be read back from it: it is the
      hexadecimal between the last 'x' and the closing parenthesis. */
  lemma SuffixRoundTrip(msg: string, u: nat)
    ensures var desc := msg + CodeSuffix(u);
      desc[|desc| - 1] == ')' && PrintedHex(desc) == Hex(u)
  {
    var prefix := msg + CODE_LEAD;
    var desc := msg + CodeSuffix(u);
    assert desc == (prefix + "x" + Hex(u)) + ")";
    assert desc[..|desc| - 1] == prefix + "x" + Hex(u);
    AfterLastXOfHex(prefix, Hex(u));
  }

  lemma ErrorDescCodeRoundTrip(code: int)
    requires INT32_MIN <= code <= INT32_MAX
    ensures var desc := GetErrorDesc(code);
      desc[|desc| - 1] == ')' && PrintedHex(desc) == Hex(AsUnsigned32(code))
  {
    SuffixRoundTrip(ErrorMessage(code), AsUnsigned32(code));
  }

  /** Equal descriptions print the same hexadecimal. */
  lemma SameDescSameHex(a: int, b: int)
    requires INT32_MIN <= a <= INT32_MAX && INT32_MIN <= b <= INT32_MAX
    requires GetErrorDesc(a) == GetErrorDesc(b)
    ensures Hex(AsUnsigned32(a)) == Hex(AsUnsigned32(b))
  {
    ErrorDescCodeRoundTrip(a);
    ErrorDescCodeRoundTrip(b);
  }

  /** Distinct codes have distinct descriptions. */
  lemma ErrorDescDeterminesCode(a: int, b: int)
    requires INT32_MIN <= a <= INT32_MAX && INT32_MIN <= b <= INT32_MAX
    requires GetErrorDesc(a) == GetErrorDesc(b)
    ensures a == b
  {
    SameDescSameHex(a, b);
    HexRoundTrip(AsUnsigned32(a));
    HexRoundTrip(AsUnsigned32(b));
  }
}
