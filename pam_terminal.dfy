// The terminal front end of the PAM module
// (src/pam/authentication-terminal.cpp): the factors it offers and the
// numbered menu from which the user picks one.
//
// The user's answers to the menu prompt are a finite sequence; an answer is
// the text typed or a failed conversation.
module PamTerminal {
  import opened KasTypes
  import opened Utils
  import opened AuthManagerModel

  const INT32_MIN: int := -0x8000_0000
  const INT32_MAX: int := 0x7fff_ffff

  const INVALID_TYPE_MESSAGE: string := "The authentication type is invalid. Please select a new one"

  // ---- Decimal text ----

  predicate IsDigit(c: char)
  {
    '0' <= c <= '9'
  }

  predicate AllDigits(s: string)
  {
    forall i :: 0 <= i < |s| ==> IsDigit(s[i])
  }

  function DigitChar(d: nat): (c: char)
    requires d < 10
    ensures IsDigit(c) && c as int - '0' as int == d
  {
    ('0' as int + d) as char
  }

  /** The value of a string of decimal digits, most significant first. */
  function DigitsValue(s: string): nat
    requires AllDigits(s)
  {
    if s == [] then 0
    else DigitsValue(s[..|s| - 1]) * 10 + (s[|s| - 1] as int - '0' as int)
  }

  /** The decimal text of a natural number, with no leading zero. */
  function NatToDecimal(n: nat): (r: string)
    ensures |r| > 0 && AllDigits(r)
    ensures r[0] == '0' ==> n == 0
  {
    if n < 10 then [DigitChar(n)]
    else NatToDecimal(n / 10) + [DigitChar(n % 10)]
  }

  /** QString::arg of an int: a minus sign for a negative number. */
  function IntToDecimal(n: int): (r: string)
    ensures |r| > 0
    ensures n < 0 <==> r[0] == '-'
  {
    if n < 0 then "-" + NatToDecimal(-n) else NatToDecimal(n)
  }

  /** QString::toInt in base 10: an optional sign then one or more digits,
      whose value must fit a 32-bit int; anything else fails. */
  function ParseInt(s: string): (r: Option<int>)
    ensures r.Some? ==> INT32_MIN <= r.value <= INT32_MAX
    ensures r.Some? ==> |s| > 0 && (r.value < 0 ==> s[0] == '-')
  {
    var signed := |s| > 0 && (s[0] == '-' || s[0] == '+');
    var digits := if signed then s[1..] else s;
    if digits == [] || !AllDigits(digits) then None
    else
      var v: int := if signed && s[0] == '-' then -(DigitsValue(digits) as int) else DigitsValue(digits);
      if INT32_MIN <= v <= INT32_MAX then Some(v) else None
  }

  lemma {:induction false} NatToDecimalValue(n: nat)
    ensures DigitsValue(NatToDecimal(n)) == n
  {
    var r := NatToDecimal(n);
    if n >= 10 {
      NatToDecimalValue(n / 10);
      assert r[..|r| - 1] == NatToDecimal(n / 10);
    }
  }

  /** A non-negative number's text reads back as that number. */
  lemma NatRoundTrip(n: nat)
    requires n <= INT32_MAX
    ensures ParseInt(NatToDecimal(n)) == Some(n)
  {
    var r := NatToDecimal(n);
    NatToDecimalValue(n);
    assert r[0] != '-' && r[0] != '+' by {
      assert IsDigit(r[0]);
    }
  }

  /** The number printed for a value reads back as that value. */
  lemma DecimalRoundTrip(n: int)
    requires INT32_MIN <= n <= INT32_MAX
    ensures ParseInt(IntToDecimal(n)) == Some(n)
  {
    if n < 0 {
      var r := NatToDecimal(-n);
      NatToDecimalValue(-n);
      var t := IntToDecimal(n);
      assert t == "-" + r;
      assert t[1..] == r;
      assert t[0] == '-';
    } else {
      NatRoundTrip(n);
    }
  }

  // ---- The menu ----

  /** notifySupportAuthType: the daemon's list for the application, then
      PASSWORD. */
  function SupportAuthTypes(managerList: seq<int>): (r: seq<int>)
    ensures |r| == |managerList| + 1 && r[..|managerList|] == managerList && r[|managerList|] == AUTH_TYPE_PASSWORD
  {
    managerList + [AUTH_TYPE_PASSWORD]
  }

  /** The daemon's list already ends with PASSWORD, so the terminal offers
      PASSWORD twice. */
  lemma PasswordOfferedTwice(enabled: seq<int>, order: seq<int>)
    requires AUTH_TYPE_PASSWORD !in enabled
    ensures Count(SupportAuthTypes(OrderedAuthTypes(enabled, order)), AUTH_TYPE_PASSWORD) == 2
  {
    var managerList := OrderedAuthTypes(enabled, order);
    PasswordOnce(enabled, order);
    CountAppend(managerList, [AUTH_TYPE_PASSWORD], AUTH_TYPE_PASSWORD);
    assert Count([AUTH_TYPE_PASSWORD], AUTH_TYPE_PASSWORD) == 1;
  }

  /** A factor's name on the menu: its text, or "AuthType" and its number
      when it has none. */
  function Label(authType: int): (r: string)
    ensures NamedAuthType(authType) ==> r == AuthTypeEnum2LocaleStr(authType)
    ensures !NamedAuthType(authType) ==> r == "AuthType" + IntToDecimal(authType)
  {
    var text := AuthTypeEnum2LocaleStr(authType);
    if text == "" then "AuthType" + IntToDecimal(authType) else text
  }

  /** The menu entry at position i (from 0): its number from 1, a space,
      the factor's name. */
  function MenuEntry(i: nat, authType: int): string
  {
    NatToDecimal(i + 1) + " " + Label(authType)
  }

  /** The whole menu, entry by entry. */
  function Menu(list: seq<int>): (r: seq<string>)
    ensures |r| == |list|
    ensures forall i :: 0 <= i < |list| ==> r[i] == MenuEntry(i, list[i])
  {
    seq(|list|, i requires 0 <= i < |list| => MenuEntry(i, list[i]))
  }

  /** The menu of one more factor has one more entry. */
  lemma MenuStep(list: seq<int>, i: nat)
    requires i < |list|
    ensures Menu(list[..i + 1]) == Menu(list[..i]) + [MenuEntry(i, list[i])]
  {
    var a, b := Menu(list[..i + 1]), Menu(list[..i]) + [MenuEntry(i, list[i])];
    assert |a| == |b|;
    forall k | 0 <= k < |a|
      ensures a[k] == b[k]
    {
      assert a[k] == MenuEntry(k, list[k]);
      if k < i {
        assert b[k] == Menu(list[..i])[k] == MenuEntry(k, list[k]);
      }
    }
  }

  /** QStringList::join. */
  function Join(parts: seq<string>, sep: string): string
  {
    if parts == [] then ""
    else if |parts| == 1 then parts[0]
    else parts[0] + sep + Join(parts[1..], sep)
  }

  function MenuPrompt(entries: seq<string>): string
  {
    "Select Authentication type (" + Join(entries, ",") + "): "
  }

  /** The factors the terminal lets the user pick; any other one silently
      asks again. */
  predicate Accepted(authType: int)
  {
    authType == AUTH_TYPE_PASSWORD || authType == AUTH_TYPE_FINGERPRINT || authType == AUTH_TYPE_FINGERVEIN
    || authType == AUTH_TYPE_UKEY || authType == AUTH_TYPE_FACE
  }

  // ---- The selection loop ----

  datatype ConvAnswer = Answer(text: string) | ConvFailed

  datatype TerminalOutput = Question(text: string) | ErrorMessage(text: string)

  /** The outcome of the selection: the factor (None: the answers ran out
      before one was picked) and what was shown, in order. */
  datatype Selection = Selection(authType: Option<int>, outputs: seq<TerminalOutput>)

  function Prefix(outputs: seq<TerminalOutput>, s: Selection): Selection
  {
    Selection(s.authType, outputs + s.outputs)
  }

  lemma PrefixPrefix(a: seq<TerminalOutput>, b: seq<TerminalOutput>, s: Selection)
    ensures Prefix(a, Prefix(b, s)) == Prefix(a + b, s)
  {
    assert a + (b + s.outputs) == (a + b) + s.outputs;
  }

  /** What one round shows: the menu prompt, and the error message when
      the answer is not a number from 1 to the length of the list. */
  function RoundOutputs(list: seq<int>, answer: ConvAnswer, prompt: string): seq<TerminalOutput>
  {
    var q := Question(prompt);
    if answer.ConvFailed? then [q]
    else
      var n := ParseInt(answer.text);
      if n.None? || n.value <= 0 || n.value > |list| then [q, ErrorMessage(INVALID_TYPE_MESSAGE)] else [q]
  }

  /** What one round picks: PASSWORD on a failed conversation, the numbered
      factor when it is accepted, nothing otherwise (the menu is shown again). */
  function RoundPick(list: seq<int>, answer: ConvAnswer): Option<int>
  {
    if answer.ConvFailed? then Some(AUTH_TYPE_PASSWORD)
    else
      var n := ParseInt(answer.text);
      if n.None? || n.value <= 0 || n.value > |list| then None
      else if Accepted(list[n.value - 1]) then Some(list[n.value - 1])
      else None
  }

  /** requestAuthType over the answers, one round per answer. */
  function SelectSpec(list: seq<int>, answers: seq<ConvAnswer>, prompt: string): Selection
  {
    if answers == [] then Selection(None, [])
    else
      var shown := RoundOutputs(list, answers[0], prompt);
      var pick := RoundPick(list, answers[0]);
      if pick.Some? then Selection(pick, shown)
      else Prefix(shown, SelectSpec(list, answers[1..], prompt))
  }

  /** The factor picked is PASSWORD or an accepted factor of the list. */
  lemma {:induction false} SelectionAccepted(list: seq<int>, answers: seq<ConvAnswer>, prompt: string)
    ensures var r := SelectSpec(list, answers, prompt).authType;
      r.Some? ==> Accepted(r.value) && (r.value == AUTH_TYPE_PASSWORD || r.value in list)
  {
    if answers != [] {
      SelectionAccepted(list, answers[1..], prompt);
    }
  }

  /** Each answer is answered by exactly one prompt: the menu is shown once
      per answer read, and an unusable number adds one error message. */
  lemma {:induction false} OnePromptPerAnswer(list: seq<int>, answers: seq<ConvAnswer>, prompt: string)
    ensures var s := SelectSpec(list, answers, prompt);
      s.authType.None? ==> Count(s.outputs, Question(prompt)) == |answers|
    ensures var s := SelectSpec(list, answers, prompt);
      s.authType.Some? ==> 1 <= Count(s.outputs, Question(prompt)) <= |answers|
  {
    if answers != [] {
      var shown := RoundOutputs(list, answers[0], prompt);
      var rest := SelectSpec(list, answers[1..], prompt);
      OnePromptPerAnswer(list, answers[1..], prompt);
      var q := Question(prompt);
      assert Count(shown, q) == 1 by {
        var e := ErrorMessage(INVALID_TYPE_MESSAGE);
        assert shown == [q] || shown == [q, e];
        assert [q][1..] == [] && [q, e][1..] == [e] && [e][1..] == [];
        assert Count([e], q) == 0;
      }
      if RoundPick(list, answers[0]).None? {
        CountAppend(shown, rest.outputs, q);
      }
    }
  }

  /** A failed conversation picks PASSWORD. */
  lemma ConvFailureGivesPassword(list: seq<int>, answers: seq<ConvAnswer>, prompt: string)
    requires answers != [] && answers[0] == ConvFailed
    ensures SelectSpec(list, answers, prompt) == Selection(Some(AUTH_TYPE_PASSWORD), [Question(prompt)])
  {
  }

  /** Typing the number shown in front of an accepted factor picks it. */
  lemma ShownNumberPicks(list: seq<int>, i: nat, answers: seq<ConvAnswer>, prompt: string)
    requires i < |list| && i + 1 <= INT32_MAX && Accepted(list[i])
    requires answers != [] && answers[0] == Answer(NatToDecimal(i + 1))
    ensures SelectSpec(list, answers, prompt) == Selection(Some(list[i]), [Question(prompt)])
  {
    DecimalRoundTrip(i + 1);
  }

  /** An answer that is not a number from 1 to the length of the list shows
      the error and asks again, with nothing else changed. */
  lemma InvalidAnswerAsksAgain(list: seq<int>, answers: seq<ConvAnswer>, prompt: string)
    requires answers != [] && answers[0].Answer?
    requires var n := ParseInt(answers[0].text); n.None? || n.value <= 0 || n.value > |list|
    ensures SelectSpec(list, answers, prompt)
         == Prefix([Question(prompt), ErrorMessage(INVALID_TYPE_MESSAGE)], SelectSpec(list, answers[1..], prompt))
  {
  }

  /** A valid number naming a factor the terminal does not accept (the
      iris, for one) shows no error and asks again, with nothing else
      changed. */
  lemma UnacceptedFactorAsksAgain(list: seq<int>, answers: seq<ConvAnswer>, prompt: string)
    requires answers != [] && answers[0].Answer?
    requires var n := ParseInt(answers[0].text);
      n.Some? && 0 < n.value <= |list| && !Accepted(list[n.value - 1])
    ensures SelectSpec(list, answers, prompt) == Prefix([Question(prompt)], SelectSpec(list, answers[1..], prompt))
  {
  }

  /** One round of the selection, from the k-th answer on. */
  lemma SelectStep(list: seq<int>, answers: seq<ConvAnswer>, k: nat, prompt: string)
    requires k < |answers|
    ensures var pick := RoundPick(list, answers[k]);
      SelectSpec(list, answers[k..], prompt)
      == if pick.Some? then Selection(pick, RoundOutputs(list, answers[k], prompt))
         else Prefix(RoundOutputs(list, answers[k], prompt), SelectSpec(list, answers[k + 1..], prompt))
  {
    assert answers[k..][0] == answers[k] && answers[k..][1..] == answers[k + 1..];
  }

  class AuthenticationTerminal {
    var supportAuthTypes: seq<int>
    var outputs: seq<TerminalOutput>

    constructor ()
      ensures supportAuthTypes == [] && outputs == []
    {
      supportAuthTypes := [];
      outputs := [];
    }

    /** notifySupportAuthType: the list the daemon gives for the
        application, with PASSWORD appended. */
    method NotifySupportAuthType(managerList: seq<int>)
      modifies this
      ensures supportAuthTypes == SupportAuthTypes(managerList)
      ensures outputs == old(outputs)
    {
      supportAuthTypes := managerList + [AUTH_TYPE_PASSWORD];
    }

    /** The numbered menu entries, one per offered factor. */
    method MenuEntries() returns (entries: seq<string>)
      ensures entries == Menu(supportAuthTypes)
    {
      var list := supportAuthTypes;
      entries := [];
      var i := 0;
      while i < |list|
        invariant 0 <= i <= |list| && entries == Menu(list[..i])
      {
        var authTypeStr := AuthTypeEnum2LocaleStr(list[i]);
        if authTypeStr == "" {
          authTypeStr := "AuthType" + IntToDecimal(list[i]);
        }
        var entry := NatToDecimal(i + 1) + " " + authTypeStr;
        assert entry == MenuEntry(i, list[i]);
        MenuStep(list, i);
        entries := entries + [entry];
        i := i + 1;
      }
      assert list[..i] == list;
    }

    /** One pass of requestAuthType's loop body: show the menu, read the
        answer, check it. */
    method AskOnce(answer: ConvAnswer) returns (pick: Option<int>)
      modifies this
      ensures supportAuthTypes == old(supportAuthTypes)
      ensures pick == RoundPick(supportAuthTypes, answer)
      ensures outputs == old(outputs) + RoundOutputs(supportAuthTypes, answer, MenuPrompt(Menu(supportAuthTypes)))
    {
      var entries := MenuEntries();
      var request := MenuPrompt(entries);
      outputs := outputs + [Question(request)];
      if answer.ConvFailed? {
        return Some(AUTH_TYPE_PASSWORD);
      }
      var selectedIdx := ParseInt(answer.text);
      if selectedIdx.None? || selectedIdx.value <= 0 || selectedIdx.value > |supportAuthTypes| {
        outputs := outputs + [ErrorMessage(INVALID_TYPE_MESSAGE)];
        return None;
      }
      var picked := supportAuthTypes[selectedIdx.value - 1];
      pick := if Accepted(picked) then Some(picked) else None;
    }

    /** requestAuthType: show the menu, read an answer, repeat until a
        failed conversation (PASSWORD) or a valid accepted number. */
    method RequestAuthType(answers: seq<ConvAnswer>) returns (authType: Option<int>)
      modifies this
      ensures supportAuthTypes == old(supportAuthTypes)
      ensures var s := SelectSpec(supportAuthTypes, answers, MenuPrompt(Menu(supportAuthTypes)));
        authType == s.authType && outputs == old(outputs) + s.outputs
    {
      ghost var list := supportAuthTypes;
      ghost var prompt := MenuPrompt(Menu(list));
      ghost var shown: seq<TerminalOutput> := [];
      var k := 0;
      while k < |answers|
        invariant 0 <= k <= |answers| && supportAuthTypes == list
        invariant outputs == old(outputs) + shown
        invariant Prefix(shown, SelectSpec(list, answers[k..], prompt)) == SelectSpec(list, answers, prompt)
      {
        SelectStep(list, answers, k, prompt);
        ghost var before := outputs;
        var pick := AskOnce(answers[k]);
        ghost var round := RoundOutputs(list, answers[k], prompt);
        assert outputs == before + round;
        AppendAssoc(old(outputs), shown, round);
        if pick.Some? {
          return pick;
        }
        PrefixPrefix(shown, round, SelectSpec(list, answers[k + 1..], prompt));
        shown := shown + round;
        k := k + 1;
      }
      assert answers[k..] == [];
      authType := None;
    }
  }
}
