/**
 * The administration's "validate Twilio credentials" button: the computed
 * sales-channel id it sends with the request, found by walking up the
 * component tree, and the translation of the backend's reply into the text
 * of the notification it shows.
 *
 * The component tree is the list of the button's ancestors, nearest first.
 * The translation function `$tc` is an input: `tc` for a key alone, and
 * `tcCount` for a key with a pluralisation count and the two numbers.
 */
module ValidateButton {
  import opened Optional
  import opened Strings
  import TwilioValidation

  // ---------------------------------------------------------------------
  // salesChannelId
  // ---------------------------------------------------------------------

  /** A JavaScript property value as the walk tests it. */
  datatype JsValue =
    | Missing              // undefined, null or another falsy non-string
    | JsString(s: string)
    | NonString            // a truthy value that is not a string

  /** One ancestor component's two sales-channel properties. */
  datatype Scope = Scope(currentSalesChannelId: JsValue, salesChannelId: JsValue)

  /** The walk examines at most this many ancestors. */
  const MaxLevels := 20

  /** A property value the walk accepts: a truthy string other than 'null'. */
  predicate Usable(v: JsValue) {
    v.JsString? && v.s != "" && v.s != "null"
  }

  /** What one ancestor offers: its currentSalesChannelId if usable, else its salesChannelId if usable. */
  function Candidate(scope: Scope): (id: Option<string>)
    ensures id.Some? ==> id.value != "" && id.value != "null"
    ensures id.None? <==> !Usable(scope.currentSalesChannelId) && !Usable(scope.salesChannelId)
  {
    if Usable(scope.currentSalesChannelId) then Some(scope.currentSalesChannelId.s)
    else if Usable(scope.salesChannelId) then Some(scope.salesChannelId.s)
    else None
  }

  /**
   * The computed salesChannelId: walks from the nearest ancestor up, at most
   * MaxLevels of them, and returns the first usable value, checking
   * currentSalesChannelId before salesChannelId at each level; null when
   * none of the examined ancestors offers one.
   */
  method SalesChannelId(ancestors: seq<Scope>) returns (id: Option<string>)
    ensures id.None? <==> forall j :: 0 <= j < |ancestors| && j < MaxLevels ==> Candidate(ancestors[j]).None?
    ensures id.Some? ==> exists level :: 0 <= level < |ancestors| && level < MaxLevels
                                         && id == Candidate(ancestors[level])
                                         && forall j :: 0 <= j < level ==> Candidate(ancestors[j]).None?
  {
    var level := 0;
    while level < |ancestors| && level < MaxLevels
      invariant 0 <= level <= |ancestors| && level <= MaxLevels
      invariant forall j :: 0 <= j < level ==> Candidate(ancestors[j]).None?
    {
      var parent := ancestors[level];
      if parent.currentSalesChannelId.JsString? && parent.currentSalesChannelId.s != "" {
        if parent.currentSalesChannelId.s != "null" {
          return Some(parent.currentSalesChannelId.s);
        }
      }
      if parent.salesChannelId.JsString? && parent.salesChannelId.s != "" {
        if parent.salesChannelId.s != "null" {
          return Some(parent.salesChannelId.s);
        }
      }
      level := level + 1;
    }
    return None;
  }

  // ---------------------------------------------------------------------
  // translateMessage
  // ---------------------------------------------------------------------

  /** The message map: backend substrings and their translation keys, in declaration order. */
  const Patterns: seq<(string, string)> := [
    ("Twilio SID and Auth Token are not configured", "vhdev-sms.validation.messages.missingSidToken"),
    ("Twilio From Number is not configured", "vhdev-sms.validation.messages.missingFromNumber"),
    ("The provided phone number is not valid", "vhdev-sms.validation.messages.invalidPhoneNumber"),
    ("Invalid credentials", "vhdev-sms.validation.messages.invalidCredentials"),
    ("Failed to connect", "vhdev-sms.validation.messages.connectionError")
  ]

  const CredentialsValidKey := "vhdev-sms.validation.messages.credentialsValid"
  const TestSmsSentKey := "vhdev-sms.validation.messages.testSmsSent"

  /** `backendMessage && backendMessage.includes(pattern)`: a present, non-empty message containing the pattern. */
  predicate Matches(backendMessage: Option<string>, pattern: string) {
    backendMessage.Some? && backendMessage.value != "" && Contains(backendMessage.value, pattern)
  }

  /** The index of the first pattern, from index i on, that the message matches. */
  function FirstMatchFrom(backendMessage: Option<string>, i: nat): (k: Option<nat>)
    requires i <= |Patterns|
    ensures k.Some? ==> i <= k.value < |Patterns| && Matches(backendMessage, Patterns[k.value].0)
                        && forall j :: i <= j < k.value ==> !Matches(backendMessage, Patterns[j].0)
    ensures k.None? <==> forall j :: i <= j < |Patterns| ==> !Matches(backendMessage, Patterns[j].0)
    decreases |Patterns| - i
  {
    if i == |Patterns| then None
    else if Matches(backendMessage, Patterns[i].0) then Some(i)
    else FirstMatchFrom(backendMessage, i + 1)
  }

  /** The index of the first pattern the message matches, if any. */
  function FirstMatch(backendMessage: Option<string>): Option<nat> {
    FirstMatchFrom(backendMessage, 0)
  }

  /** The parts of the reply's JSON the success text reads. */
  datatype ClientResult = ClientResult(
    valid: bool,
    testSmsSent: bool,
    testSmsResults: Option<seq<bool>>,   // per entry: whether result?.success is truthy
    accountName: Option<string>)

  /** `testSmsResults.filter(r => r.result?.success).length`. */
  function CountSuccess(flags: seq<bool>): (n: nat)
    ensures n <= |flags|
    ensures n == |flags| <==> forall k :: 0 <= k < |flags| ==> flags[k]
  {
    if flags == [] then 0
    else
      var init := flags[..|flags| - 1];
      assert forall k :: 0 <= k < |init| ==> init[k] == flags[k];
      CountSuccess(init) + (if flags[|flags| - 1] then 1 else 0)
  }

  /**
   * translateMessage: the translation of the first pattern the backend
   * message contains; else, for a valid result, the translated success text
   * with the test-SMS counts and the account name; else the backend message
   * as it came.
   */
  method TranslateMessage(backendMessage: Option<string>, result: Option<ClientResult>,
                          tc: string -> string, tcCount: (string, int, nat, nat) -> string)
    returns (out: Option<string>)
    ensures FirstMatch(backendMessage).Some? ==> out == Some(tc(Patterns[FirstMatch(backendMessage).value].1))
    ensures FirstMatch(backendMessage).None? && result.Some? && result.value.valid ==>
              var r := result.value;
              out == Some(tc(CredentialsValidKey)
                          + (if r.testSmsSent && r.testSmsResults.Some?
                             then " " + tcCount(TestSmsSentKey, 0, CountSuccess(r.testSmsResults.value), |r.testSmsResults.value|)
                             else "")
                          + (if r.accountName.Some? && r.accountName.value != ""
                             then " (" + r.accountName.value + ")"
                             else ""))
    ensures FirstMatch(backendMessage).None? && !(result.Some? && result.value.valid) ==> out == backendMessage
  {
    for i := 0 to |Patterns|
      invariant forall j :: 0 <= j < i ==> !Matches(backendMessage, Patterns[j].0)
    {
      var (pattern, translationKey) := Patterns[i];
      if backendMessage.Some? && backendMessage.value != "" && Contains(backendMessage.value, pattern) {
        return Some(tc(translationKey));
      }
    }

    if result.Some? && result.value.valid {
      var r := result.value;
      var message := tc(CredentialsValidKey);
      if r.testSmsSent && r.testSmsResults.Some? {
        var successCount := CountSuccess(r.testSmsResults.value);
        var totalCount := |r.testSmsResults.value|;
        message := message + (" " + tcCount(TestSmsSentKey, 0, successCount, totalCount));
      } else {
        assert message + "" == message;
      }
      if r.accountName.Some? && r.accountName.value != "" {
        message := message + (" (" + r.accountName.value + ")");
      } else {
        assert message + "" == message;
      }
      return Some(message);
    }

    return backendMessage;
  }

  // ---------------------------------------------------------------------
  // What the backend's messages become
  // ---------------------------------------------------------------------

  /** A null, undefined or empty message matches no pattern. */
  lemma AbsentMessageMatchesNothing()
    ensures FirstMatch(None).None?
    ensures FirstMatch(Some("")).None?
  {
  }

  // The Head/Tail lemmas below and NoCapitalTAfterStart only spell the
  // backend's messages and the patterns out in short pieces: the verifier
  // compares and indexes long string literals cheaply only piece by piece
  // (a short piece appended on the right, or a position inside a short
  // piece), so each fact about a whole message is built from such steps.

  /** The missing-credentials message spelled as its pattern and five appended words, first half. */
  lemma SidTokenMessageHead()
    ensures Patterns[0].0 + ". Please" + " save" == "Twilio SID and Auth Token are not configured. Please save"
  {
    assert Patterns[0].0 + ". Please" == "Twilio SID and Auth Token are not configured. Please";
  }

  /** The missing-credentials message spelled as its pattern and five appended words, second half. */
  lemma SidTokenMessageTail()
    ensures "Twilio SID and Auth Token are not configured. Please save" + " your" + " settings" + " first."
         == TwilioValidation.MissingSidTokenMessage
  {
    assert "Twilio SID and Auth Token are not configured. Please save" + " your"
        == "Twilio SID and Auth Token are not configured. Please save your";
    assert "Twilio SID and Auth Token are not configured. Please save your" + " settings"
        == "Twilio SID and Auth Token are not configured. Please save your settings";
  }

  /** The backend's message for a missing SID or auth token is translated by the first pattern. */
  lemma MissingCredentialsTranslated()
    ensures FirstMatch(Some(TwilioValidation.MissingSidTokenMessage)) == Some(0)
  {
    var p := Patterns[0].0;
    assert OccursAt(p, p, 0);
    FrontKept(p, p, ". Please");
    FrontKept(p + ". Please", p, " save");
    FrontKept(p + ". Please" + " save", p, " your");
    FrontKept(p + ". Please" + " save" + " your", p, " settings");
    FrontKept(p + ". Please" + " save" + " your" + " settings", p, " first.");
    SidTokenMessageHead();
    SidTokenMessageTail();
    assert OccursAt(TwilioValidation.MissingSidTokenMessage, p, 0);
  }

  /** Past its first character, the missing-sender pattern has no capital T. */
  lemma NoCapitalTAfterStart(i: int)
    requires 1 <= i < |Patterns[1].0|
    ensures Patterns[1].0[i] != 'T'
  {
    var a, b, c, d := "Twilio Fr", "om Number", " is not c", "onfigured";
    assert a + b == "Twilio From Number";
    assert a + b + c == "Twilio From Number is not c";
    assert a + b + c + d == Patterns[1].0;
    var p := a + b + c + d;
    if i < 9 {
      assert p[i] == a[i];
    } else if i < 18 {
      assert p[i] == b[i - 9];
    } else if i < 27 {
      assert p[i] == c[i - 18];
    } else {
      assert p[i] == d[i - 27];
    }
  }

  /** The missing-sender message spelled as its pattern and five appended words, first half. */
  lemma FromMessageHead()
    ensures Patterns[1].0 + ". Please" + " save" == "Twilio From Number is not configured. Please save"
  {
    assert Patterns[1].0 + ". Please" == "Twilio From Number is not configured. Please";
  }

  /** The missing-sender message spelled as its pattern and five appended words, second half. */
  lemma FromMessageTail()
    ensures "Twilio From Number is not configured. Please save" + " your" + " settings" + " first."
         == TwilioValidation.MissingFromMessage
  {
    assert "Twilio From Number is not configured. Please save" + " your"
        == "Twilio From Number is not configured. Please save your";
    assert "Twilio From Number is not configured. Please save your" + " settings"
        == "Twilio From Number is not configured. Please save your settings";
  }

  /** The missing-sender message starts with the second pattern. */
  lemma MissingFromStartsWithPattern()
    ensures OccursAt(TwilioValidation.MissingFromMessage, Patterns[1].0, 0)
  {
    var p := Patterns[1].0;
    assert OccursAt(p, p, 0);
    FrontKept(p, p, ". Please");
    FrontKept(p + ". Please", p, " save");
    FrontKept(p + ". Please" + " save", p, " your");
    FrontKept(p + ". Please" + " save" + " your", p, " settings");
    FrontKept(p + ". Please" + " save" + " your" + " settings", p, " first.");
    FromMessageHead();
    FromMessageTail();
  }

  /** The missing-sender message does not contain the first pattern. */
  lemma MissingFromLacksFirstPattern()
    ensures !Contains(TwilioValidation.MissingFromMessage, Patterns[0].0)
  {
    var s, p, q := TwilioValidation.MissingFromMessage, Patterns[1].0, Patterns[0].0;
    MissingFromStartsWithPattern();
    forall i | 0 <= i <= |s| - |q|
      ensures !OccursAt(s, q, i)
    {
      if i == 0 {
        assert s[7] == p[7] != q[7];
        assert s[i..i + |q|][7] == s[7];
      } else {
        assert s[i] == p[i];
        NoCapitalTAfterStart(i);
        assert s[i..i + |q|][0] == s[i];
      }
    }
  }

  /** The backend's message for a missing sender number is translated by the second pattern. */
  lemma MissingFromTranslated()
    ensures FirstMatch(Some(TwilioValidation.MissingFromMessage)) == Some(1)
  {
    MissingFromStartsWithPattern();
    MissingFromLacksFirstPattern();
  }

  /** A failed connection is always translated: its message contains "Failed to connect", if no earlier pattern. */
  lemma ConnectionFailureTranslated(error: string)
    ensures FirstMatch(Some(TwilioValidation.ConnectPrefix + error)).Some?
  {
    var msg := TwilioValidation.ConnectPrefix + error;
    assert msg == Patterns[4].0 + (" to Twilio API: " + error);
    PrefixContained(Patterns[4].0, " to Twilio API: " + error);
  }

  /** The backend's 401 message does not contain "Invalid credentials". */
  lemma InvalidCredentialsLacksFourthPattern()
    ensures !Contains(TwilioValidation.InvalidCredentialsMessage, Patterns[3].0)
  {
    var s := TwilioValidation.InvalidCredentialsMessage;
    var p := Patterns[3].0;
    forall i | 0 <= i <= |s| - |p|
      ensures !OccursAt(s, p, i)
    {
      if i == 0 {
        assert s[8] != p[8];
        assert s[i..i + |p|][8] == s[8];
      } else {
        assert s[i] != 'I';
        assert s[i..i + |p|][0] == s[i];
      }
    }
  }

  /**
   * The backend's "Invalid Twilio credentials" contains none of the patterns
   * ("Invalid credentials" is not a substring of it), so a 401 reply's
   * message is shown as it came.
   */
  lemma InvalidCredentialsUntranslated()
    ensures FirstMatch(Some(TwilioValidation.InvalidCredentialsMessage)).None?
  {
    InvalidCredentialsLacksFourthPattern();
    MissingCharNotContained(TwilioValidation.InvalidCredentialsMessage, Patterns[4].0, 'F');
  }

  /** The JSON of a backend reply, as the button reads it. */
  function FromReply(reply: TwilioValidation.Reply): (r: ClientResult)
    ensures r.valid == reply.valid
    ensures reply.details.None? ==> !r.testSmsSent && r.accountName.None? && r.testSmsResults.None?
    ensures reply.details.Some? ==>
      && r.testSmsSent == reply.details.value.testSmsSent
      && r.accountName == reply.details.value.accountName
      && r.testSmsResults.Some?
      && |r.testSmsResults.value| == |reply.details.value.testSmsResults|
      && forall k :: 0 <= k < |reply.details.value.testSmsResults| ==>
           r.testSmsResults.value[k] == reply.details.value.testSmsResults[k].result.Sent?
  {
    match reply.details
    case None => ClientResult(reply.valid, false, None, None)
    case Some(d) =>
      ClientResult(reply.valid, d.testSmsSent,
                   Some(seq(|d.testSmsResults|, k requires 0 <= k < |d.testSmsResults| => d.testSmsResults[k].result.Sent?)),
                   d.accountName)
  }

  /** Flags that mirror the entries' outcomes count as many successes as the backend counts. */
  lemma {:induction false} FlagsCountAsEntries(flags: seq<bool>, results: seq<TwilioValidation.TestEntry>)
    requires |flags| == |results|
    requires forall k :: 0 <= k < |results| ==> flags[k] == results[k].result.Sent?
    ensures CountSuccess(flags) == TwilioValidation.SuccessCount(results)
    decreases |results|
  {
    if results != [] {
      var n := |results|;
      FlagsCountAsEntries(flags[..n - 1], results[..n - 1]);
    }
  }

  /** The count the button shows for a reply is the backend's success count for it. */
  lemma CountsAgree(reply: TwilioValidation.Reply)
    requires reply.details.Some?
    ensures CountSuccess(FromReply(reply).testSmsResults.value) == TwilioValidation.SuccessCount(reply.details.value.testSmsResults)
  {
    FlagsCountAsEntries(FromReply(reply).testSmsResults.value, reply.details.value.testSmsResults);
  }
}
