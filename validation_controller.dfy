/**
 * TwilioValidationController: the admin API action that checks the saved
 * Twilio settings of a sales channel against the Twilio REST API and sends
 * a test SMS to every configured admin number.
 *
 * The HTTP client is not modelled: each request's outcome (a reply with
 * status code and decoded body, a transport error, or any other exception)
 * is an input. The requests the action issues are recorded, in order, so
 * that "no request is made" can be stated. The JSON response is a record.
 */
module TwilioValidation {
  import opened Optional
  import opened Strings
  import opened SystemConfig
  import SmsService

  /** What came of one HTTP request to the Twilio API. */
  datatype HttpOutcome<Body> =
    | Replied(status: int, body: Body)   // a response was received and its body decoded
    | TransportError(message: string)    // a TransportExceptionInterface
    | Failed(message: string)            // any other \Exception

  /** The decoded account resource (friendly_name, status). */
  datatype AccountBody = AccountBody(friendlyName: Option<string>, status: Option<string>)

  /** The decoded incoming-phone-number listing: whether incoming_phone_numbers is non-empty. */
  datatype NumbersBody = NumbersBody(listed: bool)

  /** The decoded message resource, or error document (sid, status, message). */
  datatype MessageBody = MessageBody(sid: Option<string>, status: Option<string>, message: Option<string>)

  /** The array sendTestSms returns: success with the message sid and status, or an error text. */
  datatype SmsResult =
    | Sent(messageSid: Option<string>, status: Option<string>)
    | NotSent(error: string)

  /** One element of testSmsResults. */
  datatype TestEntry = TestEntry(phoneNumber: string, result: SmsResult)

  /** The fields of the 200 response beyond valid and message. */
  datatype Details = Details(
    accountName: Option<string>,
    accountStatus: Option<string>,
    testSmsSent: bool,
    testSmsResults: seq<TestEntry>)

  /** The JSON response: HTTP status, the valid flag, the message, and the details of a success. */
  datatype Reply = Reply(status: int, valid: bool, message: string, details: Option<Details>)

  /** An HTTP request the action sends to the Twilio API. */
  datatype Request =
    | AccountLookup(sid: string)
    | NumberLookup(sid: string, phoneNumber: string)
    | MessageCreate(sid: string, to: string, from: string, body: string)

  const MissingSidTokenMessage := "Twilio SID and Auth Token are not configured. Please save your settings first."
  const MissingFromMessage := "Twilio From Number is not configured. Please save your settings first."
  const InvalidNumberMessage := "The provided phone number is not valid or not associated with your Twilio account"
  const InvalidCredentialsMessage := "Invalid Twilio credentials"
  const ConnectPrefix := "Failed to connect to Twilio API: "
  const FailedPrefix := "Validation failed: "
  const ValidMessage := "Twilio credentials are valid."
  const TestMessage := "TEST SMS: This is a test message from Shopware Admin SMS Order Notification plugin. Your Twilio configuration is working correctly!"

  // ---------------------------------------------------------------------
  // validatePhoneNumber and sendTestSms
  // ---------------------------------------------------------------------

  /**
   * validatePhoneNumber: listed numbers are accepted, unlisted ones "might be
   * verified numbers", and a failed lookup must not fail validation, so every
   * outcome of the lookup yields true.
   */
  function ValidatePhoneNumber(lookup: HttpOutcome<NumbersBody>): (ok: bool)
    ensures ok
  {
    match lookup
    case Replied(status, body) =>
      if status == 200 && body.listed then true
      else true
    case TransportError(_) => true
    case Failed(_) => true
  }

  /** sendTestSms: the classification of one message-create outcome. */
  function SendTestSms(outcome: HttpOutcome<MessageBody>): (r: SmsResult)
    ensures r.Sent? <==> outcome.Replied? && 200 <= outcome.status < 300
    ensures r.Sent? ==> r.messageSid == outcome.body.sid && r.status == outcome.body.status
    ensures outcome.Replied? && r.NotSent? ==> r.error == outcome.body.message.GetOr("Unknown error")
    ensures outcome.TransportError? ==> r.error == "Transport error: " + outcome.message
    ensures outcome.Failed? ==> r.error == outcome.message
  {
    match outcome
    case Replied(status, body) =>
      if 200 <= status && status < 300 then Sent(body.sid, body.status)
      else NotSent(body.message.GetOr("Unknown error"))
    case TransportError(m) => NotSent("Transport error: " + m)
    case Failed(m) => NotSent(m)
  }

  /** count(array_filter($testSmsResults, fn($r) => $r['result']['success'] ?? false)). */
  function SuccessCount(results: seq<TestEntry>): (n: nat)
    ensures n <= |results|
    ensures n == |results| <==> forall k :: 0 <= k < |results| ==> results[k].result.Sent?
    ensures n == 0 <==> forall k :: 0 <= k < |results| ==> results[k].result.NotSent?
  {
    if results == [] then 0
    else
      var init := results[..|results| - 1];
      assert forall k :: 0 <= k < |init| ==> init[k] == results[k];
      SuccessCount(init) + (if results[|results| - 1].result.Sent? then 1 else 0)
  }

  /** The suffix of the success message: " Test SMS sent to s/t numbers", or nothing when t is 0. */
  function TestSuffix(successCount: nat, totalCount: nat): string {
    if totalCount > 0 then
      " Test SMS sent to " + DecimalString(successCount) + "/" + DecimalString(totalCount) + " numbers"
    else ""
  }

  /** The numbers the test loop sends to: the parsed admin numbers that are not empty, in order. */
  function TestTargets(adminPhoneNumbers: Value): seq<string> {
    Filled(PhoneList(adminPhoneNumbers))
  }

  // ---------------------------------------------------------------------
  // The test-SMS loop
  // ---------------------------------------------------------------------

  /**
   * The foreach over the parsed admin numbers: each non-empty entry gets one
   * message-create request with the fixed test text, and one result entry;
   * the k-th request receives the k-th outcome.
   */
  method SendTestMessages(phoneNumbers: seq<string>, sid: string, from: string,
                          provider: nat -> HttpOutcome<MessageBody>)
    returns (results: seq<TestEntry>, sent: seq<Request>)
    ensures |results| == |sent| == |Filled(phoneNumbers)|
    ensures forall k :: 0 <= k < |results| ==>
              results[k] == TestEntry(Filled(phoneNumbers)[k], SendTestSms(provider(k)))
              && sent[k] == MessageCreate(sid, Filled(phoneNumbers)[k], from, TestMessage)
  {
    results, sent := [], [];
    ghost var done: seq<string> := [];
    var i := 0;
    while i < |phoneNumbers|
      invariant 0 <= i <= |phoneNumbers|
      invariant done == Filled(phoneNumbers[..i])
      invariant |results| == |sent| == |done|
      invariant forall k :: 0 <= k < |results| ==>
                  results[k] == TestEntry(done[k], SendTestSms(provider(k)))
                  && sent[k] == MessageCreate(sid, done[k], from, TestMessage)
    {
      var phoneNumber := phoneNumbers[i];
      FilledStep(phoneNumbers, i);
      if !EmptyString(phoneNumber) {
        var result := SendTestSms(provider(|results|));
        results := results + [TestEntry(phoneNumber, result)];
        sent := sent + [MessageCreate(sid, phoneNumber, from, TestMessage)];
        done := done + [phoneNumber];
      } else {
        assert done + [] == done;
      }
      i := i + 1;
    }
    assert phoneNumbers[..i] == phoneNumbers;
  }

  // ---------------------------------------------------------------------
  // validateTwilioCredentials
  // ---------------------------------------------------------------------

  /** The settings the action reads, all scoped to the request's sales channel. */
  function Scoped(config: Reader, channel: Option<string>, key: string): Value {
    config(key, channel)
  }

  /** SID and auth token are both set. */
  predicate HasCredentials(config: Reader, channel: Option<string>) {
    !Empty(Scoped(config, channel, SidKey)) && !Empty(Scoped(config, channel, AuthTokenKey))
  }

  /** Every setting the first two checks demand is set. */
  predicate Configured(config: Reader, channel: Option<string>) {
    HasCredentials(config, channel) && !Empty(Scoped(config, channel, FromNumberKey))
  }

  /**
   * The 200 response for an account and the message-create requests that
   * led to it: one test result per target number, in order, the k-th
   * classifying the k-th outcome; the account's name and status; testSmsSent
   * exactly when there was a target; and the message with the count suffix.
   */
  predicate ValidReport(reply: Reply, requests: seq<Request>, sid: string, from: string,
                        adminPhoneNumbers: Value, accountData: AccountBody,
                        provider: nat -> HttpOutcome<MessageBody>)
  {
    var targets := TestTargets(adminPhoneNumbers);
    && reply.status == 200 && reply.valid && reply.details.Some?
    && reply.details.value.accountName == accountData.friendlyName
    && reply.details.value.accountStatus == accountData.status
    && |reply.details.value.testSmsResults| == |targets|
    && (forall k :: 0 <= k < |targets| ==>
          reply.details.value.testSmsResults[k] == TestEntry(targets[k], SendTestSms(provider(k))))
    && reply.details.value.testSmsSent == (|targets| > 0)
    && reply.message == ValidMessage + TestSuffix(SuccessCount(reply.details.value.testSmsResults), |targets|)
    && |requests| == |targets|
    && (forall k :: 0 <= k < |targets| ==> requests[k] == MessageCreate(sid, targets[k], from, TestMessage))
  }

  /**
   * The part of validateTwilioCredentials after the account lookup answered
   * 200 and the number lookup accepted: the test messages and the 200
   * response. `requests` are the message-create requests, in order.
   */
  method ReportValid(sid: string, from: string, adminPhoneNumbers: Value, accountData: AccountBody,
                     provider: nat -> HttpOutcome<MessageBody>)
    returns (reply: Reply, requests: seq<Request>)
    ensures ValidReport(reply, requests, sid, from, adminPhoneNumbers, accountData, provider)
  {
    var testSmsResults: seq<TestEntry> := [];
    requests := [];
    if !Empty(adminPhoneNumbers) {
      var phoneNumbers := TrimAll(Explode(',', Text(adminPhoneNumbers)));
      testSmsResults, requests := SendTestMessages(phoneNumbers, sid, from, provider);
    } else {
      assert TestTargets(adminPhoneNumbers) == [];
    }
    var successCount := SuccessCount(testSmsResults);
    var totalCount := |testSmsResults|;
    reply := Reply(200, true, ValidMessage + TestSuffix(successCount, totalCount),
                   Some(Details(accountData.friendlyName, accountData.status, totalCount > 0, testSmsResults)));
  }

  /**
   * validateTwilioCredentials, after the request body is decoded to its
   * salesChannelId: the settings checks, the account lookup, the (always
   * accepting) number lookup, the test messages, and the response.
   */
  method ValidateTwilioCredentials(config: Reader, channel: Option<string>,
                                   account: HttpOutcome<AccountBody>,
                                   numberLookup: HttpOutcome<NumbersBody>,
                                   provider: nat -> HttpOutcome<MessageBody>)
    returns (reply: Reply, requests: seq<Request>)
    ensures !HasCredentials(config, channel) ==>
              reply == Reply(400, false, MissingSidTokenMessage, None) && requests == []
    ensures HasCredentials(config, channel) && !Configured(config, channel) ==>
              reply == Reply(400, false, MissingFromMessage, None) && requests == []
    ensures Configured(config, channel) ==>
              |requests| >= 1 && requests[0] == AccountLookup(Text(Scoped(config, channel, SidKey)))
    ensures Configured(config, channel) && account.TransportError? ==>
              reply == Reply(500, false, ConnectPrefix + account.message, None) && |requests| == 1
    ensures Configured(config, channel) && account.Failed? ==>
              reply == Reply(500, false, FailedPrefix + account.message, None) && |requests| == 1
    ensures Configured(config, channel) && account.Replied? && account.status != 200 ==>
              reply == Reply(401, false, InvalidCredentialsMessage, None) && |requests| == 1
    ensures Configured(config, channel) && account.Replied? && account.status == 200 ==>
              var sid, from := Text(Scoped(config, channel, SidKey)), Text(Scoped(config, channel, FromNumberKey));
              && |requests| >= 2 && requests[..2] == [AccountLookup(sid), NumberLookup(sid, from)]
              && ValidReport(reply, requests[2..], sid, from, Scoped(config, channel, PhoneNumbersKey), account.body, provider)
    ensures reply.valid <==> reply.status == 200
    ensures reply.status == 400 ==> reply.message == MissingSidTokenMessage || reply.message == MissingFromMessage
  {
    var sid := Scoped(config, channel, SidKey);
    var authToken := Scoped(config, channel, AuthTokenKey);
    var fromNumber := Scoped(config, channel, FromNumberKey);
    var adminPhoneNumbers := Scoped(config, channel, PhoneNumbersKey);

    if Empty(sid) || Empty(authToken) {
      return Reply(400, false, MissingSidTokenMessage, None), [];
    }
    if Empty(fromNumber) {
      return Reply(400, false, MissingFromMessage, None), [];
    }

    requests := [AccountLookup(Text(sid))];
    match account {
      case TransportError(m) =>
        reply := Reply(500, false, ConnectPrefix + m, None);
      case Failed(m) =>
        reply := Reply(500, false, FailedPrefix + m, None);
      case Replied(statusCode, accountData) =>
        if statusCode != 200 {
          reply := Reply(401, false, InvalidCredentialsMessage, None);
          return;
        }
        var lookups := [AccountLookup(Text(sid)), NumberLookup(Text(sid), Text(fromNumber))];
        requests := lookups;
        var isValidNumber := ValidatePhoneNumber(numberLookup);
        if !isValidNumber {
          reply := Reply(400, false, InvalidNumberMessage, None);
          return;
        }
        var tail: seq<Request>;
        reply, tail := ReportValid(Text(sid), Text(fromNumber), adminPhoneNumbers, accountData, provider);
        requests := lookups + tail;
        assert requests[..2] == lookups && requests[2..] == tail;
    }
  }

  // ---------------------------------------------------------------------
  // Properties relating the pieces
  // ---------------------------------------------------------------------

  /**
   * For the same phone-list setting value, the test messages go to the same
   * numbers, in the same order, as the order notifications of SmsService:
   * entries of the parsed list are already trimmed, so trimming them again in
   * the send loop changes nothing. (The controller reads the setting for the
   * request's sales channel and the service reads it globally, so the two
   * values can differ.)
   */
  lemma TestTargetsAreRecipients(adminPhoneNumbers: Value)
    ensures TestTargets(adminPhoneNumbers) == SmsService.Recipients(PhoneList(adminPhoneNumbers))
  {
    PhoneListShape(adminPhoneNumbers);
    var parts := PhoneList(adminPhoneNumbers);
    assert TrimAll(parts) == parts;
  }

  /** A reply with a 2xx status. */
  predicate Is2xx(outcome: HttpOutcome<MessageBody>) {
    outcome.Replied? && 200 <= outcome.status < 300
  }

  /** The number of outcomes that are 2xx replies. */
  function Count2xx(outcomes: seq<HttpOutcome<MessageBody>>): nat {
    if outcomes == [] then 0
    else Count2xx(outcomes[..|outcomes| - 1]) + (if Is2xx(outcomes[|outcomes| - 1]) then 1 else 0)
  }

  /** The success count is the number of test messages whose reply had a 2xx status. */
  lemma {:induction false} SuccessCountCounts2xx(results: seq<TestEntry>, outcomes: seq<HttpOutcome<MessageBody>>)
    requires |results| == |outcomes|
    requires forall k :: 0 <= k < |results| ==> results[k].result == SendTestSms(outcomes[k])
    ensures SuccessCount(results) == Count2xx(outcomes)
    decreases |results|
  {
    var n := |results|;
    if n > 0 {
      var init, initOutcomes := results[..n - 1], outcomes[..n - 1];
      forall k | 0 <= k < n - 1
        ensures init[k].result == SendTestSms(initOutcomes[k])
      {
        assert init[k] == results[k] && initOutcomes[k] == outcomes[k];
      }
      SuccessCountCounts2xx(init, initOutcomes);
      assert results[n - 1].result.Sent? == Is2xx(outcomes[n - 1]);
    }
  }
}
