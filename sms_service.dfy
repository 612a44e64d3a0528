/**
 * SmsService: on a placed order, checks the plugin settings, formats the
 * notification text from a template and sends it to every configured admin
 * phone number through the Twilio SDK, one recipient at a time.
 *
 * The Twilio SDK is not modelled: the outcome of the n-th send (0-based) is
 * an input `provider(n)`, and whether constructing the SDK client throws is
 * an input `clientFailure`. Logging is left out; the reason the dispatch
 * stopped is recorded instead.
 */
module SmsService {
  import opened Optional
  import opened Strings
  import opened SystemConfig

  // ---------------------------------------------------------------------
  // Message formatting (buildSmsMessage)
  // ---------------------------------------------------------------------

  /** The order array the service receives; None is a missing key or a null entry. */
  datatype OrderData = OrderData(
    orderNumber: Option<string>,
    amountTotal: Option<string>,
    customerName: Option<string>,
    currency: Option<string>)

  const OrderNumberTag := "{orderNumber}"
  const AmountTotalTag := "{amountTotal}"
  const CustomerNameTag := "{customerName}"
  const CurrencyTag := "{currency}"

  /** The built-in template, written as its literal pieces around the placeholders. */
  const DefaultTemplate := "New order #" + OrderNumberTag + " placed with total amount " + AmountTotalTag
                         + " " + CurrencyTag + " by " + CustomerNameTag + "."

  /** The search/replace pairs, in the order str_replace applies them, with the `??` fallbacks. */
  function Replacements(order: OrderData): seq<(string, string)> {
    [ (OrderNumberTag, order.orderNumber.GetOr("N/A")),
      (AmountTotalTag, order.amountTotal.GetOr("N/A")),
      (CustomerNameTag, order.customerName.GetOr("N/A")),
      (CurrencyTag, order.currency.GetOr("")) ]
  }

  /** buildSmsMessage: the configured template, or the default one when the setting is empty, with the placeholders substituted. */
  function BuildSmsMessage(template: Value, order: OrderData): string {
    var text := if Empty(template) then DefaultTemplate else Text(template);
    StrReplace(Replacements(order), text)
  }

  /** An empty template setting (null, false, "" or "0") formats exactly like the default template. */
  lemma EmptyTemplateUsesDefault(template: Value, order: OrderData)
    requires Empty(template)
    ensures BuildSmsMessage(template, order) == BuildSmsMessage(Str(DefaultTemplate), order)
  {
  }

  /** A configured template containing none of the four placeholders is sent as it is. */
  lemma PlaceholderFreeTemplateUnchanged(template: Value, order: OrderData)
    requires !Empty(template)
    requires !Contains(Text(template), OrderNumberTag) && !Contains(Text(template), AmountTotalTag)
    requires !Contains(Text(template), CustomerNameTag) && !Contains(Text(template), CurrencyTag)
    ensures BuildSmsMessage(template, order) == Text(template)
  {
    StrReplaceAbsent(Replacements(order), Text(template));
  }

  /** A placeholder: an opening brace followed by text without another one. */
  predicate IsTag(p: string) {
    |p| >= 2 && p[0] == '{' && '{' !in p[1..]
  }

  /**
   * One step of a str_replace pass over text made of literal pieces without
   * '{' and placeholders: the placeholder q is replaced when it is the search
   * string p and kept otherwise (q and p then differ at index k).
   */
  lemma PassStep(lit: string, q: string, rest: string, p: string, r: string, k: nat)
    requires IsTag(p) && IsTag(q) && '{' !in lit
    requires q == p || (1 <= k < |p| && k < |q| && q[k] != p[k])
    ensures ReplaceAll(lit + (q + rest), p, r) == lit + ((if q == p then r else q) + ReplaceAll(rest, p, r))
  {
    ReplaceAllSkip(lit, q + rest, p, r);
    if q == p {
      ReplaceAllFront(p, rest, r);
    } else {
      ReplaceAllSkipOther(q, rest, p, r, k);
    }
  }

  /** None of the substituted values brings in an opening brace. */
  predicate BraceFree(order: OrderData) {
    && '{' !in order.orderNumber.GetOr("N/A")
    && '{' !in order.amountTotal.GetOr("N/A")
    && '{' !in order.customerName.GetOr("N/A")
    && '{' !in order.currency.GetOr("")
  }

  /** Literal text after the last placeholder is copied through. */
  lemma TailUnchanged(e: string, p: string, r: string)
    requires IsTag(p) && '{' !in e
    ensures ReplaceAll(e, p, r) == e
  {
    ReplaceAllSkip(e, [], p, r);
    assert e + [] == e;
    assert ReplaceAll([], p, r) == [];
  }

  /** Two placeholders that differ at index k (counted from the brace). */
  predicate DifferAt(p: string, q: string, k: nat) {
    1 <= k < |p| && k < |q| && p[k] != q[k]
  }

  /**
   * Text shaped like the default template: literal pieces a..e around the
   * four slots, laid out as "a x1 b x2 c x4 d x3 e".
   */
  function Layout(a: string, b: string, c: string, d: string, e: string,
                  x1: string, x2: string, x3: string, x4: string): string
  {
    a + (x1 + (b + (x2 + (c + (x4 + (d + (x3 + e)))))))
  }

  /** The first pass replaces only the first slot. */
  lemma FirstPass(a: string, b: string, c: string, d: string, e: string,
                  p1: string, p2: string, p3: string, p4: string, v1: string)
    requires '{' !in a && '{' !in b && '{' !in c && '{' !in d && '{' !in e
    requires IsTag(p1) && IsTag(p2) && IsTag(p3) && IsTag(p4)
    requires DifferAt(p2, p1, 1) && DifferAt(p3, p1, 1) && DifferAt(p4, p1, 1)
    ensures ReplaceAll(Layout(a, b, c, d, e, p1, p2, p3, p4), p1, v1) == Layout(a, b, c, d, e, v1, p2, p3, p4)
  {
    TailUnchanged(e, p1, v1);
    PassStep(d, p3, e, p1, v1, 1);
    PassStep(c, p4, d + (p3 + e), p1, v1, 1);
    PassStep(b, p2, c + (p4 + (d + (p3 + e))), p1, v1, 1);
    PassStep(a, p1, b + (p2 + (c + (p4 + (d + (p3 + e))))), p1, v1, 0);
  }

  /** The second pass replaces only the second slot. */
  lemma SecondPass(a: string, b: string, c: string, d: string, e: string,
                   v1: string, p2: string, p3: string, p4: string, v2: string)
    requires '{' !in a && '{' !in b && '{' !in c && '{' !in d && '{' !in e && '{' !in v1
    requires IsTag(p2) && IsTag(p3) && IsTag(p4)
    requires DifferAt(p3, p2, 1) && DifferAt(p4, p2, 1)
    ensures ReplaceAll(Layout(a, b, c, d, e, v1, p2, p3, p4), p2, v2) == Layout(a, b, c, d, e, v1, v2, p3, p4)
  {
    TailUnchanged(e, p2, v2);
    PassStep(d, p3, e, p2, v2, 1);
    PassStep(c, p4, d + (p3 + e), p2, v2, 1);
    var rest := c + (p4 + (d + (p3 + e)));
    PassStep(b, p2, rest, p2, v2, 0);
    ReplaceAllSkip(v1, b + (p2 + rest), p2, v2);
    ReplaceAllSkip(a, v1 + (b + (p2 + rest)), p2, v2);
  }

  /** The third pass replaces only the third slot. */
  lemma ThirdPass(a: string, b: string, c: string, d: string, e: string,
                  v1: string, v2: string, p3: string, p4: string, v3: string)
    requires '{' !in a && '{' !in b && '{' !in c && '{' !in d && '{' !in e && '{' !in v1 && '{' !in v2
    requires IsTag(p3) && IsTag(p4) && DifferAt(p4, p3, 3)
    ensures ReplaceAll(Layout(a, b, c, d, e, v1, v2, p3, p4), p3, v3) == Layout(a, b, c, d, e, v1, v2, v3, p4)
  {
    TailUnchanged(e, p3, v3);
    PassStep(d, p3, e, p3, v3, 0);
    var rest := d + (p3 + e);
    PassStep(c, p4, rest, p3, v3, 3);
    ReplaceAllSkip(v2, c + (p4 + rest), p3, v3);
    ReplaceAllSkip(b, v2 + (c + (p4 + rest)), p3, v3);
    ReplaceAllSkip(v1, b + (v2 + (c + (p4 + rest))), p3, v3);
    ReplaceAllSkip(a, v1 + (b + (v2 + (c + (p4 + rest)))), p3, v3);
  }

  /** The fourth pass replaces only the fourth slot. */
  lemma FourthPass(a: string, b: string, c: string, d: string, e: string,
                   v1: string, v2: string, v3: string, p4: string, v4: string)
    requires '{' !in a && '{' !in b && '{' !in c && '{' !in d && '{' !in e
    requires '{' !in v1 && '{' !in v2 && '{' !in v3 && IsTag(p4)
    ensures ReplaceAll(Layout(a, b, c, d, e, v1, v2, v3, p4), p4, v4) == Layout(a, b, c, d, e, v1, v2, v3, v4)
  {
    var tail := d + (v3 + e);
    assert '{' !in tail;
    TailUnchanged(tail, p4, v4);
    PassStep(c, p4, tail, p4, v4, 0);
    ReplaceAllSkip(v2, c + (p4 + tail), p4, v4);
    ReplaceAllSkip(b, v2 + (c + (p4 + tail)), p4, v4);
    ReplaceAllSkip(v1, b + (v2 + (c + (p4 + tail))), p4, v4);
    ReplaceAllSkip(a, v1 + (b + (v2 + (c + (p4 + tail)))), p4, v4);
  }

  /** str_replace with four pairs is four ReplaceAll passes, in order. */
  lemma FourReplacements(p1: string, p2: string, p3: string, p4: string,
                         v1: string, v2: string, v3: string, v4: string, t: string)
    requires p1 != [] && p2 != [] && p3 != [] && p4 != []
    ensures StrReplace([(p1, v1), (p2, v2), (p3, v3), (p4, v4)], t)
         == ReplaceAll(ReplaceAll(ReplaceAll(ReplaceAll(t, p1, v1), p2, v2), p3, v3), p4, v4)
  {
    var R := [(p1, v1), (p2, v2), (p3, v3), (p4, v4)];
    var t1 := ReplaceAll(t, p1, v1);
    var t2 := ReplaceAll(t1, p2, v2);
    var t3 := ReplaceAll(t2, p3, v3);
    assert R[1..] == [(p2, v2), (p3, v3), (p4, v4)];
    assert StrReplace(R, t) == StrReplace([(p2, v2), (p3, v3), (p4, v4)], t1);
    assert [(p2, v2), (p3, v3), (p4, v4)][1..] == [(p3, v3), (p4, v4)];
    assert StrReplace([(p2, v2), (p3, v3), (p4, v4)], t1) == StrReplace([(p3, v3), (p4, v4)], t2);
    assert [(p3, v3), (p4, v4)][1..] == [(p4, v4)];
    assert StrReplace([(p3, v3), (p4, v4)], t2) == StrReplace([(p4, v4)], t3);
    assert [(p4, v4)][1..] == [];
  }

  /** The four passes of str_replace over text shaped like the default template. */
  lemma TemplatePasses(a: string, b: string, c: string, d: string, e: string,
                       p1: string, p2: string, p3: string, p4: string,
                       v1: string, v2: string, v3: string, v4: string)
    requires '{' !in a && '{' !in b && '{' !in c && '{' !in d && '{' !in e
    requires '{' !in v1 && '{' !in v2 && '{' !in v3 && '{' !in v4
    requires IsTag(p1) && IsTag(p2) && IsTag(p3) && IsTag(p4)
    requires DifferAt(p2, p1, 1) && DifferAt(p3, p1, 1) && DifferAt(p4, p1, 1)
    requires DifferAt(p3, p2, 1) && DifferAt(p4, p2, 1) && DifferAt(p4, p3, 3)
    ensures StrReplace([(p1, v1), (p2, v2), (p3, v3), (p4, v4)], Layout(a, b, c, d, e, p1, p2, p3, p4))
         == Layout(a, b, c, d, e, v1, v2, v3, v4)
  {
    FourReplacements(p1, p2, p3, p4, v1, v2, v3, v4, Layout(a, b, c, d, e, p1, p2, p3, p4));
    FirstPass(a, b, c, d, e, p1, p2, p3, p4, v1);
    SecondPass(a, b, c, d, e, v1, p2, p3, p4, v2);
    ThirdPass(a, b, c, d, e, v1, v2, p3, p4, v3);
    FourthPass(a, b, c, d, e, v1, v2, v3, p4, v4);
  }

  /** The default sentence with the four values filled in, as the shape Layout builds it. */
  lemma SentenceLayout(v1: string, v2: string, v3: string, v4: string)
    ensures Layout("New order #", " placed with total amount ", " ", " by ", ".", v1, v2, v3, v4)
         == "New order #" + v1 + " placed with total amount " + v2 + " " + v4 + " by " + v3 + "."
  {
  }

  /** With an empty template setting, and values that contain no '{', the message is the default sentence with the values filled in. */
  lemma DefaultTemplateSentence(template: Value, order: OrderData)
    requires Empty(template) && BraceFree(order)
    ensures BuildSmsMessage(template, order)
         == "New order #" + order.orderNumber.GetOr("N/A")
          + " placed with total amount " + order.amountTotal.GetOr("N/A")
          + " " + order.currency.GetOr("")
          + " by " + order.customerName.GetOr("N/A") + "."
  {
    var a, b, c, d, e := "New order #", " placed with total amount ", " ", " by ", ".";
    var p1, p2, p3, p4 := OrderNumberTag, AmountTotalTag, CustomerNameTag, CurrencyTag;
    SentenceLayout(p1, p2, p3, p4);
    assert DefaultTemplate == Layout(a, b, c, d, e, p1, p2, p3, p4);
    var v1, v2, v3, v4 := order.orderNumber.GetOr("N/A"), order.amountTotal.GetOr("N/A"),
                          order.customerName.GetOr("N/A"), order.currency.GetOr("");
    TemplatePasses(a, b, c, d, e, p1, p2, p3, p4, v1, v2, v3, v4);
    SentenceLayout(v1, v2, v3, v4);
  }

  // ExampleSentenceHead and ExampleSentenceTail only spell the example's
  // sentence out in short appends: the verifier compares long string
  // literals cheaply only when a short piece is appended on the right, so
  // the equality is split into steps of that form.

  /** The example's sentence up to the amount, glued from its pieces one at a time. */
  lemma ExampleSentenceHead()
    ensures "New order #" + "1001" + " placed with total amount " + "49.99"
         == "New order #1001 placed with total amount 49.99"
  {
    assert "New order #" + "1001" == "New order #1001";
    assert "New order #1001" + " placed with total amount " == "New order #1001 placed with total amount ";
  }

  /** The example's sentence from the amount on, glued from its pieces one at a time. */
  lemma ExampleSentenceTail()
    ensures "New order #1001 placed with total amount 49.99" + " " + "$" + " by " + "Jane Doe" + "."
         == "New order #1001 placed with total amount 49.99 $ by Jane Doe."
  {
    assert "New order #1001 placed with total amount 49.99" + " " == "New order #1001 placed with total amount 49.99 ";
    assert "New order #1001 placed with total amount 49.99 " + "$" == "New order #1001 placed with total amount 49.99 $";
    assert "New order #1001 placed with total amount 49.99 $" + " by " == "New order #1001 placed with total amount 49.99 $ by ";
    assert "New order #1001 placed with total amount 49.99 $ by " + "Jane Doe" == "New order #1001 placed with total amount 49.99 $ by Jane Doe";
  }

  /** The worked example of the default template: order 1001 of Jane Doe over 49.99 $. */
  lemma DefaultTemplateExample()
    ensures BuildSmsMessage(Str(""), OrderData(Some("1001"), Some("49.99"), Some("Jane Doe"), Some("$")))
         == "New order #1001 placed with total amount 49.99 $ by Jane Doe."
  {
    var a, b, c, d, e := "New order #", " placed with total amount ", " ", " by ", ".";
    SentenceLayout(OrderNumberTag, AmountTotalTag, CustomerNameTag, CurrencyTag);
    assert DefaultTemplate == Layout(a, b, c, d, e, OrderNumberTag, AmountTotalTag, CustomerNameTag, CurrencyTag);
    TemplatePasses(a, b, c, d, e, OrderNumberTag, AmountTotalTag, CustomerNameTag, CurrencyTag,
                   "1001", "49.99", "Jane Doe", "$");
    SentenceLayout("1001", "49.99", "Jane Doe", "$");
    ExampleSentenceHead();
    ExampleSentenceTail();
  }

  /**
   * The replacements run one after another on the text the previous one
   * produced: a value substituted for an earlier placeholder is itself
   * substituted when it spells a later placeholder.
   */
  lemma LaterTagReplacedAgain()
    ensures BuildSmsMessage(Str(OrderNumberTag), OrderData(Some(CurrencyTag), None, None, Some("EUR"))) == "EUR"
  {
    var P1, P2, P3, P4 := OrderNumberTag, AmountTotalTag, CustomerNameTag, CurrencyTag;
    assert ReplaceAll([], P1, "") == [] && ReplaceAll([], P2, "") == [];
    var o := OrderData(Some(CurrencyTag), None, None, Some("EUR"));
    ReplaceAllFront(P1, [], P4);
    assert P1 + [] == P1 && P4 + [] == P4;
    ReplaceAllSkipOther(P4, [], P2, "N/A", 1);
    ReplaceAllSkipOther(P4, [], P3, "N/A", 3);
    ReplaceAllFront(P4, [], "EUR");
    assert "EUR" + ReplaceAll([], P4, "EUR") == "EUR";
    var R := Replacements(o);
    assert StrReplace(R, P1) == StrReplace(R[1..], P4);
    assert StrReplace(R[1..], P4) == StrReplace(R[2..], P4);
    assert StrReplace(R[2..], P4) == StrReplace(R[3..], P4);
    assert StrReplace(R[3..], P4) == StrReplace(R[4..], "EUR");
  }

  /**
   * A value substituted for a later placeholder is not searched again for
   * an earlier one: the currency may spell the order-number placeholder.
   */
  lemma EarlierTagNotReplacedAgain()
    ensures BuildSmsMessage(Str(CurrencyTag), OrderData(Some("1001"), None, None, Some(OrderNumberTag))) == OrderNumberTag
  {
    var P1, P2, P3, P4 := OrderNumberTag, AmountTotalTag, CustomerNameTag, CurrencyTag;
    var o := OrderData(Some("1001"), None, None, Some(OrderNumberTag));
    ReplaceAllSkipOther(P4, [], P1, "1001", 1);
    ReplaceAllSkipOther(P4, [], P2, "N/A", 1);
    ReplaceAllSkipOther(P4, [], P3, "N/A", 3);
    ReplaceAllFront(P4, [], P1);
    assert P1 + [] == P1;
    var R := Replacements(o);
    assert StrReplace(R, P4) == StrReplace(R[1..], P4);
    assert StrReplace(R[1..], P4) == StrReplace(R[2..], P4);
    assert StrReplace(R[2..], P4) == StrReplace(R[3..], P4);
    assert StrReplace(R[3..], P4) == StrReplace(R[4..], P1);
  }

  // ---------------------------------------------------------------------
  // Recipients and the send loop
  // ---------------------------------------------------------------------

  /** validateTwilioConfig: SID, auth token and sender number are all non-empty. */
  predicate ValidTwilioConfig(sid: Value, authToken: Value, fromNumber: Value) {
    !Empty(sid) && !Empty(authToken) && !Empty(fromNumber)
  }

  /** The numbers the send loop attempts: each entry trimmed, empty ones skipped, in list order. */
  function Recipients(numbers: seq<string>): seq<string> {
    Filled(TrimAll(numbers))
  }

  /** Recipients of a concatenation are the recipients of each part, in order. */
  lemma RecipientsAppend(a: seq<string>, b: seq<string>)
    ensures Recipients(a + b) == Recipients(a) + Recipients(b)
  {
    TrimAllAppend(a, b);
    FilledAppend(TrimAll(a), TrimAll(b));
  }

  /** x is attempted exactly when it is the trimmed form of some entry and not empty; every recipient is trimmed and non-empty. */
  lemma RecipientsMembers(numbers: seq<string>, x: string)
    ensures x in Recipients(numbers) <==> (exists k :: 0 <= k < |numbers| && Trim(numbers[k]) == x) && !EmptyString(x)
    ensures x in Recipients(numbers) ==> Trim(x) == x
  {
    FilledMembers(TrimAll(numbers), x);
    if x in Recipients(numbers) {
      var k :| 0 <= k < |numbers| && TrimAll(numbers)[k] == x;
      TrimIdempotent(numbers[k]);
    }
    if (exists k :: 0 <= k < |numbers| && Trim(numbers[k]) == x) {
      var k :| 0 <= k < |numbers| && Trim(numbers[k]) == x;
      assert TrimAll(numbers)[k] == x;
    }
  }

  /** The outcomes of the Twilio SDK's messages->create for one recipient. */
  datatype SendOutcome =
    | Delivered
    | TwilioFailure(message: string)   // a TwilioException: logged, the loop goes on
    | OtherFailure(message: string)    // any other exception: leaves sendOrderNotification

  /** One call of messages->create: recipient, sender, body, and what came of it. */
  datatype Attempt = Attempt(to: string, from: string, body: string, outcome: SendOutcome)

  /**
   * The send loop's contract: the attempts go to the targets in order, the
   * n-th attempt receiving the provider's n-th outcome, all with the same
   * sender and body; a TwilioFailure does not stop the loop, and it stops
   * early exactly at the first OtherFailure, which it passes on as `raised`.
   */
  predicate SendsInOrder(attempts: seq<Attempt>, raised: Option<string>, targets: seq<string>,
                         from: string, body: string, provider: nat -> SendOutcome)
  {
    && |attempts| <= |targets|
    && (forall j :: 0 <= j < |attempts| ==> attempts[j] == Attempt(targets[j], from, body, provider(j)))
    && (forall j :: 0 <= j < |attempts| - 1 ==> !provider(j).OtherFailure?)
    && (raised.None? <==> |attempts| == |targets| && forall j :: 0 <= j < |targets| ==> !provider(j).OtherFailure?)
    && (raised.Some? ==> |attempts| >= 1 && provider(|attempts| - 1) == OtherFailure(raised.value))
  }

  /** When no send raises anything but a TwilioException, every target is attempted and nothing is raised. */
  lemma TwilioFailuresDoNotStop(attempts: seq<Attempt>, raised: Option<string>, targets: seq<string>,
                                from: string, body: string, provider: nat -> SendOutcome)
    requires SendsInOrder(attempts, raised, targets, from, body, provider)
    requires forall j :: 0 <= j < |targets| ==> !provider(j).OtherFailure?
    ensures raised.None? && |attempts| == |targets|
    ensures forall j :: 0 <= j < |targets| ==> attempts[j].to == targets[j]
  {
  }

  /** A send that raises nothing but a TwilioException extends a completed run by one target. */
  lemma SendsExtend(attempts: seq<Attempt>, targets: seq<string>, t: string,
                    from: string, body: string, provider: nat -> SendOutcome)
    requires SendsInOrder(attempts, None, targets, from, body, provider)
    requires !provider(|attempts|).OtherFailure?
    ensures SendsInOrder(attempts + [Attempt(t, from, body, provider(|attempts|))], None, targets + [t], from, body, provider)
  {
    var attempts', targets' := attempts + [Attempt(t, from, body, provider(|attempts|))], targets + [t];
    assert forall j :: 0 <= j < |attempts'| ==> attempts'[j] == Attempt(targets'[j], from, body, provider(j));
    assert forall j :: 0 <= j < |targets'| ==> !provider(j).OtherFailure?;
  }

  /** A send that raises another exception ends the run there, whatever targets follow. */
  lemma SendsRaise(attempts: seq<Attempt>, targets: seq<string>, t: string, rest: seq<string>,
                   from: string, body: string, provider: nat -> SendOutcome)
    requires SendsInOrder(attempts, None, targets, from, body, provider)
    requires provider(|attempts|).OtherFailure?
    ensures SendsInOrder(attempts + [Attempt(t, from, body, provider(|attempts|))],
                         Some(provider(|attempts|).message), targets + [t] + rest, from, body, provider)
  {
    var attempts', targets' := attempts + [Attempt(t, from, body, provider(|attempts|))], targets + [t] + rest;
    assert forall j :: 0 <= j < |attempts'| ==> attempts'[j] == Attempt(targets'[j], from, body, provider(j));
    assert 0 <= |attempts| < |targets'| && provider(|attempts|).OtherFailure?;
  }

  /** Taking one more entry adds its trimmed form, unless that is empty. */
  lemma RecipientsStep(numbers: seq<string>, i: nat)
    requires i < |numbers|
    ensures Recipients(numbers[..i + 1])
         == Recipients(numbers[..i]) + (if EmptyString(Trim(numbers[i])) then [] else [Trim(numbers[i])])
  {
    var t := TrimAll(numbers[..i + 1]);
    assert t[..i] == TrimAll(numbers[..i]);
    assert t[i] == Trim(numbers[i]);
  }

  /** The recipients of a list are those of a prefix followed by those of the rest. */
  lemma RecipientsSplit(numbers: seq<string>, i: nat)
    requires i <= |numbers|
    ensures Recipients(numbers) == Recipients(numbers[..i]) + Recipients(numbers[i..])
  {
    assert numbers == numbers[..i] + numbers[i..];
    RecipientsAppend(numbers[..i], numbers[i..]);
  }

  /** One iteration of the send loop that does not raise: the run now covers the first i + 1 entries. */
  lemma LoopStep(numbers: seq<string>, i: nat, attempts: seq<Attempt>, attempts': seq<Attempt>,
                 from: string, body: string, provider: nat -> SendOutcome)
    requires i < |numbers|
    requires SendsInOrder(attempts, None, Recipients(numbers[..i]), from, body, provider)
    requires EmptyString(Trim(numbers[i])) ==> attempts' == attempts
    requires !EmptyString(Trim(numbers[i])) ==>
               !provider(|attempts|).OtherFailure?
               && attempts' == attempts + [Attempt(Trim(numbers[i]), from, body, provider(|attempts|))]
    ensures SendsInOrder(attempts', None, Recipients(numbers[..i + 1]), from, body, provider)
  {
    var done := Recipients(numbers[..i]);
    RecipientsStep(numbers, i);
    if EmptyString(Trim(numbers[i])) {
      assert done + [] == done;
    } else {
      SendsExtend(attempts, done, Trim(numbers[i]), from, body, provider);
    }
  }

  /** The iteration of the send loop that raises: the run ends there, covering all entries. */
  lemma LoopRaise(numbers: seq<string>, i: nat, attempts: seq<Attempt>,
                  from: string, body: string, provider: nat -> SendOutcome)
    requires i < |numbers| && !EmptyString(Trim(numbers[i]))
    requires SendsInOrder(attempts, None, Recipients(numbers[..i]), from, body, provider)
    requires provider(|attempts|).OtherFailure?
    ensures SendsInOrder(attempts + [Attempt(Trim(numbers[i]), from, body, provider(|attempts|))],
                         Some(provider(|attempts|).message), Recipients(numbers), from, body, provider)
  {
    RecipientsStep(numbers, i);
    RecipientsSplit(numbers, i + 1);
    SendsRaise(attempts, Recipients(numbers[..i]), Trim(numbers[i]), Recipients(numbers[i + 1..]), from, body, provider);
  }

  /** The foreach over the phone numbers (trim, skip empty, send, catch TwilioException). */
  method SendToAll(numbers: seq<string>, from: string, body: string, provider: nat -> SendOutcome)
    returns (attempts: seq<Attempt>, raised: Option<string>)
    ensures SendsInOrder(attempts, raised, Recipients(numbers), from, body, provider)
  {
    attempts := [];
    raised := None;
    assert Recipients(numbers[..0]) == [] by {
      assert TrimAll(numbers[..0]) == [];
    }
    for i := 0 to |numbers|
      invariant SendsInOrder(attempts, None, Recipients(numbers[..i]), from, body, provider)
    {
      var phoneNumber := Trim(numbers[i]);
      ghost var before := attempts;
      if !EmptyString(phoneNumber) {
        var outcome := provider(|attempts|);
        if outcome.OtherFailure? {
          LoopRaise(numbers, i, attempts, from, body, provider);
          attempts := attempts + [Attempt(phoneNumber, from, body, outcome)];
          raised := Some(outcome.message);
          return;
        }
        attempts := attempts + [Attempt(phoneNumber, from, body, outcome)];
      }
      LoopStep(numbers, i, before, attempts, from, body, provider);
    }
    assert numbers[..|numbers|] == numbers;
  }

  // ---------------------------------------------------------------------
  // sendOrderNotification
  // ---------------------------------------------------------------------

  /** Why a dispatch ended; each corresponds to one log line of the source. */
  datatype Stop =
    | Disabled                  // enabled flag falsy
    | InvalidConfig             // SID, auth token or sender number empty
    | NoPhoneNumbers            // phone-number setting empty
    | ClientFailed(message: string)  // the SDK client constructor threw a TwilioException
    | Completed                 // the loop ran to its end
    | Raised(message: string)   // a non-Twilio exception left the method

  /** What one call of sendOrderNotification did: settings read (in order), sends attempted, and how it ended. */
  datatype Dispatch = Dispatch(settingsRead: seq<string>, attempts: seq<Attempt>, stop: Stop)

  /** A global (not channel-scoped) setting, as the service reads them. */
  function Setting(config: Reader, key: string): Value {
    config(key, None)
  }

  /** All guards of sendOrderNotification pass. */
  predicate ReadyToSend(config: Reader) {
    && Truthy(Setting(config, EnabledKey))
    && ValidTwilioConfig(Setting(config, SidKey), Setting(config, AuthTokenKey), Setting(config, FromNumberKey))
    && !Empty(Setting(config, PhoneNumbersKey))
  }

  /** The settings read, in order, up to the configuration check, up to the phone list, and up to the template. */
  const GuardReads := [EnabledKey, SidKey, AuthTokenKey, FromNumberKey]
  const PhoneReads := GuardReads + [PhoneNumbersKey]
  const AllReads := PhoneReads + [TemplateKey]

  method SendOrderNotification(config: Reader, order: OrderData, clientFailure: Option<string>, provider: nat -> SendOutcome)
    returns (d: Dispatch)
    ensures !Truthy(Setting(config, EnabledKey)) ==> d == Dispatch([EnabledKey], [], Disabled)
    ensures Truthy(Setting(config, EnabledKey))
            && !ValidTwilioConfig(Setting(config, SidKey), Setting(config, AuthTokenKey), Setting(config, FromNumberKey))
            ==> d == Dispatch(GuardReads, [], InvalidConfig)
    ensures Truthy(Setting(config, EnabledKey))
            && ValidTwilioConfig(Setting(config, SidKey), Setting(config, AuthTokenKey), Setting(config, FromNumberKey))
            && Empty(Setting(config, PhoneNumbersKey))
            ==> d == Dispatch(PhoneReads, [], NoPhoneNumbers)
    ensures ReadyToSend(config) ==> d.settingsRead == AllReads
    ensures ReadyToSend(config) && clientFailure.Some? ==> d.attempts == [] && d.stop == ClientFailed(clientFailure.value)
    ensures ReadyToSend(config) && clientFailure.None? ==>
              (d.stop == Completed || d.stop.Raised?)
              && SendsInOrder(d.attempts, if d.stop.Raised? then Some(d.stop.message) else None,
                              Recipients(PhoneList(Setting(config, PhoneNumbersKey))),
                              Text(Setting(config, FromNumberKey)),
                              BuildSmsMessage(Setting(config, TemplateKey), order),
                              provider)
    ensures d.attempts != [] ==> ReadyToSend(config)
  {
    if !Truthy(Setting(config, EnabledKey)) {
      return Dispatch([EnabledKey], [], Disabled);
    }
    var sid, authToken, fromNumber := Setting(config, SidKey), Setting(config, AuthTokenKey), Setting(config, FromNumberKey);
    if !ValidTwilioConfig(sid, authToken, fromNumber) {
      return Dispatch(GuardReads, [], InvalidConfig);
    }
    var phoneNumbers := PhoneList(Setting(config, PhoneNumbersKey));
    PhoneListShape(Setting(config, PhoneNumbersKey));
    if phoneNumbers == [] {
      return Dispatch(PhoneReads, [], NoPhoneNumbers);
    }
    var message := BuildSmsMessage(Setting(config, TemplateKey), order);
    if clientFailure.Some? {
      return Dispatch(AllReads, [], ClientFailed(clientFailure.value));
    }
    var attempts, raised := SendToAll(phoneNumbers, Text(fromNumber), message, provider);
    var stop := if raised.Some? then Raised(raised.value) else Completed;
    d := Dispatch(AllReads, attempts, stop);
  }
}
