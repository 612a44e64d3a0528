/**
 * Plugin settings as the PHP code reads them from the host's configuration
 * service, and the PHP value semantics (`empty()`, truthiness, string
 * conversion) the code applies to them.
 */
module SystemConfig {
  import opened Optional
  import opened Strings

  /** A stored setting: absent (null), a checkbox value, or text. */
  datatype Value = Null | Bool(b: bool) | Str(s: string)

  /** PHP `empty()` on a string: "" and "0" are empty. */
  predicate EmptyString(s: string) {
    s == "" || s == "0"
  }

  /** PHP `empty()`: null, false, "" and "0" are empty. */
  predicate Empty(v: Value) {
    match v
    case Null => true
    case Bool(b) => !b
    case Str(s) => EmptyString(s)
  }

  /** PHP truthiness, as `(bool)` and `!` see a value: exactly the values `empty()` rejects. */
  predicate Truthy(v: Value) {
    !Empty(v)
  }

  /** PHP's string conversion of a setting. */
  function Text(v: Value): string {
    match v
    case Null => ""
    case Bool(b) => if b then "1" else ""
    case Str(s) => s
  }

  /** SystemConfigService::get($key, $salesChannelId): the stored value for a key, optionally scoped to a sales channel. */
  type Reader = (string, Option<string>) -> Value

  const EnabledKey := "VhdevAdminSmsOrderNotificationFree.config.enabled"
  const SidKey := "VhdevAdminSmsOrderNotificationFree.config.twilioSid"
  const AuthTokenKey := "VhdevAdminSmsOrderNotificationFree.config.twilioAuthToken"
  const FromNumberKey := "VhdevAdminSmsOrderNotificationFree.config.twilioFromNumber"
  const PhoneNumbersKey := "VhdevAdminSmsOrderNotificationFree.config.adminPhoneNumbers"
  const TemplateKey := "VhdevAdminSmsOrderNotificationFree.config.smsTemplate"

  /**
   * The admin phone-number setting as both the service and the controller
   * parse it: nothing when the setting is empty, otherwise
   * array_map('trim', explode(',', $setting)).
   */
  function PhoneList(v: Value): seq<string> {
    if Empty(v) then [] else TrimAll(Explode(',', Text(v)))
  }

  /**
   * The list is empty exactly when the setting is; otherwise it has one entry
   * per comma-separated piece of the setting, in order, each the trimmed piece,
   * already trimmed and free of commas.
   */
  lemma PhoneListShape(v: Value)
    ensures PhoneList(v) == [] <==> Empty(v)
    ensures !Empty(v) ==> |PhoneList(v)| == |Explode(',', Text(v))|
                          && Implode(',', Explode(',', Text(v))) == Text(v)
    ensures forall k :: 0 <= k < |PhoneList(v)| ==>
              PhoneList(v)[k] == Trim(Explode(',', Text(v))[k])
              && Trim(PhoneList(v)[k]) == PhoneList(v)[k]
              && ',' !in PhoneList(v)[k]
  {
    if !Empty(v) {
      var pieces := Explode(',', Text(v));
      forall k | 0 <= k < |pieces|
        ensures Trim(Trim(pieces[k])) == Trim(pieces[k]) && ',' !in Trim(pieces[k])
      {
        TrimIdempotent(pieces[k]);
        TrimIsPart(pieces[k]);
      }
    }
  }

  /** Every character of trim($s) is a character of $s. */
  lemma TrimIsPart(s: string)
    ensures forall c :: c in Trim(s) ==> c in s
  {
    var t := TrimStart(s);
    var r := TrimEnd(t);
    var i := |s| - |t|;
    assert r == s[i..i + |r|];
    forall c | c in r ensures c in s {
      var k :| 0 <= k < |r| && r[k] == c;
      assert s[i + k] == c;
    }
  }

  /**
   * The entries of a list that `empty()` does not reject, in order:
   * the effect of `if (!empty($x))` (or `if (empty($x)) continue;`)
   * around each step of a foreach.
   */
  function Filled(entries: seq<string>): seq<string>
    decreases |entries|
  {
    if entries == [] then []
    else
      var last := entries[|entries| - 1];
      Filled(entries[..|entries| - 1]) + (if EmptyString(last) then [] else [last])
  }

  /** Taking one more entry keeps it exactly when it is not empty. */
  lemma FilledStep(entries: seq<string>, i: nat)
    requires i < |entries|
    ensures Filled(entries[..i + 1]) == Filled(entries[..i]) + (if EmptyString(entries[i]) then [] else [entries[i]])
  {
    assert entries[..i + 1][..i] == entries[..i];
  }

  /** x is kept exactly when it is an entry that is not empty. */
  lemma {:induction false} FilledMembers(entries: seq<string>, x: string)
    ensures x in Filled(entries) <==> x in entries && !EmptyString(x)
    decreases |entries|
  {
    if entries != [] {
      var init := entries[..|entries| - 1];
      FilledMembers(init, x);
      assert entries == init + [entries[|entries| - 1]];
    }
  }

  /** Filtering keeps the relative order: it distributes over concatenation. */
  lemma {:induction false} FilledAppend(a: seq<string>, b: seq<string>)
    ensures Filled(a + b) == Filled(a) + Filled(b)
    decreases |b|
  {
    if b == [] {
      assert a + b == a;
    } else {
      var init := b[..|b| - 1];
      FilledAppend(a, init);
      assert (a + b)[..|a + b| - 1] == a + init;
    }
  }

  /** A list without empty entries is kept whole. */
  lemma {:induction false} FilledAll(entries: seq<string>)
    requires forall k :: 0 <= k < |entries| ==> !EmptyString(entries[k])
    ensures Filled(entries) == entries
    decreases |entries|
  {
    if entries != [] {
      FilledAll(entries[..|entries| - 1]);
    }
  }

  /** Filtering never adds entries. */
  lemma {:induction false} FilledLength(entries: seq<string>)
    ensures |Filled(entries)| <= |entries|
    decreases |entries|
  {
    if entries != [] {
      FilledLength(entries[..|entries| - 1]);
    }
  }
}
