# Admin SMS order notification — a verified model

This project models the core of the Shopware plugin
`vhdev-ua/admin-sms-order-notification-free`, which texts the shop's
administrators when an order is placed:

- **SmsService** (`sms_service.dfy`) — `sendOrderNotification`: the guard
  sequence over the plugin settings (enabled flag, then Twilio SID, auth token
  and sender number, then the admin phone-number list), the message text built
  from the configured or default template by PHP `str_replace`, and the send
  loop over the recipients, which skips blank entries and carries on past a
  `TwilioException`.
- **TwilioValidationController** (`validation_controller.dfy`) — the admin
  action `validateTwilioCredentials`: the 400/401/500/200 decision sequence,
  the number lookup that always accepts, the test SMS to every admin number
  and the classification of each send on a 2xx status.
- **OrderPlacedSubscriber** (`order_placed_subscriber.dfy`) — `onOrderPlaced`:
  its enabled and order-entity guards, the single service call and the catch
  around it, and `extractOrderData` with its customer-name and currency
  defaults.
- **The validate button** of the administration (`validate_button.dfy`) —
  `translateMessage`, which maps backend messages to translation keys by
  first matching substring or builds the success text, and the computed
  `salesChannelId`, which walks at most 20 ancestor components.

Shared pieces: `option.dfy` (absent values), `strings.dfy` (PHP `trim`,
`explode`, `str_replace` with arrays, JavaScript `includes`, decimal text of
a count) and `system_config.dfy` (setting values with PHP's `empty()`
semantics — null, false, `""` and `"0"` are empty — the settings reader, the
setting keys, and the phone-list parsing both PHP classes share).

Every outbound call is an input: a Twilio SDK send is an outcome supplied per
attempt (`provider(n)` for the n-th send), an HTTP request's outcome is a
reply (status and decoded body), a transport error or another exception, and
the settings service is a function from key and optional sales channel to a
value. The model records what the code does with them: the settings read, the
sends attempted, the requests issued, the JSON reply, the service calls the
subscriber makes.

Behaviour of the code worth knowing:

- The subscriber reads its enabled flag globally (no sales channel) and
  under the key prefix `AdminSmsOrderNotificationFree`, while the service
  reads `VhdevAdminSmsOrderNotificationFree`. The two are distinct keys.
- The validation controller reads every setting for the request's sales
  channel, while the service reads every setting globally. With a
  channel-specific phone list, SID, token or sender, validation therefore
  tests other numbers and credentials than the order notifications use.
- Only a `TwilioException` from one recipient is isolated. Any other
  exception ends the send loop and leaves `sendOrderNotification`; the
  subscriber catches it.
- The subscriber catches `\Exception` only; the model's caught value is the
  exception raised by the service call.
- The button's pattern "Invalid credentials" is not a substring of the
  backend's 401 text "Invalid Twilio credentials", so that reply is shown
  untranslated (`ValidateButton.InvalidCredentialsUntranslated`).

## Model

| member | source | states |
|---|---|---|
| Strings.Trim | src/Service/SmsService.php:55 | trim() leaves no whitespace (space, tab, LF, CR, NUL, vertical tab) at either end |
| Strings.TrimIdempotent | src/Service/SmsService.php:55 | trimming a trimmed number again changes nothing |
| Strings.Explode | src/Service/SmsService.php:117 | explode gives at least one piece, no piece holds the separator, and joining the pieces gives back the input |
| Strings.ExplodeImplode | src/Service/SmsService.php:117 | exploding the join of separator-free pieces gives back those pieces |
| Strings.StrReplaceAbsent | src/Service/SmsService.php:135 | str_replace leaves a subject containing none of the search strings unchanged |
| Strings.DecimalString | src/Controller/TwilioValidationController.php:148 | the interpolated count is a digit string without leading zero whose value is the count |
| SystemConfig.PhoneListShape | src/Service/SmsService.php:109-118 | the list is empty exactly when the setting is empty; otherwise one entry per comma-separated piece, in order, each the trimmed piece, trimmed and comma-free, and the pieces re-join to the setting |
| SystemConfig.FilledMembers | src/Service/SmsService.php:55-58 | an entry survives the `empty()` skip exactly when it is present and neither "" nor "0" |
| SystemConfig.FilledAppend | src/Service/SmsService.php:54-58 | skipping empty entries keeps the order: it distributes over concatenation |
| SystemConfig.FilledLength | src/Service/SmsService.php:54-58 | skipping never adds entries |
| SmsService.EmptyTemplateUsesDefault | src/Service/SmsService.php:122-126 | an empty template setting (null, false, "" or "0") formats exactly like the default template |
| SmsService.PlaceholderFreeTemplateUnchanged | src/Service/SmsService.php:135 | a template with none of the four placeholders is sent as written |
| SmsService.TemplatePasses | src/Service/SmsService.php:128-135 | over a text shaped like the default template, the four str_replace passes fill each slot with its own value and touch nothing else |
| SmsService.DefaultTemplateSentence | src/Service/SmsService.php:120-136 | with an empty template and values without '{', the message is "New order #n placed with total amount a c by name." with the 'N/A', 'N/A', 'N/A', '' fallbacks |
| SmsService.DefaultTemplateExample | src/Service/SmsService.php:120-136 | order 1001 of Jane Doe over 49.99 $ gives "New order #1001 placed with total amount 49.99 $ by Jane Doe." |
| SmsService.LaterTagReplacedAgain | src/Service/SmsService.php:128-135 | the pairs apply one after another: an order number spelling the currency placeholder is replaced again, by the currency |
| SmsService.EarlierTagNotReplacedAgain | src/Service/SmsService.php:128-135 | a currency spelling the order-number placeholder is not searched again: it stays in the message as written |
| SmsService.RecipientsMembers | src/Service/SmsService.php:54-58 | a number is attempted exactly when it is the trimmed form of some entry and not empty; every attempted number is trimmed |
| SmsService.RecipientsAppend | src/Service/SmsService.php:54-58 | the recipients of a concatenated list are those of each part, in order |
| SmsService.SendsExtend | src/Service/SmsService.php:60-79 | a send that fails with a TwilioException extends the run to the next recipient like a delivered one |
| SmsService.SendsRaise | src/Service/SmsService.php:51-85 | a send raising any other exception ends the run there and passes the exception on, whatever recipients follow |
| SmsService.TwilioFailuresDoNotStop | src/Service/SmsService.php:73-79 | when no send raises anything but a TwilioException, every recipient is attempted and nothing is raised |
| SmsService.SendToAll | src/Service/SmsService.php:54-80 | attempts go to exactly the non-empty trimmed numbers, in list order, all with the same sender and body, the n-th getting the n-th outcome; the loop stops only at the first non-Twilio exception, which it raises |
| SmsService.SendOrderNotification | src/Service/SmsService.php:23-86 | falsy enabled flag: only that flag is read and nothing is sent; an empty SID, token or sender: nothing sent; empty phone setting: nothing sent; client construction failing: nothing sent; otherwise the send loop over the parsed numbers with the configured sender and the built message; any send implies every guard passed |
| TwilioValidation.ValidatePhoneNumber | src/Controller/TwilioValidationController.php:189-229 | every outcome of the number lookup, including an exception, accepts the number |
| TwilioValidation.SendTestSms | src/Controller/TwilioValidationController.php:253-301 | success exactly on a reply with 200 <= status < 300, carrying sid and status; otherwise the reply's message or 'Unknown error', 'Transport error: ' plus the text, or the exception's text |
| TwilioValidation.SuccessCount | src/Controller/TwilioValidationController.php:146 | the success count is at most the number of results, equals it exactly when all succeeded and is 0 exactly when none did |
| TwilioValidation.SuccessCountCounts2xx | src/Controller/TwilioValidationController.php:146 | the success count is the number of test sends whose reply had a 2xx status |
| TwilioValidation.SendTestMessages | src/Controller/TwilioValidationController.php:135-143 | one result and one message-create request per non-empty entry, in order, each request with the fixed test text |
| TwilioValidation.ReportValid | src/Controller/TwilioValidationController.php:127-157 | the 200 reply: the account's name and status, one test result per target in order, testSmsSent exactly when there was a target, and the " Test SMS sent to s/t numbers" suffix only then |
| TwilioValidation.ValidateTwilioCredentials | src/Controller/TwilioValidationController.php:33-187 | empty SID or token: 400 with the "not configured" text and no request; empty sender: 400 "From Number is not configured", no request; transport error: 500 "Failed to connect to Twilio API: " + text; other exception: 500 "Validation failed: " + text; non-200 account reply: 401 "Invalid Twilio credentials"; 200: account then number lookup then the test sends; valid exactly when status 200; a 400 is only ever a missing-setting reply |
| TwilioValidation.TestTargetsAreRecipients | src/Controller/TwilioValidationController.php:129-143 | for the same phone-list setting value, the test SMS go to the same numbers, in the same order, as the order notifications of the service would |
| OrderPlacedSubscriber.CustomerName | src/Subscriber/OrderPlacedSubscriber.php:77-82 | 'Unknown Customer' without an order customer, else a name with no surrounding whitespace no longer than first + ' ' + last |
| OrderPlacedSubscriber.FullName | src/Subscriber/OrderPlacedSubscriber.php:81 | non-empty trimmed first and last names are joined by one space |
| OrderPlacedSubscriber.FirstNameOnly | src/Subscriber/OrderPlacedSubscriber.php:81 | an empty last name leaves no trailing space |
| OrderPlacedSubscriber.EmptyNames | src/Subscriber/OrderPlacedSubscriber.php:80-81 | a customer with two empty names yields "", not 'Unknown Customer' |
| OrderPlacedSubscriber.ExtractOrderData | src/Subscriber/OrderPlacedSubscriber.php:75-92 | the order number as the order has it, the formatted total, the customer name, and the currency symbol or '' |
| OrderPlacedSubscriber.ExtractedReplacements | src/Subscriber/OrderPlacedSubscriber.php:86-91 | of the service's fallbacks only the order number's can apply to extracted data |
| OrderPlacedSubscriber.OnOrderPlaced | src/Subscriber/OrderPlacedSubscriber.php:40-73 | at most one service call; one exactly when the flag is truthy and the event carries an order entity, with that order's data; an exception is caught only from that call, and none escapes |
| OrderPlacedSubscriber.NotificationText | src/Subscriber/OrderPlacedSubscriber.php:64-65 | end to end: an enabled subscriber makes one service call whose message, with an empty template setting and order texts without '{', is the default sentence about the order; whether it is sent depends on the service's own guards (its own enabled key, credentials and phone list) |
| ValidateButton.Candidate | src/Resources/app/administration/src/component/vhdev-twilio-validate-button/index.js:33-43 | an ancestor offers its currentSalesChannelId before its salesChannelId, only a non-empty string other than 'null' |
| ValidateButton.SalesChannelId | src/Resources/app/administration/src/component/vhdev-twilio-validate-button/index.js:26-50 | the first value offered by the nearest of at most 20 ancestors; null exactly when none of those offers one |
| ValidateButton.FirstMatchFrom | src/Resources/app/administration/src/component/vhdev-twilio-validate-button/index.js:65-69 | the first pattern in declaration order that the message contains, and none when no pattern is contained |
| ValidateButton.CountSuccess | src/Resources/app/administration/src/component/vhdev-twilio-validate-button/index.js:76-77 | successCount is at most totalCount, equal exactly when every entry succeeded |
| ValidateButton.TranslateMessage | src/Resources/app/administration/src/component/vhdev-twilio-validate-button/index.js:54-94 | the first matching pattern's translation; else for a valid result the credentialsValid text, then the testSmsSent text only with testSmsSent and results, then " (name)" only with a non-empty account name; else the backend message unchanged |
| ValidateButton.AbsentMessageMatchesNothing | src/Resources/app/administration/src/component/vhdev-twilio-validate-button/index.js:66 | a null or empty message matches no pattern |
| ValidateButton.MissingCredentialsTranslated | src/Resources/app/administration/src/component/vhdev-twilio-validate-button/index.js:57 | the backend's missing SID/token text is translated by the first pattern |
| ValidateButton.MissingFromTranslated | src/Resources/app/administration/src/component/vhdev-twilio-validate-button/index.js:58 | the backend's missing-sender text is translated by the second pattern, not the first |
| ValidateButton.ConnectionFailureTranslated | src/Resources/app/administration/src/component/vhdev-twilio-validate-button/index.js:61 | a "Failed to connect to Twilio API: " reply is always translated |
| ValidateButton.InvalidCredentialsUntranslated | src/Resources/app/administration/src/component/vhdev-twilio-validate-button/index.js:60 | the backend's "Invalid Twilio credentials" contains no pattern, so it is shown as it came |
| ValidateButton.FromReply | src/Resources/app/administration/src/component/vhdev-twilio-validate-button/index.js:146-150 | the button sees the reply's valid flag; with details, its testSmsSent flag, its account name and, for each test result k, whether entry k was sent; without details, no flags, no account name and testSmsSent false |
| ValidateButton.FlagsCountAsEntries | src/Resources/app/administration/src/component/vhdev-twilio-validate-button/index.js:76 | success flags that mirror the entries' outcomes count exactly the backend's successful entries |
| ValidateButton.CountsAgree | src/Resources/app/administration/src/component/vhdev-twilio-validate-button/index.js:76 | for any reply with details, the count the button shows equals the backend's success count |

## Left out

- The Twilio SDK client and Symfony's HTTP client: each call's outcome is an input, so retries, timeouts and the URLs and query strings of the requests are not modelled.
- All logger calls: they have no effect on the results.
- JSON encoding and decoding: the request body is reduced to its salesChannelId, replies and decoded bodies are records.
- `number_format` of the order total: the subscriber's total is an opaque, already formatted string.
- The JavaScript `validateCredentials` method (fetch, bearer-token lookup, local storage, notifications) and the `$tc` translations, which are uninterpreted inputs.
- Event and route registration, service wiring, and the mismatch between the subscriber's import of the service class and the namespace the service declares.
- The settings service's storage and channel inheritance: it is an arbitrary function of key and channel.
- SystemConfig.Text: a setting that is not a string is converted as PHP's string cast would; under `strict_types` such a value would raise a TypeError at trim, explode, `str_replace` on a non-string template (src/Service/SmsService.php:135) or the client, and in the controller at the typed parameters of `validatePhoneNumber` (src/Controller/TwilioValidationController.php:111, 189) and `sendTestSms` (:137, 231); a TypeError is an `Error`, which the `catch (\Exception)` at :176 does not stop. None of this is modelled.
- OrderPlacedSubscriber.OnOrderPlaced: configuration and entity getters are assumed not to throw, and PHP `Error`s (which `catch (\Exception)` does not catch) are not modelled.
- SmsService.SendOrderNotification: only a TwilioException from the client constructor is an input; any other exception raised there is not modelled.
- Strings.Trim: PHP's trim works on bytes; the model works on characters.
- The component tree of the button is a finite list of ancestors, nearest first.
