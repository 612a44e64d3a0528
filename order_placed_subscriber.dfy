/**
 * OrderPlacedSubscriber: the listener of the checkout's order-placed event.
 * When its enabled flag is set and the event carries an order entity, it
 * extracts the order's data and hands it to SmsService; every exception
 * raised on the way is caught and logged.
 *
 * The subscriber is a function of its inputs: the configuration, the event's
 * order (None when it is not an order entity) and the exception the service
 * call raises, if any. Its result records the service calls it made and the
 * exception it caught. Logging is left out.
 */
module OrderPlacedSubscriber {
  import opened Optional
  import opened Strings
  import opened SystemConfig
  import opened SmsService

  /** The subscriber's own enabled flag; its key differs from the one SmsService reads. */
  const SubscriberEnabledKey := "AdminSmsOrderNotificationFree.config.enabled"

  /** The order customer's names. */
  datatype Customer = Customer(firstName: string, lastName: string)

  /** The order's currency. */
  datatype Currency = Currency(symbol: string)

  /**
   * The parts of an order entity the subscriber reads; formattedTotal is the
   * total as number_format($amountTotal, 2) prints it.
   */
  datatype Order = Order(
    orderNumber: Option<string>,
    formattedTotal: string,
    customer: Option<Customer>,
    currency: Option<Currency>)

  /** The customer name of an order: 'Unknown Customer' without a customer, else the trimmed full name. */
  function CustomerName(customer: Option<Customer>): (name: string)
    ensures customer.None? ==> name == "Unknown Customer"
    ensures customer.Some? ==> NoSurroundingSpace(name) && |name| <= |customer.value.firstName| + 1 + |customer.value.lastName|
  {
    match customer
    case None => "Unknown Customer"
    case Some(c) => Trim(c.firstName + " " + c.lastName)
  }

  /** extractOrderData: the array handed to SmsService; every key is set except a missing order number. */
  function ExtractOrderData(order: Order): (data: OrderData)
    ensures data.orderNumber == order.orderNumber
    ensures data.amountTotal == Some(order.formattedTotal)
    ensures data.customerName == Some(CustomerName(order.customer))
    ensures data.currency == Some(if order.currency.Some? then order.currency.value.symbol else "")
  {
    var customerName := CustomerName(order.customer);
    var currency := if order.currency.Some? then order.currency.value.symbol else "";
    OrderData(order.orderNumber, Some(order.formattedTotal), Some(customerName), Some(currency))
  }

  /** What one call of onOrderPlaced did: the service calls it made and the exception it caught. */
  datatype Handling = Handling(serviceCalls: seq<OrderData>, caught: Option<string>)

  /**
   * onOrderPlaced: the enabled guard, the order-entity guard, the single
   * service call, and the catch around all of it. `serviceError` is the
   * message of the exception sendOrderNotification raises, if it raises one.
   */
  function OnOrderPlaced(config: Reader, order: Option<Order>, serviceError: Option<string>): (h: Handling)
    ensures |h.serviceCalls| <= 1
    ensures |h.serviceCalls| == 1 <==> Truthy(config(SubscriberEnabledKey, None)) && order.Some?
    ensures h.serviceCalls == [] ==> h.caught == None
    ensures h.serviceCalls != [] ==> h.serviceCalls[0] == ExtractOrderData(order.value) && h.caught == serviceError
  {
    var isEnabled := config(SubscriberEnabledKey, None);
    if !Truthy(isEnabled) then Handling([], None)
    else if order.None? then Handling([], None)
    else Handling([ExtractOrderData(order.value)], serviceError)
  }

  /** A first and a last name without surrounding whitespace are joined by one space. */
  lemma FullName(firstName: string, lastName: string)
    requires firstName != [] && lastName != []
    requires NoSurroundingSpace(firstName) && NoSurroundingSpace(lastName)
    ensures CustomerName(Some(Customer(firstName, lastName))) == firstName + " " + lastName
  {
    var s := firstName + " " + lastName;
    assert s[0] == firstName[0] && s[|s| - 1] == lastName[|lastName| - 1];
    TrimUnchanged(s);
  }

  /** A missing last name leaves no trailing space: the name is the first name alone. */
  lemma FirstNameOnly(firstName: string)
    requires NoSurroundingSpace(firstName)
    ensures CustomerName(Some(Customer(firstName, ""))) == firstName
  {
    var s := firstName + " " + "";
    assert s == firstName + " ";
    assert TrimStart(s) == s || firstName == [];
    assert TrimEnd(TrimStart(s)) == firstName;
  }

  /** An order customer with two empty names gives an empty name, not 'Unknown Customer'. */
  lemma EmptyNames()
    ensures CustomerName(Some(Customer("", ""))) == ""
  {
    assert "" + " " + "" == " ";
    assert TrimStart(" ") == "";
  }

  /**
   * Of the service's fallbacks, only the order number's can apply to data
   * the subscriber extracted: the message's values are the order's own.
   */
  lemma ExtractedReplacements(order: Order)
    ensures Replacements(ExtractOrderData(order))
         == [ (OrderNumberTag, order.orderNumber.GetOr("N/A")),
              (AmountTotalTag, order.formattedTotal),
              (CustomerNameTag, CustomerName(order.customer)),
              (CurrencyTag, if order.currency.Some? then order.currency.value.symbol else "") ]
  {
  }

  /**
   * End to end: an enabled subscriber passes an order to the service, and
   * with an empty template setting and no '{' in the order's texts the
   * message the service builds is the default sentence about that order.
   * Whether it is sent still depends on the service's own guards.
   */
  lemma NotificationText(config: Reader, order: Order, serviceError: Option<string>)
    requires Truthy(config(SubscriberEnabledKey, None))
    requires Empty(Setting(config, TemplateKey))
    requires '{' !in order.orderNumber.GetOr("N/A") && '{' !in order.formattedTotal
    requires '{' !in CustomerName(order.customer)
    requires order.currency.Some? ==> '{' !in order.currency.value.symbol
    ensures var h := OnOrderPlaced(config, Some(order), serviceError);
            && |h.serviceCalls| == 1
            && BuildSmsMessage(Setting(config, TemplateKey), h.serviceCalls[0])
               == "New order #" + order.orderNumber.GetOr("N/A")
                + " placed with total amount " + order.formattedTotal
                + " " + (if order.currency.Some? then order.currency.value.symbol else "")
                + " by " + CustomerName(order.customer) + "."
  {
    var data := ExtractOrderData(order);
    assert BraceFree(data);
    DefaultTemplateSentence(Setting(config, TemplateKey), data);
  }
}
