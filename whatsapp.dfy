/**
 * Order notifications sent through WhatsApp: the message text for a status
 * change, the `wa.me` link that opens it, and which status changes are
 * worth a notification.
 *
 * `Intl.NumberFormat` currency formatting and `encodeURIComponent` are
 * library behaviour and enter as parameters.
 */
module WhatsApp {
  import opened Wrappers
  import opened Strings

  datatype OrderDetails = OrderDetails(
    orderNumber: int,
    customerName: string,
    customerPhone: string,
    total: real,
    status: string,
    isDelivery: bool,
    customerAddress: Option<string>,
    ratingToken: Option<string>)

  datatype NotificationSettings = NotificationSettings(whatsappNumber: string, appName: string)

  const Clipboard := "\U{1F4CB}"
  const Cook := "\U{1F468}\U{200D}\U{1F373}"
  const CookPan := "\U{1F373}"
  const Check := "\U{2705}"
  const Truck := "\U{1F69A}"
  const Scooter := "\U{1F6F5}"
  const Celebration := "\U{1F389}"
  const Heart := "\U{2764}\U{FE0F}"
  const Cancel := "\U{274C}"
  const Location := "\U{1F4CD}"
  const Store := "\U{1F3EA}"
  const Banknote := "\U{1F4B5}"
  const Wave := "\U{1F44B}"
  const Sparkles := "\U{2728}"
  const Star := "\U{2B50}"
  const Numbers := "\U{1F522}"

  /** One row of the status table: title, body text and emoji. */
  datatype StatusInfo = StatusInfo(title: string, message: string, emoji: string)

  const PendingInfo := StatusInfo("Pedido Recebido", "Seu pedido foi recebido e está aguardando confirmação.", Clipboard)

  /** The status table, with its fallback: an unknown status reads as 'pending'. */
  function StatusInfoFor(status: string): StatusInfo
  {
    if status == "preparing" then StatusInfo("Em Preparo", "Seu pedido está sendo preparado com carinho! " + CookPan, Cook)
    else if status == "ready" then StatusInfo("Pedido Pronto", "Seu pedido está pronto!", Check)
    else if status == "delivering" then StatusInfo("Saiu para Entrega", "Seu pedido saiu para entrega! Em breve estará aí. " + Scooter, Truck)
    else if status == "delivered" then StatusInfo("Pedido Entregue", "Seu pedido foi entregue! Obrigado pela preferência! " + Heart, Celebration)
    else if status == "cancelled" then StatusInfo("Pedido Cancelado", "Infelizmente seu pedido foi cancelado. Entre em contato para mais informações.", Cancel)
    else PendingInfo
  }

  const KnownStatuses: seq<string> := ["pending", "preparing", "ready", "delivering", "delivered", "cancelled"]

  /** JavaScript truthiness of an optional string. */
  predicate Present(s: Option<string>) { s.Some? && s.value != [] }

  /** The pieces a notification is made of, in order. */
  datatype Part =
    | Header(emoji: string, appName: string)
    | Greeting(name: string)
    | StatusTitle(title: string)
    | Separator
    | OrderNumber(n: int)
    | Total(formatted: string)
    | StatusMessage(text: string)
    | Pickup
    | Address(address: string)
    | RatingHeader
    | RatingPrompt
    | RatingLink(baseUrl: string, token: string)

  /** The text of each piece. */
  function Render(p: Part): string
  {
    match p
    case Header(emoji, appName) => emoji + " *" + ToUpper(appName) + "*\n\n"
    case Greeting(name) => "Olá, *" + name + "*! " + Wave + "\n"
    case StatusTitle(title) => "Status do seu pedido: *" + title + "*\n"
    case Separator => "--------------------\n\n"
    case OrderNumber(n) => Numbers + " *PEDIDO #" + IntToString(n) + "*\n"
    case Total(formatted) => Banknote + " *Total:* " + formatted + "\n\n"
    case StatusMessage(text) => text + "\n\n"
    case Pickup => Store + " *RETIRADA:* Já pode vir buscar seu pedido no balcão! Estamos te esperando. " + Sparkles + "\n"
    case Address(address) => Location + " *ENDEREÇO:* " + address + "\n"
    case RatingHeader => Star + " *Gostou? Nos avalie!*\n"
    case RatingPrompt => "Sua opinião é muito importante para nós:\n"
    case RatingLink(baseUrl, token) => baseUrl + "/avaliar/" + token + "\n"
  }

  function RenderAll(parts: seq<Part>): string
  {
    if parts == [] then [] else RenderAll(parts[..|parts| - 1]) + Render(parts[|parts| - 1])
  }

  /** The pieces every notification has. */
  function CoreParts(order: OrderDetails, settings: NotificationSettings, newStatus: string, formatCurrency: real -> string): seq<Part>
  {
    var info := StatusInfoFor(newStatus);
    [Header(info.emoji, settings.appName)] + [Greeting(order.customerName)] + [StatusTitle(info.title)] + [Separator]
    + [OrderNumber(order.orderNumber)] + [Total(formatCurrency(order.total))] + [StatusMessage(info.message)]
  }

  /** The pickup line a ready order for collection gets. */
  function WithPickup(parts: seq<Part>, order: OrderDetails, newStatus: string): seq<Part>
  {
    if newStatus == "ready" && !order.isDelivery then parts + [Pickup] else parts
  }

  /** The address line an order out for delivery gets, when it has an address. */
  function WithAddress(parts: seq<Part>, order: OrderDetails, newStatus: string): seq<Part>
  {
    if newStatus == "delivering" && Present(order.customerAddress) then parts + [Address(order.customerAddress.value)] else parts
  }

  /** The rating request a delivered order gets, when it has a token and the base URL is known. */
  function WithRating(parts: seq<Part>, order: OrderDetails, newStatus: string, baseUrl: Option<string>): seq<Part>
  {
    if newStatus == "delivered" && Present(order.ratingToken) && Present(baseUrl)
    then parts + [Separator] + [RatingHeader] + [RatingPrompt] + [RatingLink(baseUrl.value, order.ratingToken.value)]
    else parts
  }

  /** The pieces of the notification for `newStatus`. */
  function MessageParts(order: OrderDetails, settings: NotificationSettings, newStatus: string,
                        baseUrl: Option<string>, formatCurrency: real -> string): seq<Part>
  {
    WithRating(WithAddress(WithPickup(CoreParts(order, settings, newStatus, formatCurrency), order, newStatus),
                           order, newStatus), order, newStatus, baseUrl)
  }

  /** `generateWhatsAppMessage`: the pieces appended one after the other. */
  method GenerateWhatsAppMessage(order: OrderDetails, settings: NotificationSettings, newStatus: string,
                                 baseUrl: Option<string>, formatCurrency: real -> string) returns (message: string)
    ensures message == RenderAll(MessageParts(order, settings, newStatus, baseUrl, formatCurrency))
  {
    var info := StatusInfoFor(newStatus);
    ghost var parts := [Header(info.emoji, settings.appName)];
    RenderOne(parts[0]);
    message := Render(Header(info.emoji, settings.appName));
    message, parts := Append(message, parts, Greeting(order.customerName));
    message, parts := Append(message, parts, StatusTitle(info.title));
    message, parts := Append(message, parts, Separator);
    message, parts := Append(message, parts, OrderNumber(order.orderNumber));
    message, parts := Append(message, parts, Total(formatCurrency(order.total)));
    message, parts := Append(message, parts, StatusMessage(info.message));
    assert parts == CoreParts(order, settings, newStatus, formatCurrency);
    ghost var core := parts;

    if newStatus == "ready" && !order.isDelivery {
      message, parts := Append(message, parts, Pickup);
    }
    assert parts == WithPickup(core, order, newStatus);
    ghost var withPickup := parts;

    if newStatus == "delivering" && Present(order.customerAddress) {
      message, parts := Append(message, parts, Address(order.customerAddress.value));
    }
    assert parts == WithAddress(withPickup, order, newStatus);
    ghost var withAddress := parts;

    if newStatus == "delivered" && Present(order.ratingToken) && Present(baseUrl) {
      message, parts := Append(message, parts, Separator);
      message, parts := Append(message, parts, RatingHeader);
      message, parts := Append(message, parts, RatingPrompt);
      message, parts := Append(message, parts, RatingLink(baseUrl.value, order.ratingToken.value));
    }
    assert parts == WithRating(withAddress, order, newStatus, baseUrl);
  }

  /** `message += ...` for one piece. */
  method Append(message: string, ghost parts: seq<Part>, p: Part) returns (message': string, ghost parts': seq<Part>)
    requires message == RenderAll(parts)
    ensures parts' == parts + [p] && message' == RenderAll(parts')
  {
    parts' := parts + [p];
    RenderSnoc(parts, p);
    message' := message + Render(p);
  }

  /** Appending a piece appends its text. */
  lemma RenderSnoc(parts: seq<Part>, p: Part)
    ensures RenderAll(parts + [p]) == RenderAll(parts) + Render(p)
  {
    assert (parts + [p])[..|parts|] == parts;
  }

  lemma RenderOne(p: Part)
    ensures RenderAll([p]) == Render(p)
  {
    RenderSnoc([], p);
    assert [] + [p] == [p];
  }

  /** An unknown status reads as 'pending'. */
  lemma UnknownStatusIsPending(status: string)
    requires status !in KnownStatuses
    ensures StatusInfoFor(status) == StatusInfoFor("pending")
  {
  }

  /** The pickup line appears exactly for a ready order that is not delivered. */
  lemma PickupLineIff(order: OrderDetails, settings: NotificationSettings, newStatus: string,
                      baseUrl: Option<string>, formatCurrency: real -> string)
    ensures Pickup in MessageParts(order, settings, newStatus, baseUrl, formatCurrency)
            <==> newStatus == "ready" && !order.isDelivery
  {
    var core := CoreParts(order, settings, newStatus, formatCurrency);
    CoreHasNoOptionalPart(order, settings, newStatus, formatCurrency);
    var p1 := WithPickup(core, order, newStatus);
    var p2 := WithAddress(p1, order, newStatus);
    InWithAddress(Pickup, p1, order, newStatus);
    InWithRating(Pickup, p2, order, newStatus, baseUrl);
  }

  /** The address line appears exactly for a delivering order with an address, and shows that address. */
  lemma AddressLineIff(order: OrderDetails, settings: NotificationSettings, newStatus: string,
                       baseUrl: Option<string>, formatCurrency: real -> string, a: string)
    ensures Address(a) in MessageParts(order, settings, newStatus, baseUrl, formatCurrency)
            <==> newStatus == "delivering" && Present(order.customerAddress) && a == order.customerAddress.value
  {
    var core := CoreParts(order, settings, newStatus, formatCurrency);
    CoreHasNoOptionalPart(order, settings, newStatus, formatCurrency);
    var p1 := WithPickup(core, order, newStatus);
    var p2 := WithAddress(p1, order, newStatus);
    InWithPickup(Address(a), core, order, newStatus);
    InWithAddress(Address(a), p1, order, newStatus);
    InWithRating(Address(a), p2, order, newStatus, baseUrl);
  }

  /** The rating link appears exactly for a delivered order when both the token and the base URL are set. */
  lemma RatingLinkIff(order: OrderDetails, settings: NotificationSettings, newStatus: string,
                      baseUrl: Option<string>, formatCurrency: real -> string, u: string, t: string)
    ensures RatingLink(u, t) in MessageParts(order, settings, newStatus, baseUrl, formatCurrency)
            <==> newStatus == "delivered" && Present(order.ratingToken) && Present(baseUrl)
                 && u == baseUrl.value && t == order.ratingToken.value
  {
    var core := CoreParts(order, settings, newStatus, formatCurrency);
    CoreHasNoOptionalPart(order, settings, newStatus, formatCurrency);
    var p1 := WithPickup(core, order, newStatus);
    var p2 := WithAddress(p1, order, newStatus);
    InWithPickup(RatingLink(u, t), core, order, newStatus);
    InWithAddress(RatingLink(u, t), p1, order, newStatus);
    InWithRating(RatingLink(u, t), p2, order, newStatus, baseUrl);
  }

  /** None of the optional pieces is among the seven every notification has. */
  lemma CoreHasNoOptionalPart(order: OrderDetails, settings: NotificationSettings, newStatus: string, formatCurrency: real -> string)
    ensures forall p :: p in CoreParts(order, settings, newStatus, formatCurrency) ==> !(p.Pickup? || p.Address? || p.RatingLink?)
  {
  }

  lemma InWithPickup(x: Part, parts: seq<Part>, order: OrderDetails, newStatus: string)
    requires !x.Pickup?
    ensures x in WithPickup(parts, order, newStatus) <==> x in parts
  {
  }

  lemma InWithAddress(x: Part, parts: seq<Part>, order: OrderDetails, newStatus: string)
    ensures x in WithAddress(parts, order, newStatus) <==>
      x in parts || (newStatus == "delivering" && Present(order.customerAddress) && x == Address(order.customerAddress.value))
  {
  }

  lemma InWithRating(x: Part, parts: seq<Part>, order: OrderDetails, newStatus: string, baseUrl: Option<string>)
    requires x.Pickup? || x.Address? || x.RatingLink?
    ensures x in WithRating(parts, order, newStatus, baseUrl) <==>
      x in parts || (newStatus == "delivered" && Present(order.ratingToken) && Present(baseUrl)
                     && x == RatingLink(baseUrl.value, order.ratingToken.value))
  {
  }

  // ------------------------------------------------------------------ links

  const WaPrefix := "https://wa.me/"

  /** The number the link dials: the digits, with Brazil's "55" in front of 10- and 11-digit numbers. */
  function WhatsAppNumber(phone: string): (r: string)
    ensures AllDigits(r)
    ensures var d := Digits(phone); (|d| == 10 || |d| == 11) ==> r == "55" + d
    ensures var d := Digits(phone); !(|d| == 10 || |d| == 11) ==> r == d
  {
    var clean := Digits(phone);
    DigitsAreDigits(phone);
    if |clean| == 11 || |clean| == 10 then "55" + clean else clean
  }

  /** `getWhatsAppUrl`. */
  function GetWhatsAppUrl(phone: string, message: string, encode: string -> string): (url: string)
    ensures StartsWith(url, WaPrefix)
    ensures Before(url[|WaPrefix|..], '?') == WhatsAppNumber(phone)
    ensures |WaPrefix| + |WhatsAppNumber(phone)| <= |url|
    ensures url[|WaPrefix| + |WhatsAppNumber(phone)|..] == "?text=" + encode(message)
  {
    var number := WhatsAppNumber(phone);
    var url := WaPrefix + number + "?text=" + encode(message);
    assert url[..|WaPrefix|] == WaPrefix;
    assert url[|WaPrefix| + |number|..] == "?text=" + encode(message);
    assert url[|WaPrefix|..] == number + "?" + ("text=" + encode(message));
    NoQuestionMark(number);
    BeforeUpTo(number, "text=" + encode(message), '?');
    url
  }

  lemma NoQuestionMark(s: string)
    requires AllDigits(s)
    ensures '?' !in s
  {
    forall i | 0 <= i < |s| ensures s[i] != '?' {
      assert IsDigit(s[i]);
    }
  }

  lemma {:induction false} BeforeUpTo(a: string, b: string, c: char)
    requires c !in a
    ensures Before(a + [c] + b, c) == a
    decreases |a|
  {
    if a != [] {
      assert (a + [c] + b)[1..] == a[1..] + [c] + b;
      BeforeUpTo(a[1..], b, c);
    }
  }

  /** The country code is added only once: a number that already carries it (12 or 13 digits) is left alone. */
  lemma NumberIdempotent(phone: string)
    ensures WhatsAppNumber(WhatsAppNumber(phone)) == WhatsAppNumber(phone)
  {
    var r := WhatsAppNumber(phone);
    DigitsOfDigits(r);
  }

  // ------------------------------------------------------------ notifying

  const NotifyStatuses: seq<string> := ["preparing", "ready", "delivering", "delivered", "cancelled"]

  /** `shouldNotifyOnStatusChange`: the old status plays no part. */
  function ShouldNotifyOnStatusChange(oldStatus: string, newStatus: string): (r: bool)
    ensures r ==> newStatus != "pending" && newStatus != ""
    ensures newStatus == "delivered" || newStatus == "cancelled" ==> r
  {
    newStatus in NotifyStatuses
  }

  /** Only the new status matters, and only the five listed ones notify: a new order ('pending') never does. */
  lemma NotifyIgnoresOldStatus(a: string, b: string, newStatus: string)
    ensures ShouldNotifyOnStatusChange(a, newStatus) == ShouldNotifyOnStatusChange(b, newStatus)
    ensures ShouldNotifyOnStatusChange(a, newStatus) <==>
      newStatus == "preparing" || newStatus == "ready" || newStatus == "delivering"
      || newStatus == "delivered" || newStatus == "cancelled"
    ensures !ShouldNotifyOnStatusChange(a, "pending")
  {
  }
}
