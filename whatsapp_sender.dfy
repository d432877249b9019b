/**
 * The CRM's WhatsApp sender: a message template with the `{nome}` and
 * `{estabelecimento}` placeholders, filled in per customer, sent through a
 * `wa.me` link to every customer with a usable phone number.
 */
module WhatsAppSender {
  import opened Wrappers
  import opened Strings
  import WhatsApp

  /** A CRM customer, as far as the sender reads it. */
  datatype Customer = Customer(id: string, name: string, phone: string)

  const NamePlaceholder: string := "{nome}"
  const PlacePlaceholder: string := "{estabelecimento}"
  const DefaultPlace: string := "nosso estabelecimento"

  // ---------------------------------------------------------------------------
  // Templates
  // ---------------------------------------------------------------------------

  /** `insertVariable`: the placeholder is appended after a space. */
  function InsertVariable(prev: string, variable: string): (r: string)
    ensures |r| == |prev| + |variable| + 3 && r[..|prev|] == prev
    ensures r[|prev|..] == " {" + variable + "}"
  {
    prev + " {" + variable + "}"
  }

  /** `name.split(' ')[0] || ''`: the customer's first word. */
  function FirstName(name: string): (r: string)
    ensures r == Split(name, ' ')[0]
  {
    Before(name, ' ')
  }

  /** `userSettings?.app_name || 'nosso estabelecimento'`. */
  function PlaceName(appName: Option<string>): (r: string)
    ensures r != []
  {
    if appName.Some? && appName.value != [] then appName.value else DefaultPlace
  }

  /** `getParsedMessage`: every name placeholder, then every place placeholder, replaced. */
  function ParsedMessage(msg: string, customer: Customer, appName: Option<string>): (r: string)
    ensures !Contains(msg, NamePlaceholder) && !Contains(msg, PlacePlaceholder) ==> r == msg
  {
    ReplaceAllAbsent(msg, NamePlaceholder, FirstName(customer.name));
    ReplaceAllAbsent(msg, PlacePlaceholder, PlaceName(appName));
    var named := ReplaceAll(msg, NamePlaceholder, FirstName(customer.name));
    ReplaceAll(named, PlacePlaceholder, PlaceName(appName))
  }

  /**
   * The first name is the longest start of the name without a space: the
   * whole name, or everything before its first space.
   */
  lemma {:induction false} FirstNameIsFirstWord(name: string)
    ensures var r := FirstName(name);
      StartsWith(name, r) && ' ' !in r && (r == name || (|r| < |name| && name[|r|] == ' '))
    decreases |name|
  {
    if name != [] && name[0] != ' ' {
      FirstNameIsFirstWord(name[1..]);
    }
  }

  /** A message written as text pieces and placeholders. */
  datatype Piece = Text(text: string) | Name | Place

  /** The pieces written out, with `nameText` for each name and `placeText` for each place. */
  function Render(ps: seq<Piece>, nameText: string, placeText: string): string
    decreases |ps|
  {
    if ps == [] then []
    else
      (match ps[0]
       case Text(t) => t
       case Name => nameText
       case Place => placeText)
      + Render(ps[1..], nameText, placeText)
  }

  /** The message the editor shows for a template. */
  function Template(ps: seq<Piece>): string
  {
    Render(ps, NamePlaceholder, PlacePlaceholder)
  }

  /** Text pieces with no opening brace, so that no placeholder can be read into them. */
  predicate PlainTexts(ps: seq<Piece>)
  {
    forall k :: 0 <= k < |ps| ==> ps[k].Text? ==> '{' !in ps[k].text
  }

  lemma {:induction false} RenderAppend(a: seq<Piece>, b: seq<Piece>, nameText: string, placeText: string)
    ensures Render(a + b, nameText, placeText) == Render(a, nameText, placeText) + Render(b, nameText, placeText)
    decreases |a|
  {
    if a != [] {
      assert (a + b)[1..] == a[1..] + b;
      RenderAppend(a[1..], b, nameText, placeText);
    } else {
      assert a + b == b;
    }
  }

  /** The placeholder a button inserts, and the variable name it inserts it by. */
  function Placeholder(v: Piece): string
  {
    if v.Name? then NamePlaceholder else PlacePlaceholder
  }

  function VariableName(v: Piece): string
  {
    if v.Name? then "nome" else "estabelecimento"
  }

  lemma PlaceholderSpelling(v: Piece)
    ensures " {" + VariableName(v) + "}" == " " + Placeholder(v)
  {
    if v.Name? {
      assert " {" + "nome" + "}" == " {nome}";
    } else {
      assert " {" + "estabelecimento" + "}" == " {estabelecimento}";
    }
  }

  /** Inserting a placeholder keeps the message a template, one text and one placeholder longer. */
  lemma InsertKeepsTemplate(ps: seq<Piece>, v: Piece)
    requires !v.Text?
    ensures InsertVariable(Template(ps), VariableName(v)) == Template(ps + [Text(" "), v])
    ensures PlainTexts(ps) ==> PlainTexts(ps + [Text(" "), v])
  {
    RenderInserted(v);
    RenderAppend(ps, [Text(" "), v], NamePlaceholder, PlacePlaceholder);
    PlaceholderSpelling(v);
    PlainTextsInserted(ps, v);
  }

  /** The inserted pieces render as a space and the placeholder. */
  lemma RenderInserted(v: Piece)
    requires !v.Text?
    ensures Render([Text(" "), v], NamePlaceholder, PlacePlaceholder) == " " + Placeholder(v)
  {
    var tail := [Text(" "), v];
    assert tail[1..] == [v];
    assert [v][1..] == [];
    assert Render([v], NamePlaceholder, PlacePlaceholder) == Placeholder(v) + [];
  }

  lemma PlainTextsInserted(ps: seq<Piece>, v: Piece)
    requires !v.Text?
    ensures PlainTexts(ps) ==> PlainTexts(ps + [Text(" "), v])
  {
    if PlainTexts(ps) {
      var qs := ps + [Text(" "), v];
      forall k | 0 <= k < |qs| && qs[k].Text? ensures '{' !in qs[k].text {
        if k < |ps| {
          assert qs[k] == ps[k];
        }
      }
    }
  }

  /** Nothing is replaced inside a text without an opening brace. */
  lemma {:induction false} ReplaceSkipsPlain(t: string, rest: string, p: string, rep: string)
    requires |p| > 0 && p[0] == '{' && '{' !in t
    ensures ReplaceAll(t + rest, p, rep) == t + ReplaceAll(rest, p, rep)
    decreases |t|
  {
    if t != [] {
      assert (t + rest)[0] == t[0];
      assert !StartsWith(t + rest, p);
      assert (t + rest)[1..] == t[1..] + rest;
      ReplaceSkipsPlain(t[1..], rest, p, rep);
    } else {
      assert t + rest == rest;
    }
  }

  /** A placeholder is replaced where it stands. */
  lemma ReplaceAtPlaceholder(rest: string, p: string, rep: string)
    requires |p| > 0
    ensures ReplaceAll(p + rest, p, rep) == rep + ReplaceAll(rest, p, rep)
  {
    assert StartsWith(p + rest, p);
    assert (p + rest)[|p|..] == rest;
  }

  /** The other placeholder is carried over untouched. */
  lemma ReplaceSkipsOther(q: string, rest: string, p: string, rep: string)
    requires |p| >= 2 && |q| >= 2 && p[0] == '{' && q[0] == '{' && p[1] != q[1] && '{' !in q[1..]
    ensures ReplaceAll(q + rest, p, rep) == q + ReplaceAll(rest, p, rep)
  {
    var s := q + rest;
    assert s[1] == q[1];
    assert !StartsWith(s, p);
    assert s[1..] == q[1..] + rest;
    ReplaceSkipsPlain(q[1..], rest, p, rep);
    assert q == [q[0]] + q[1..];
  }

  lemma PlaceholderShapes()
    ensures |NamePlaceholder| >= 2 && NamePlaceholder[0] == '{' && '{' !in NamePlaceholder[1..]
    ensures |PlacePlaceholder| >= 2 && PlacePlaceholder[0] == '{' && '{' !in PlacePlaceholder[1..]
    ensures NamePlaceholder[1] != PlacePlaceholder[1]
  {
    assert NamePlaceholder[1..] == "nome}";
    assert PlacePlaceholder[1..] == "estabelecimento}";
  }

  /** The first pass puts the name in place of every name placeholder and leaves the place placeholders. */
  lemma {:induction false} NamePass(ps: seq<Piece>, nameText: string)
    requires PlainTexts(ps)
    ensures ReplaceAll(Template(ps), NamePlaceholder, nameText) == Render(ps, nameText, PlacePlaceholder)
    decreases |ps|
  {
    if ps != [] {
      PlaceholderShapes();
      var rest := Template(ps[1..]);
      assert PlainTexts(ps[1..]) by {
        forall k | 0 <= k < |ps[1..]| && ps[1..][k].Text? ensures '{' !in ps[1..][k].text {
          assert ps[1..][k] == ps[k + 1];
        }
      }
      NamePass(ps[1..], nameText);
      match ps[0]
      case Text(t) =>
        ReplaceSkipsPlain(t, rest, NamePlaceholder, nameText);
      case Name =>
        ReplaceAtPlaceholder(rest, NamePlaceholder, nameText);
      case Place =>
        ReplaceSkipsOther(PlacePlaceholder, rest, NamePlaceholder, nameText);
    }
  }

  /** The second pass puts the place name in place of every place placeholder. */
  lemma {:induction false} PlacePass(ps: seq<Piece>, nameText: string, placeText: string)
    requires PlainTexts(ps) && '{' !in nameText
    ensures ReplaceAll(Render(ps, nameText, PlacePlaceholder), PlacePlaceholder, placeText)
      == Render(ps, nameText, placeText)
    decreases |ps|
  {
    if ps != [] {
      PlaceholderShapes();
      var rest := Render(ps[1..], nameText, PlacePlaceholder);
      assert PlainTexts(ps[1..]) by {
        forall k | 0 <= k < |ps[1..]| && ps[1..][k].Text? ensures '{' !in ps[1..][k].text {
          assert ps[1..][k] == ps[k + 1];
        }
      }
      PlacePass(ps[1..], nameText, placeText);
      match ps[0]
      case Text(t) =>
        ReplaceSkipsPlain(t, rest, PlacePlaceholder, placeText);
      case Name =>
        ReplaceSkipsPlain(nameText, rest, PlacePlaceholder, placeText);
      case Place =>
        ReplaceAtPlaceholder(rest, PlacePlaceholder, placeText);
    }
  }

  /**
   * Every name placeholder of a template becomes the customer's first name
   * and every place placeholder the app's name (or the default), and
   * nothing else changes, as long as neither the texts nor the first name
   * hold an opening brace.
   */
  lemma ParsedTemplate(ps: seq<Piece>, customer: Customer, appName: Option<string>)
    requires PlainTexts(ps) && '{' !in FirstName(customer.name)
    ensures ParsedMessage(Template(ps), customer, appName)
      == Render(ps, FirstName(customer.name), PlaceName(appName))
  {
    NamePass(ps, FirstName(customer.name));
    PlacePass(ps, FirstName(customer.name), PlaceName(appName));
  }

  const Greeting: string := "Olá "
  const Missed: string := "! Tudo bem? Sentimos sua falta aqui no "
  const Offer: string := ". Temos um cupom especial para você!"

  /** The message the sender opens with, spelled out around its two placeholders. */
  const DefaultMessage: string := Greeting + NamePlaceholder + Missed + PlacePlaceholder + Offer

  /** The opening message as a template. */
  function DefaultPieces(): seq<Piece>
  {
    [Text(Greeting), Name, Text(Missed), Place, Text(Offer)]
  }

  /**
   * The opening message greets the customer by first name and names the
   * business, or "nosso estabelecimento" when the business has no name.
   */
  lemma DefaultMessageParsed(customer: Customer, appName: Option<string>)
    requires '{' !in FirstName(customer.name)
    ensures ParsedMessage(DefaultMessage, customer, appName)
      == Greeting + FirstName(customer.name) + Missed + PlaceName(appName) + Offer
  {
    var ps := DefaultPieces();
    assert Template(ps) == DefaultMessage by {
      RenderUnfold(Greeting, Missed, Offer, NamePlaceholder, PlacePlaceholder);
    }
    DefaultTextsPlain();
    ParsedTemplate(ps, customer, appName);
    RenderUnfold(Greeting, Missed, Offer, FirstName(customer.name), PlaceName(appName));
  }

  lemma RenderUnfold(a: string, b: string, c: string, nameText: string, placeText: string)
    ensures Render([Text(a), Name, Text(b), Place, Text(c)], nameText, placeText)
      == a + nameText + b + placeText + c
  {
    var ps := [Text(a), Name, Text(b), Place, Text(c)];
    assert ps[4..][1..] == [] && ps[3..][1..] == ps[4..] && ps[2..][1..] == ps[3..] && ps[1..][1..] == ps[2..];
    assert Render(ps[4..], nameText, placeText) == c + [];
    assert Render(ps[3..], nameText, placeText) == placeText + c;
    assert Render(ps[2..], nameText, placeText) == b + placeText + c;
    assert Render(ps[1..], nameText, placeText) == nameText + b + placeText + c;
  }

  lemma DefaultTextsPlain()
    ensures PlainTexts(DefaultPieces())
  {
    GreetingPlain();
    MissedPlain();
    OfferPlain();
  }

  // None of the fixed texts has a brace, one text at a time.
  lemma GreetingPlain()
    ensures '{' !in Greeting
  {
  }

  lemma MissedPlain()
    ensures '{' !in Missed
  {
  }

  lemma OfferPlain()
    ensures '{' !in Offer
  {
  }

  // ---------------------------------------------------------------------------
  // Recipients and links
  // ---------------------------------------------------------------------------

  /** A phone that is set and has at least ten digits. */
  predicate HasUsablePhone(c: Customer)
  {
    c.phone != [] && |Digits(c.phone)| >= 10
  }

  /** `validRecipients`: the selected customers with a usable phone, in order. */
  function ValidRecipients(rs: seq<Customer>): (r: seq<Customer>)
    ensures forall c :: c in r <==> c in rs && HasUsablePhone(c)
    ensures |r| <= |rs|
  {
    if rs == [] then []
    else (if HasUsablePhone(rs[0]) then [rs[0]] else []) + ValidRecipients(rs[1..])
  }
  /** Filtering works piece by piece: the recipients kept keep the selection order. */
  lemma {:induction false} ValidRecipientsConcat(a: seq<Customer>, b: seq<Customer>)
    ensures ValidRecipients(a + b) == ValidRecipients(a) + ValidRecipients(b)
    decreases |a|
  {
    if a == [] {
      assert a + b == b;
    } else {
      assert (a + b)[0] == a[0];
      assert (a + b)[1..] == a[1..] + b;
      ValidRecipientsConcat(a[1..], b);
    }
  }


  /** The number `getWhatsappLink` dials: "55" is added unless the digits start with it or exceed eleven. */
  function LinkNumber(phone: string): (r: string)
    ensures AllDigits(r)
  {
    var clean := Digits(phone);
    DigitsAreDigits(phone);
    if !StartsWith(clean, "55") && |clean| <= 11 then "55" + clean else clean
  }

  /** `getWhatsappLink`; `encode` stands for `encodeURIComponent`. */
  function WhatsappLink(phone: string, text: string, encode: string -> string): (url: string)
    ensures StartsWith(url, WhatsApp.WaPrefix)
    ensures Before(url[|WhatsApp.WaPrefix|..], '?') == LinkNumber(phone)
    ensures EndsWith(url, "?text=" + encode(text))
    ensures |WhatsApp.WaPrefix| + |LinkNumber(phone)| <= |url|
    ensures url[|WhatsApp.WaPrefix| + |LinkNumber(phone)|..] == "?text=" + encode(text)
  {
    var number := LinkNumber(phone);
    var url := WhatsApp.WaPrefix + number + "?text=" + encode(text);
    assert url[|WhatsApp.WaPrefix| + |number|..] == "?text=" + encode(text);
    assert url[..|WhatsApp.WaPrefix|] == WhatsApp.WaPrefix;
    assert url[|WhatsApp.WaPrefix|..] == number + "?" + ("text=" + encode(text));
    assert url[|url| - |"?text=" + encode(text)|..] == "?text=" + encode(text);
    WhatsApp.NoQuestionMark(number);
    WhatsApp.BeforeUpTo(number, "text=" + encode(text), '?');
    url
  }

  /**
   * Every link opened for a valid recipient dials a number that starts with
   * the country code: the phone's digits, with "55" in front unless they
   * already start with it or have more than eleven digits.
   */
  lemma LinkNumberShape(c: Customer)
    requires HasUsablePhone(c)
    ensures var d := Digits(c.phone);
      (StartsWith(d, "55") || |d| > 11 ==> LinkNumber(c.phone) == d)
      && (!StartsWith(d, "55") && |d| <= 11 ==> LinkNumber(c.phone) == "55" + d && |LinkNumber(c.phone)| >= 12)
      && |LinkNumber(c.phone)| >= 10
  {
  }

  /** A number of at most eleven digits always leaves with the country code in front. */
  lemma LinkNumberPrefixedOnce(phone: string)
    ensures var r := LinkNumber(phone); |Digits(phone)| <= 11 ==> StartsWith(r, "55")
  {
    var d := Digits(phone);
    if !StartsWith(d, "55") && |d| <= 11 {
      assert ("55" + d)[..2] == "55";
    }
  }

  /**
   * The sender and the shared link helper agree on 10- and 11-digit
   * numbers that do not start with 55, and on 12- and 13-digit numbers
   * that do.
   */
  lemma SenderAgreesWithHelper(phone: string)
    requires var d := Digits(phone);
      ((|d| == 10 || |d| == 11) && !StartsWith(d, "55")) || ((|d| == 12 || |d| == 13) && StartsWith(d, "55"))
    ensures LinkNumber(phone) == WhatsApp.WhatsAppNumber(phone)
  {
  }

  /**
   * A 10- or 11-digit number whose area code is 55 (Rio Grande do Sul) is
   * taken by the sender as already carrying the country code, so its link
   * dials a number of only 10 or 11 digits, too short for a Brazilian
   * number with its country code; the shared helper adds the country code.
   */
  lemma AreaCode55Dropped(phone: string)
    requires var d := Digits(phone); (|d| == 10 || |d| == 11) && StartsWith(d, "55")
    ensures LinkNumber(phone) == Digits(phone) && |LinkNumber(phone)| <= 11
    ensures WhatsApp.WhatsAppNumber(phone) == "55" + Digits(phone) && |WhatsApp.WhatsAppNumber(phone)| >= 12
  {
  }

  /**
   * The link as evidently intended: the number in the form the shared link
   * helper gives it, which adds the country code to every national number.
   */
  function IntendedLink(phone: string, text: string, encode: string -> string): (url: string)
    ensures StartsWith(url, WhatsApp.WaPrefix)
    ensures Before(url[|WhatsApp.WaPrefix|..], '?') == WhatsApp.WhatsAppNumber(phone)
  {
    WhatsApp.GetWhatsAppUrl(phone, text, encode)
  }

  /**
   * Every recipient the modal accepts gets a link whose number has at least
   * twelve digits, the country code put in front of a national number.
   */
  lemma IntendedLinkFullNumber(c: Customer, text: string, encode: string -> string)
    requires HasUsablePhone(c)
    ensures var n := Before(IntendedLink(c.phone, text, encode)[|WhatsApp.WaPrefix|..], '?');
      |n| >= 12 && ((|Digits(c.phone)| == 10 || |Digits(c.phone)| == 11) ==> n == "55" + Digits(c.phone))
  {
  }

  /** Where the modal's rule is right, the intended link is the modal's link. */
  lemma IntendedLinkAgrees(phone: string, text: string, encode: string -> string)
    requires var d := Digits(phone);
      ((|d| == 10 || |d| == 11) && !StartsWith(d, "55")) || ((|d| == 12 || |d| == 13) && StartsWith(d, "55"))
    ensures IntendedLink(phone, text, encode) == WhatsappLink(phone, text, encode)
  {
    SenderAgreesWithHelper(phone);
  }
}
