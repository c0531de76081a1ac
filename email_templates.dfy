/**
  The data shaping of the shared e-mail templates (utils/email_templates.py):
  the field defaults of the four templates, the shipping address block, the
  product label, the item rows of both order e-mails, and the two contact
  e-mails.

  An order arrives as nested dictionaries; here each dictionary is a
  datatype whose fields are `None` when the key is absent, so that `.get(key,
  default)` is `GetOr(default)`. The static HTML and CSS between the fields
  are opaque constants. `format_currency` is not modelled: the templates take
  the function that renders an amount as a parameter, `currency`.
 */
module EmailTemplates {
  import opened Wrappers
  import opened PyText
  import opened TagStrip
  import opened ContactTemplates

  // ---------------------------------------------------------------------------
  // Order data
  // ---------------------------------------------------------------------------

  datatype Address = Address(
    street: Option<string>,
    apartment: Option<string>,
    city: Option<string>,
    state: Option<string>,
    zip: Option<string>,
    country: Option<string>)

  datatype Customer = Customer(
    name: Option<string>,
    email: Option<string>,
    phone: Option<string>,
    shippingAddress: Option<Address>)

  datatype Item = Item(
    productType: Option<string>,
    size: Option<string>,
    quantity: Option<int>,
    totalPrice: Option<real>,
    artworkUrl: Option<string>,
    artworkS3Url: Option<string>,
    instructions: Option<string>)

  datatype Order = Order(
    orderId: Option<string>,
    orderDate: Option<string>,
    customerInfo: Option<Customer>,
    items: Option<seq<Item>>,
    subtotal: Option<real>,
    shipping: Option<real>,
    total: Option<real>)

  /** The empty dictionaries `.get(key, {})` falls back to. */
  const NoAddress := Address(None, None, None, None, None, None)
  const NoCustomer := Customer(None, None, None, None)

  const NotAvailable := "N/A"
  const ValuedCustomer := "Valued Customer"
  const NotProvided := "Not provided"
  const Usa := "USA"
  const Free := "FREE"
  const NoInstructions := "None"

  function CustomerOf(o: Order): Customer { o.customerInfo.GetOr(NoCustomer) }
  function ItemsOf(o: Order): seq<Item> { o.items.GetOr([]) }
  function Amount(x: Option<real>): real { x.GetOr(0.0) }
  function OrderId(o: Order): string { o.orderId.GetOr(NotAvailable) }

  // ---------------------------------------------------------------------------
  // Product label (lines 169 and 312)
  // ---------------------------------------------------------------------------

  /** `productType.replace('_', ' ').title()`. */
  function ProductLabel(productType: string): string {
    Title(Replace(productType, "_", " "))
  }

  /** The label has the product type's length; each '_' became a space and no '_' is left; other non-letters are kept. */
  lemma ProductLabelShape(productType: string)
    ensures var l := ProductLabel(productType);
      && |l| == |productType|
      && (forall k :: 0 <= k < |l| ==> l[k] != '_')
      && (forall k :: 0 <= k < |l| && productType[k] == '_' ==> l[k] == ' ')
      && (forall k :: 0 <= k < |l| && !IsAsciiLetter(productType[k]) && productType[k] != '_' ==> l[k] == productType[k])
  {
    ReplaceCharByChar(productType, '_', ' ');
  }

  /** A label is its own label. */
  lemma ProductLabelIdempotent(productType: string)
    ensures ProductLabel(ProductLabel(productType)) == ProductLabel(productType)
  {
    var l := ProductLabel(productType);
    ProductLabelShape(productType);
    ReplaceAbsent(l, "_", " ");
    TitleIdempotent(Replace(productType, "_", " "));
  }

  /** Each word of a product type, between underscores, is capitalised on its own. */
  lemma ProductLabelWords(first: string, rest: string)
    requires forall k :: 0 <= k < |first| ==> first[k] != '_'
    ensures ProductLabel(first + "_" + rest) == Title(first) + " " + ProductLabel(rest)
  {
    ReplacePlainPrefix(first, "_" + rest, "_", " ");
    ReplaceAtStart("_", rest, " ");
    assert first + "_" + rest == first + ("_" + rest);
    assert first + (" " + Replace(rest, "_", " ")) == first + " " + Replace(rest, "_", " ");
    TitleAfterSpace(first, Replace(rest, "_", " "), false);
  }

  /** "die_cut" is labelled "Die Cut". */
  lemma DieCutLabel()
    ensures ProductLabel("die_cut") == "Die Cut"
  {
    ProductLabelWords("die", "cut");
    DieCutSpelled();
    CutLabel();
    TitleDie();
  }

  lemma DieCutSpelled()
    ensures "die" + "_" + "cut" == "die_cut" && "Die" + " " + "Cut" == "Die Cut"
  {
  }

  lemma TitleDie()
    ensures Title("die") == "Die"
  {
    assert "die"[1..] == "ie" && "ie"[1..] == "e" && "e"[1..] == "";
  }

  lemma CutLabel()
    ensures ProductLabel("cut") == "Cut"
  {
    ReplaceAbsent("cut", "_", " ");
    assert "cut"[1..] == "ut" && "ut"[1..] == "t" && "t"[1..] == "";
  }

  // ---------------------------------------------------------------------------
  // Shipping address (lines 302-307)
  // ---------------------------------------------------------------------------

  /** `f"{city}, {state} {zip}"`. */
  function CityLine(a: Address): (line: string)
    ensures |line| >= 3
  {
    a.city.GetOr("") + ", " + a.state.GetOr("") + " " + a.zip.GetOr("")
  }

  /** Whether the apartment is truthy, that is present and not empty. */
  predicate HasApartment(a: Address) {
    a.apartment.Some? && a.apartment.value != []
  }

  /** The address lines before filtering: street, the apartment when truthy, the city line, the country (default "USA"). */
  function AddressLines(a: Address): (lines: seq<string>)
    ensures |lines| == (if HasApartment(a) then 4 else 3)
    ensures lines[0] == a.street.GetOr("")
    ensures HasApartment(a) ==> lines[1] == a.apartment.value
    ensures lines[|lines| - 2] == CityLine(a) && lines[|lines| - 1] == a.country.GetOr(Usa)
  {
    [a.street.GetOr("")]
      + (if HasApartment(a) then [a.apartment.value] else [])
      + [CityLine(a), a.country.GetOr(Usa)]
  }

  /** `filter(None, lines)`: the non-empty lines, in order. */
  function NonEmpty(lines: seq<string>): (r: seq<string>)
    ensures |r| <= |lines|
    ensures forall k :: 0 <= k < |r| ==> r[k] != []
    ensures forall x :: x in r <==> x in lines && x != []
    ensures (forall k :: 0 <= k < |lines| ==> lines[k] != []) ==> r == lines
  {
    if lines == [] then []
    else if lines[0] == [] then NonEmpty(lines[1..])
    else [lines[0]] + NonEmpty(lines[1..])
  }

  /** Filtering keeps the order: it works line by line over concatenation. */
  lemma {:induction false} NonEmptyConcat(a: seq<string>, b: seq<string>)
    ensures NonEmpty(a + b) == NonEmpty(a) + NonEmpty(b)
  {
    if a == [] {
      assert a + b == b;
    } else {
      assert (a + b)[0] == a[0];
      assert (a + b)[1..] == a[1..] + b;
      NonEmptyConcat(a[1..], b);
    }
  }

  /** A single line is kept exactly when it is non-empty. */
  lemma NonEmptyLine(x: string)
    ensures NonEmpty([x]) == if x == [] then [] else [x]
  {
    assert [x][1..] == [];
  }

  /** The address block: the address lines built up one `append` at a time, empty ones dropped, joined with `<br>`. */
  method AddressHtml(a: Address) returns (html: string)
    ensures html == Join(NonEmpty(AddressLines(a)), BreakTag)
  {
    var lines := [a.street.GetOr("")];
    if HasApartment(a) {
      lines := lines + [a.apartment.value];
    }
    lines := lines + [CityLine(a)];
    lines := lines + [a.country.GetOr(Usa)];
    assert lines == AddressLines(a);
    html := Join(NonEmpty(lines), BreakTag);
  }

  /** A full address shows every line in order. */
  lemma FullAddress(a: Address)
    requires a.street.GetOr("") != [] && HasApartment(a) && a.country.GetOr(Usa) != []
    ensures Join(NonEmpty(AddressLines(a)), BreakTag) ==
      a.street.GetOr("") + BreakTag + a.apartment.value + BreakTag + CityLine(a) + BreakTag + a.country.GetOr(Usa)
  {
    var lines := AddressLines(a);
    assert forall k :: 0 <= k < |lines| ==> lines[k] != [];
    assert Join(lines[3..], BreakTag) == lines[3];
    assert Join(lines[2..], BreakTag) == lines[2] + BreakTag + lines[3] by {
      assert lines[2..][1..] == lines[3..];
    }
    assert Join(lines[1..], BreakTag) == lines[1] + BreakTag + Join(lines[2..], BreakTag) by {
      assert lines[1..][1..] == lines[2..];
    }
  }

  /** An address without street and apartment is the city line and the country; the country "USA" stands in when its key is missing. */
  lemma StreetlessAddress(a: Address)
    requires a.street.GetOr("") == [] && !HasApartment(a)
    ensures Join(NonEmpty(AddressLines(a)), BreakTag) ==
      if a.country.GetOr(Usa) == [] then CityLine(a) else CityLine(a) + BreakTag + a.country.GetOr(Usa)
    ensures a.country.None? ==> Join(NonEmpty(AddressLines(a)), BreakTag) == CityLine(a) + BreakTag + Usa
  {
    var lines := AddressLines(a);
    var city, country := lines[1], lines[2];
    assert lines[1..] == [city, country];
    assert NonEmpty(lines) == NonEmpty([city, country]);
    assert [city, country][1..] == [country] && [country][1..] == [];
    assert NonEmpty([city, country]) == [city] + NonEmpty([country]);
  }

  /** An empty or missing apartment gives the same address. */
  lemma EmptyApartmentDropped(a: Address)
    ensures AddressLines(a.(apartment := Some(""))) == AddressLines(a.(apartment := None))
  {
  }

  // ---------------------------------------------------------------------------
  // Item rows of the customer confirmation (lines 167-183)
  // ---------------------------------------------------------------------------

  const CustomerRowHead: string
  const CustomerRowAfterLabel: string
  const CustomerRowAfterSize: string
  const CustomerRowAfterQuantity: string
  const CustomerRowTail: string

  function Quantity(item: Item): string { IntText(item.quantity.GetOr(0)) }

  /** One row: the product label, the size, the quantity and the rendered price. */
  function CustomerRow(item: Item, currency: real -> string): string {
    Concat([CustomerRowHead, ProductLabel(item.productType.GetOr("")), CustomerRowAfterLabel,
            item.size.GetOr(""), CustomerRowAfterSize, Quantity(item),
            CustomerRowAfterQuantity, currency(Amount(item.totalPrice)), CustomerRowTail])
  }

  /** The rows of items, one per item, in list order. */
  function CustomerRows(items: seq<Item>, currency: real -> string): (rows: seq<string>)
    ensures |rows| == |items|
  {
    seq(|items|, k requires 0 <= k < |items| => CustomerRow(items[k], currency))
  }

  /** The loop of lines 167-183: `items_html` grows by one row per item. */
  method CustomerItemsHtml(items: seq<Item>, currency: real -> string) returns (html: string)
    ensures html == Concat(CustomerRows(items, currency))
  {
    html := "";
    var i := 0;
    while i < |items|
      invariant 0 <= i <= |items|
      invariant html == Concat(CustomerRows(items[..i], currency))
    {
      var row := CustomerRow(items[i], currency);
      assert CustomerRows(items[..i + 1], currency) == CustomerRows(items[..i], currency) + [row];
      ConcatSnoc(CustomerRows(items[..i], currency), row);
      html := html + row;
      i := i + 1;
    }
    assert items[..i] == items;
  }

  /** A customer row shows the label, the size and the quantity (0 when missing). */
  lemma CustomerRowShows(item: Item, currency: real -> string)
    ensures var row := CustomerRow(item, currency);
      && Contains(row, ProductLabel(item.productType.GetOr("")))
      && Contains(row, item.size.GetOr(""))
      && Contains(row, Quantity(item))
  {
    var parts := [CustomerRowHead, ProductLabel(item.productType.GetOr("")), CustomerRowAfterLabel,
                  item.size.GetOr(""), CustomerRowAfterSize, Quantity(item),
                  CustomerRowAfterQuantity, currency(Amount(item.totalPrice)), CustomerRowTail];
    ConcatContains(parts, 1);
    ConcatContains(parts, 3);
    ConcatContains(parts, 5);
  }

  // ---------------------------------------------------------------------------
  // Customer confirmation (lines 141-280)
  // ---------------------------------------------------------------------------

  const ConfirmHead: string
  const ConfirmAfterTitle: string
  const ConfirmAfterName: string
  const ConfirmAfterId: string
  const ConfirmAfterDate: string
  const ConfirmAfterItems: string
  const ConfirmAfterSubtotal: string
  const ConfirmAfterShipping: string
  const ConfirmAfterTotal: string
  const ConfirmTail: string

  /** The name greeted: the customer's, or "Valued Customer" when either dictionary lacks it. */
  function GreetedName(o: Order): string { CustomerOf(o).name.GetOr(ValuedCustomer) }

  /** `order.get('orderDate', '')[:10]`: the date part of an ISO timestamp. */
  function ShownDate(o: Order): (d: string)
    ensures d <= o.orderDate.GetOr("")
    ensures |d| == if |o.orderDate.GetOr("")| < 10 then |o.orderDate.GetOr("")| else 10
  {
    Prefix(o.orderDate.GetOr(""), 10)
  }

  /** The shipping cell: the rendered amount when positive, otherwise "FREE". */
  function ShippingText(shipping: real, currency: real -> string): (t: string)
    ensures shipping <= 0.0 ==> t == Free
    ensures shipping > 0.0 ==> t == currency(shipping)
  {
    if shipping > 0.0 then currency(shipping) else Free
  }

  /** Title, greeting, order id and date. */
  function ConfirmIntro(o: Order): string {
    Concat([ConfirmHead, OrderId(o), ConfirmAfterTitle, GreetedName(o), ConfirmAfterName,
            OrderId(o), ConfirmAfterId, ShownDate(o), ConfirmAfterDate])
  }

  /** The end of the item table, subtotal, shipping, total, and the closing line naming the order. */
  function ConfirmTotals(o: Order, currency: real -> string): string {
    Concat([ConfirmAfterItems, currency(Amount(o.subtotal)), ConfirmAfterSubtotal,
            ShippingText(Amount(o.shipping), currency), ConfirmAfterShipping,
            currency(Amount(o.total)), ConfirmAfterTotal, OrderId(o), ConfirmTail])
  }

  /** The confirmation for order o with the item rows itemsHtml. */
  function Confirmation(o: Order, itemsHtml: string, currency: real -> string): string {
    Concat([ConfirmIntro(o), itemsHtml, ConfirmTotals(o, currency)])
  }

  /** `get_customer_confirmation_html(order)`. */
  method CustomerConfirmationHtml(o: Order, currency: real -> string) returns (html: string)
    ensures html == Confirmation(o, Concat(CustomerRows(ItemsOf(o), currency)), currency)
  {
    var itemsHtml := CustomerItemsHtml(ItemsOf(o), currency);
    html := Confirmation(o, itemsHtml, currency);
  }

  /** The confirmation shows the order id, the greeted name, the date and the shipping cell. */
  lemma ConfirmationShows(o: Order, itemsHtml: string, currency: real -> string)
    ensures var html := Confirmation(o, itemsHtml, currency);
      && Contains(html, OrderId(o)) && Contains(html, GreetedName(o)) && Contains(html, ShownDate(o))
      && Contains(html, ShippingText(Amount(o.shipping), currency))
  {
    var intro := [ConfirmHead, OrderId(o), ConfirmAfterTitle, GreetedName(o), ConfirmAfterName,
                  OrderId(o), ConfirmAfterId, ShownDate(o), ConfirmAfterDate];
    ConcatContains(intro, 1);
    ConcatContains(intro, 3);
    ConcatContains(intro, 7);
    var totals := [ConfirmAfterItems, currency(Amount(o.subtotal)), ConfirmAfterSubtotal,
                   ShippingText(Amount(o.shipping), currency), ConfirmAfterShipping,
                   currency(Amount(o.total)), ConfirmAfterTotal, OrderId(o), ConfirmTail];
    ConcatContains(totals, 3);
    var sections := [ConfirmIntro(o), itemsHtml, ConfirmTotals(o, currency)];
    PartContains(sections, 0, OrderId(o));
    PartContains(sections, 0, GreetedName(o));
    PartContains(sections, 0, ShownDate(o));
    PartContains(sections, 2, ShippingText(Amount(o.shipping), currency));
  }

  /** The confirmation holds the row of every item. */
  lemma ConfirmationShowsRows(o: Order, currency: real -> string, k: nat)
    requires k < |ItemsOf(o)|
    ensures Contains(Confirmation(o, Concat(CustomerRows(ItemsOf(o), currency)), currency),
                     CustomerRow(ItemsOf(o)[k], currency))
  {
    var rows := CustomerRows(ItemsOf(o), currency);
    ConcatContains(rows, k);
    var sections := [ConfirmIntro(o), Concat(rows), ConfirmTotals(o, currency)];
    PartContains(sections, 1, rows[k]);
  }

  /** An order with nothing in it: id "N/A", greeting "Valued Customer", empty date, no rows, free shipping. */
  lemma EmptyOrderDefaults(currency: real -> string)
    ensures var o := Order(None, None, None, None, None, None, None);
      && OrderId(o) == NotAvailable && GreetedName(o) == ValuedCustomer && ShownDate(o) == ""
      && CustomerRows(ItemsOf(o), currency) == []
      && ShippingText(Amount(o.shipping), currency) == Free
  {
  }

  // ---------------------------------------------------------------------------
  // Item rows of the staff order notification (lines 310-335)
  // ---------------------------------------------------------------------------

  const StaffRowHead: string
  const StaffRowAfterNumber: string
  const StaffRowAfterLabel: string
  const StaffRowAfterSize: string
  const StaffRowAfterQuantity: string
  const StaffRowAfterPrice: string
  const StaffRowAfterUrl: string
  const StaffRowTail: string

  /** `item.get('artworkUrl', item.get('artworkS3Url', ''))`: the S3 URL stands in only when the key is missing. */
  function ArtworkUrl(item: Item): (url: string)
    ensures item.artworkUrl.Some? ==> url == item.artworkUrl.value
    ensures item.artworkUrl.None? ==> url == item.artworkS3Url.GetOr("")
  {
    item.artworkUrl.GetOr(item.artworkS3Url.GetOr(""))
  }

  /** `item.get('instructions', '') or 'None'`: "None" when missing or empty. */
  function Instructions(item: Item): (text: string)
    ensures text != []
    ensures item.instructions.GetOr("") == [] ==> text == NoInstructions
    ensures item.instructions.Some? && item.instructions.value != [] ==> text == item.instructions.value
  {
    var given := item.instructions.GetOr("");
    if given == [] then NoInstructions else given
  }

  /** The number, label and size cells. */
  function StaffRowCells(n: nat, item: Item): string {
    Concat([StaffRowHead, NatText(n), StaffRowAfterNumber,
            ProductLabel(item.productType.GetOr("")), StaffRowAfterLabel, item.size.GetOr("")])
  }

  /** The quantity, price and artwork cells, and the instructions row. */
  function StaffRowRest(item: Item, currency: real -> string): string {
    Concat([StaffRowAfterSize, Quantity(item), StaffRowAfterQuantity, currency(Amount(item.totalPrice)),
            StaffRowAfterPrice, ArtworkUrl(item), StaffRowAfterUrl, Instructions(item), StaffRowTail])
  }

  /** Row number n for item. */
  function StaffRow(n: nat, item: Item, currency: real -> string): string {
    StaffRowCells(n, item) + StaffRowRest(item, currency)
  }

  /** The rows of items, numbered from 1 in list order. */
  function StaffRows(items: seq<Item>, currency: real -> string): (rows: seq<string>)
    ensures |rows| == |items|
  {
    seq(|items|, k requires 0 <= k < |items| => StaffRow(k + 1, items[k], currency))
  }

  /** The loop of lines 310-335, `enumerate(items, 1)`. */
  method StaffItemsHtml(items: seq<Item>, currency: real -> string) returns (html: string)
    ensures html == Concat(StaffRows(items, currency))
  {
    html := "";
    var i := 0;
    while i < |items|
      invariant 0 <= i <= |items|
      invariant html == Concat(StaffRows(items[..i], currency))
    {
      var n := i + 1;
      var row := StaffRow(n, items[i], currency);
      assert StaffRows(items[..i + 1], currency) == StaffRows(items[..i], currency) + [row];
      ConcatSnoc(StaffRows(items[..i], currency), row);
      html := html + row;
      i := i + 1;
    }
    assert items[..i] == items;
  }

  /** Row number n shows n, the label, the artwork link and the instructions. */
  lemma StaffRowShows(n: nat, item: Item, currency: real -> string)
    ensures var row := StaffRow(n, item, currency);
      && Contains(row, NatText(n))
      && Contains(row, ProductLabel(item.productType.GetOr("")))
      && Contains(row, ArtworkUrl(item))
      && Contains(row, Instructions(item))
  {
    var cells := [StaffRowHead, NatText(n), StaffRowAfterNumber,
                  ProductLabel(item.productType.GetOr("")), StaffRowAfterLabel, item.size.GetOr("")];
    ConcatContains(cells, 1);
    ConcatContains(cells, 3);
    var rest := [StaffRowAfterSize, Quantity(item), StaffRowAfterQuantity, currency(Amount(item.totalPrice)),
                 StaffRowAfterPrice, ArtworkUrl(item), StaffRowAfterUrl, Instructions(item), StaffRowTail];
    ConcatContains(rest, 5);
    ConcatContains(rest, 7);
    var both := [StaffRowCells(n, item), StaffRowRest(item, currency)];
    assert Concat(both) == StaffRow(n, item, currency) by {
      assert both[1..] == [both[1]] && both[1..][1..] == [];
      assert Concat(both[1..]) == both[1];
    }
    PartContains(both, 0, NatText(n));
    PartContains(both, 0, ProductLabel(item.productType.GetOr("")));
    PartContains(both, 1, ArtworkUrl(item));
    PartContains(both, 1, Instructions(item));
  }

  /** The k-th item's row carries the number k + 1, and it comes after the rows of the items before it. */
  lemma StaffRowsNumbered(items: seq<Item>, currency: real -> string, k: nat)
    requires k < |items|
    ensures var rows := StaffRows(items, currency);
      && Contains(rows[k], NatText(k + 1))
      && Concat(rows) == Concat(rows[..k]) + rows[k] + Concat(rows[k + 1..])
  {
    var rows := StaffRows(items, currency);
    StaffRowShows(k + 1, items[k], currency);
    assert rows == rows[..k] + [rows[k]] + rows[k + 1..];
    ConcatAppend(rows[..k] + [rows[k]], rows[k + 1..]);
    ConcatSnoc(rows[..k], rows[k]);
  }

  // ---------------------------------------------------------------------------
  // Staff order notification (lines 283-440)
  // ---------------------------------------------------------------------------

  const OrderHead: string
  const OrderAfterTitle: string
  const OrderAfterId: string
  const OrderAfterDate: string
  const OrderAfterTotal: string
  const OrderAfterName: string
  const OrderAfterEmailHref: string
  const OrderAfterEmail: string
  const OrderAfterPhone: string
  const OrderAfterAddress: string
  const OrderAfterItems: string
  const OrderTail: string

  /** Title, order id, date (in full) and total. */
  function OrderIntro(o: Order, currency: real -> string): string {
    Concat([OrderHead, OrderId(o), OrderAfterTitle, OrderId(o), OrderAfterId,
            o.orderDate.GetOr(""), OrderAfterDate, currency(Amount(o.total)), OrderAfterTotal])
  }

  /** The customer block: name ("N/A"), an e-mail link whose address defaults to "" and whose text defaults to "N/A", and the phone ("Not provided"). */
  function OrderCustomer(c: Customer): string {
    Concat([c.name.GetOr(NotAvailable), OrderAfterName, MailTo + c.email.GetOr(""), OrderAfterEmailHref,
            c.email.GetOr(NotAvailable), OrderAfterEmail, c.phone.GetOr(NotProvided), OrderAfterPhone])
  }

  /** The notification for o with the address block addressHtml and the item rows itemsHtml. */
  function StaffOrder(o: Order, addressHtml: string, itemsHtml: string, currency: real -> string): string {
    Concat([OrderIntro(o, currency), OrderCustomer(CustomerOf(o)), addressHtml, OrderAfterAddress,
            itemsHtml, OrderAfterItems, currency(Amount(o.total)), OrderTail])
  }

  /** The shipping address of o, `{}` when either dictionary lacks it. */
  function ShippingAddress(o: Order): Address { CustomerOf(o).shippingAddress.GetOr(NoAddress) }

  /** `get_staff_notification_html(order)`. */
  method StaffOrderHtml(o: Order, currency: real -> string) returns (html: string)
    ensures html == StaffOrder(o, Join(NonEmpty(AddressLines(ShippingAddress(o))), BreakTag),
                               Concat(StaffRows(ItemsOf(o), currency)), currency)
  {
    var addressHtml := AddressHtml(ShippingAddress(o));
    var itemsHtml := StaffItemsHtml(ItemsOf(o), currency);
    html := StaffOrder(o, addressHtml, itemsHtml, currency);
  }

  /** The notification shows the order id, the date, the customer's name, phone and address, and every numbered row. */
  lemma StaffOrderShows(o: Order, currency: real -> string)
    ensures var address := Join(NonEmpty(AddressLines(ShippingAddress(o))), BreakTag);
      var rows := StaffRows(ItemsOf(o), currency);
      var html := StaffOrder(o, address, Concat(rows), currency);
      && Contains(html, OrderId(o)) && Contains(html, o.orderDate.GetOr(""))
      && Contains(html, CustomerOf(o).name.GetOr(NotAvailable))
      && Contains(html, CustomerOf(o).phone.GetOr(NotProvided))
      && Contains(html, address)
      && (forall k :: 0 <= k < |rows| ==> Contains(html, rows[k]))
  {
    var address := Join(NonEmpty(AddressLines(ShippingAddress(o))), BreakTag);
    var rows := StaffRows(ItemsOf(o), currency);
    var c := CustomerOf(o);
    var intro := [OrderHead, OrderId(o), OrderAfterTitle, OrderId(o), OrderAfterId,
                  o.orderDate.GetOr(""), OrderAfterDate, currency(Amount(o.total)), OrderAfterTotal];
    ConcatContains(intro, 1);
    ConcatContains(intro, 5);
    var customer := [c.name.GetOr(NotAvailable), OrderAfterName, MailTo + c.email.GetOr(""), OrderAfterEmailHref,
                     c.email.GetOr(NotAvailable), OrderAfterEmail, c.phone.GetOr(NotProvided), OrderAfterPhone];
    ConcatContains(customer, 0);
    ConcatContains(customer, 6);
    var sections := [OrderIntro(o, currency), OrderCustomer(c), address, OrderAfterAddress,
                     Concat(rows), OrderAfterItems, currency(Amount(o.total)), OrderTail];
    PartContains(sections, 0, OrderId(o));
    PartContains(sections, 0, o.orderDate.GetOr(""));
    PartContains(sections, 1, c.name.GetOr(NotAvailable));
    PartContains(sections, 1, c.phone.GetOr(NotProvided));
    ConcatContains(sections, 2);
    forall k | 0 <= k < |rows| ensures Contains(Concat(sections), rows[k]) {
      ConcatContains(rows, k);
      PartContains(sections, 4, rows[k]);
    }
  }

  // ---------------------------------------------------------------------------
  // Contact auto-reply (lines 443-522)
  // ---------------------------------------------------------------------------

  const AutoReplyHead: string
  const AutoReplyAfterName: string
  const AutoReplyAfterSubject: string
  const AutoReplyTail: string

  /** `get_contact_auto_reply_html(contact)`: name (default "Customer"), subject (default "General Inquiry"), message. */
  function ContactAutoReplyHtml(contact: Contact): string {
    Concat([AutoReplyHead, DictGet(contact, "name", CustomerName), AutoReplyAfterName,
            DictGet(contact, "subject", GeneralInquiry), AutoReplyAfterSubject,
            DictGet(contact, "message", ""), AutoReplyTail])
  }

  /** The auto-reply shows the name, the subject and the message, each defaulted only when its key is missing. */
  lemma ContactAutoReplyShows(contact: Contact)
    ensures var html := ContactAutoReplyHtml(contact);
      && Contains(html, if "name" in contact then contact["name"] else CustomerName)
      && Contains(html, if "subject" in contact then contact["subject"] else GeneralInquiry)
      && Contains(html, if "message" in contact then contact["message"] else "")
  {
    var parts := [AutoReplyHead, DictGet(contact, "name", CustomerName), AutoReplyAfterName,
                  DictGet(contact, "subject", GeneralInquiry), AutoReplyAfterSubject,
                  DictGet(contact, "message", ""), AutoReplyTail];
    ConcatContains(parts, 1);
    ConcatContains(parts, 3);
    ConcatContains(parts, 5);
  }

  // ---------------------------------------------------------------------------
  // Contact notification (lines 525-616)
  // ---------------------------------------------------------------------------

  const NoticeHead: string
  const NoticeAfterTimestamp: string
  const NoticeAfterId: string
  const NoticeAfterName: string
  const NoticeAfterEmailHref: string
  const NoticeAfterEmail: string
  const NoticeAfterSubject: string
  const NoticeAfterMessage: string
  const NoticeAfterReplyHref: string
  const NoticeTail: string

  const Unknown := "Unknown"
  const NoSubjectTitle := "No Subject"
  const ReplyTo := "Reply to "

  /** The fields of lines 541-546, each defaulted only when its key is missing. */
  datatype Notice = Notice(contactId: string, name: string, email: string, subject: string, message: string, timestamp: string)

  function NoticeOf(contact: Contact): (n: Notice)
    ensures "name" in contact ==> n.name == contact["name"]
    ensures "name" !in contact ==> n.name == Unknown
    ensures "email" in contact ==> n.email == contact["email"]
    ensures "email" !in contact ==> n.email == Unknown
    ensures "subject" in contact ==> n.subject == contact["subject"]
    ensures "subject" !in contact ==> n.subject == NoSubjectTitle
    ensures "contactId" in contact ==> n.contactId == contact["contactId"]
    ensures "contactId" !in contact ==> n.contactId == NotAvailable
    ensures "message" in contact ==> n.message == contact["message"]
    ensures "message" !in contact ==> n.message == ""
    ensures "timestamp" in contact ==> n.timestamp == contact["timestamp"]
    ensures "timestamp" !in contact ==> n.timestamp == ""
  {
    Notice(DictGet(contact, "contactId", NotAvailable), DictGet(contact, "name", Unknown),
           DictGet(contact, "email", Unknown), DictGet(contact, "subject", NoSubjectTitle),
           DictGet(contact, "message", ""), DictGet(contact, "timestamp", ""))
  }

  /** Received time and contact id. */
  function NoticeInfo(n: Notice): string {
    Concat([NoticeHead, n.timestamp, NoticeAfterTimestamp, n.contactId, NoticeAfterId])
  }

  /** Name, the e-mail as a `mailto:` link, and the subject. */
  function NoticeTable(n: Notice): string {
    Concat([n.name, NoticeAfterName, MailTo + n.email, NoticeAfterEmailHref, n.email, NoticeAfterEmail,
            n.subject, NoticeAfterSubject])
  }

  /** The message and the quick-reply button. */
  function NoticeReply(n: Notice): string {
    Concat([n.message, NoticeAfterMessage, ReplyLink(n.email, n.subject), NoticeAfterReplyHref,
            ReplyTo + n.name, NoticeTail])
  }

  /** `get_contact_notification_html(contact)`. */
  function ContactNotificationHtml(contact: Contact): string {
    var n := NoticeOf(contact);
    Concat([NoticeInfo(n), NoticeTable(n), NoticeReply(n)])
  }

  /** The notification shows every field verbatim and holds the quick-reply link `mailto:{email}?subject=Re: {subject}` and "Reply to {name}". */
  lemma ContactNotificationShows(contact: Contact)
    ensures var n := NoticeOf(contact); var html := ContactNotificationHtml(contact);
      && Contains(html, n.contactId) && Contains(html, n.timestamp)
      && Contains(html, n.name) && Contains(html, n.email)
      && Contains(html, n.subject) && Contains(html, n.message)
      && Contains(html, ReplyLink(n.email, n.subject))
      && Contains(html, ReplyTo + n.name)
  {
    var n := NoticeOf(contact);
    var info := [NoticeHead, n.timestamp, NoticeAfterTimestamp, n.contactId, NoticeAfterId];
    ConcatContains(info, 1);
    ConcatContains(info, 3);
    var table := [n.name, NoticeAfterName, MailTo + n.email, NoticeAfterEmailHref, n.email, NoticeAfterEmail,
                  n.subject, NoticeAfterSubject];
    ConcatContains(table, 0);
    ConcatContains(table, 4);
    ConcatContains(table, 6);
    var reply := [n.message, NoticeAfterMessage, ReplyLink(n.email, n.subject), NoticeAfterReplyHref,
                  ReplyTo + n.name, NoticeTail];
    ConcatContains(reply, 0);
    ConcatContains(reply, 2);
    ConcatContains(reply, 4);
    var sections := [NoticeInfo(n), NoticeTable(n), NoticeReply(n)];
    PartContains(sections, 0, n.contactId);
    PartContains(sections, 0, n.timestamp);
    PartContains(sections, 1, n.name);
    PartContains(sections, 1, n.email);
    PartContains(sections, 1, n.subject);
    PartContains(sections, 2, n.message);
    PartContains(sections, 2, ReplyLink(n.email, n.subject));
    PartContains(sections, 2, ReplyTo + n.name);
  }
}
