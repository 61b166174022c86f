/** Invoice creation `crear_factura` (app.py:233-299): validate the request,
    derive the next number from the invoice with the highest id, turn each
    item whose product exists into a line, and store the invoice with its
    lines and their total in one commit. */
module Invoicing {
  import opened Wrappers
  import opened Records
  import opened Catalog
  import opened Numbering
  import opened Sequences

  /** One element of the request's `productos` list: `producto_id` (absent
      is `None`), and the optional `cantidad` and `precio`. */
  datatype ItemRequest = ItemRequest(productId: Option<int>, quantity: Option<Cell>, price: Option<Cell>)

  /** The request body (app.py:235-240); absent keys are `None`, and an
      absent or null `productos` is the empty list. */
  datatype InvoiceRequest = InvoiceRequest(
    clientId: Option<int>,
    items: seq<ItemRequest>,
    seller: Option<string>,
    delivery: Option<string>,
    paymentTerms: Option<string>)

  datatype InvoiceError =
    | NoClient                          // "Seleccione un cliente" (app.py:243)
    | NoItems                           // "Agregue productos a la factura" (app.py:246)
    | UnreadableNumber(number: string)  // `int` rejects the last number's suffix (app.py:251)
    | DuplicateNumber(number: string)   // the unique constraint on `numero` (app.py:54, 268)
    | MissingProductId                  // `item['producto_id']` raises KeyError (app.py:273)
    | NotANumber(cell: Cell)            // `float` rejects `precio` or `cantidad` (app.py:275-276)

  const DefaultSeller: string := "TITULAR DEL COMERCIO"
  const DefaultPaymentTerms: string := "CONTADO"

  /** A falsy `cliente_id` (app.py:242): absent, null or 0. */
  predicate NoClientGiven(clientId: Option<int>) {
    clientId.None? || clientId.value == 0
  }

  /** `float(item.get(key, default))`: the default when the key is absent,
      otherwise the value, which must be a number. */
  function Amount(c: Option<Cell>, default: real): (r: Result<real, InvoiceError>)
    ensures r.Failure? ==> c.Some? && r.error == NotANumber(c.value)
    ensures c.None? ==> r == Success(default)
    ensures c.Some? ==> (r.Success? <==> c.value.Number?)
    ensures c.Some? && c.value.Number? ==> r == Success(c.value.value)
  {
    match c
    case None => Success(default)
    case Some(Number(v)) => Success(v)
    case Some(other) => Failure(NotANumber(other))
  }

  /** The invoice with the highest id (app.py:249). */
  function Latest(vs: seq<Invoice>): (v: Invoice)
    requires |vs| > 0
    ensures v in vs && forall i :: 0 <= i < |vs| ==> vs[i].id <= v.id
  {
    if |vs| == 1 then vs[0]
    else
      var w := Latest(vs[..|vs| - 1]);
      if vs[|vs| - 1].id <= w.id then w else vs[|vs| - 1]
  }

  /** Position `i` holds an invoice whose id no other invoice exceeds. */
  predicate HighestAt(vs: seq<Invoice>, i: int) {
    0 <= i < |vs| && forall j :: 0 <= j < |vs| ==> vs[j].id <= vs[i].id
  }

  /** The sequence number the next invoice follows (app.py:249-253): 0 with
      no invoices, else the suffix of the latest one; `None` when that
      suffix is not a number. */
  function LastSuffix(vs: seq<Invoice>): (r: Option<nat>)
    ensures |vs| == 0 ==> r == Some(0)
    ensures |vs| > 0 ==> exists i :: HighestAt(vs, i) && r == ParseSuffix(vs[i].number)
  {
    if |vs| == 0 then Some(0) else ParseSuffix(Latest(vs).number)
  }

  /** The numbers already used. */
  function Numbers(vs: seq<Invoice>): set<string> {
    set i | 0 <= i < |vs| :: vs[i].number
  }

  /** An item the loop turns into a line: its product id exists. */
  predicate Resolves(ps: seq<Product>, item: ItemRequest) {
    item.productId.Some? && FindById(ps, item.productId.value).Some?
  }

  /** An item that makes the request fail: no `producto_id`, or an existing
      product with a `precio` or `cantidad` that is not a number. Items whose
      product is unknown are dropped without their amounts being read. */
  predicate BadItem(ps: seq<Product>, item: ItemRequest) {
    || item.productId.None?
    || (Resolves(ps, item)
        && (Amount(item.price, FindById(ps, item.productId.value).value.price1).Failure?
            || Amount(item.quantity, 1.0).Failure?))
  }

  /** The sum of the subtotals of `ls`. */
  function SumSubtotals(ls: seq<InvoiceLine>): real {
    if ls == [] then 0.0 else SumSubtotals(ls[..|ls| - 1]) + ls[|ls| - 1].subtotal
  }

  lemma {:induction false} SumConcat(a: seq<InvoiceLine>, b: seq<InvoiceLine>)
    ensures SumSubtotals(a + b) == SumSubtotals(a) + SumSubtotals(b)
  {
    if b != [] {
      assert (a + b)[..|a + b| - 1] == a + b[..|b| - 1];
      SumConcat(a, b[..|b| - 1]);
    } else {
      assert a + b == a;
    }
  }

  /** The lines built for one request and the running total of the loop. */
  datatype Built = Built(lines: seq<InvoiceLine>, total: real)

  /** A line the request describes (app.py:279-285). */
  predicate WellFormedLine(l: InvoiceLine, invoiceId: int, id: int) {
    && l.id == id
    && l.invoiceId == invoiceId
    && l.discount == 0.0
    && l.subtotal == l.quantity * l.unitPrice
  }

  /** One pass of the item loop (app.py:273-285): no line for an unknown
      product, otherwise the line with the item's price (or the product's
      first price) and quantity (or 1). */
  function ItemLine(ps: seq<Product>, item: ItemRequest, invoiceId: int, id: int)
    : (r: Result<Option<InvoiceLine>, InvoiceError>)
    ensures r.Failure? <==> BadItem(ps, item)
    ensures r.Failure? ==> r.error.MissingProductId? || r.error.NotANumber?
    ensures r.Success? ==> (r.value.Some? <==> Resolves(ps, item))
    ensures r.Success? && r.value.Some? ==>
              && WellFormedLine(r.value.value, invoiceId, id)
              && r.value.value.productId in ProductIds(ps)
              && LineFor(r.value.value, FindById(ps, item.productId.value).value, item)
  {
    if item.productId.None? then Failure(MissingProductId)
    else
      match FindById(ps, item.productId.value)
      case None => Success(None)
      case Some(p) =>
        var price :- Amount(item.price, p.price1);
        var quantity :- Amount(item.quantity, 1.0);
        Success(Some(InvoiceLine(id, invoiceId, p.id, quantity, price, 0.0, quantity * price)))
  }

  /** The item loop (app.py:271-287): each item whose product exists gives
      one line, numbered from `firstLineId`, with quantity times price as
      subtotal; unknown products are dropped; `total` is the sum of the
      subtotals. The first bad item makes it fail. */
  function BuildLines(ps: seq<Product>, items: seq<ItemRequest>, invoiceId: int, firstLineId: int)
    : (r: Result<Built, InvoiceError>)
    ensures r.Failure? <==> exists i :: 0 <= i < |items| && BadItem(ps, items[i])
    ensures r.Failure? ==> r.error.MissingProductId? || r.error.NotANumber?
    ensures r.Success? ==>
              && r.value.total == SumSubtotals(r.value.lines)
              && |r.value.lines| <= |items|
              && forall k :: 0 <= k < |r.value.lines| ==>
                   WellFormedLine(r.value.lines[k], invoiceId, firstLineId + k)
                   && r.value.lines[k].productId in ProductIds(ps)
  {
    if items == [] then Success(Built([], 0.0))
    else
      BadItemSplit(ps, items);
      var first :- ItemLine(ps, items[0], invoiceId, firstLineId);
      match first
      case None => BuildLines(ps, items[1..], invoiceId, firstLineId)
      case Some(line) =>
        var rest :- BuildLines(ps, items[1..], invoiceId, firstLineId + 1);
        SumConcat([line], rest.lines);
        assert SumSubtotals([line]) == line.subtotal by {
          assert [line][..0] == [];
        }
        Success(Built([line] + rest.lines, line.subtotal + rest.total))
  }

  /** A request has a bad item when its first item or one of the others is
      bad. */
  lemma BadItemSplit(ps: seq<Product>, items: seq<ItemRequest>)
    requires |items| > 0
    ensures (exists i :: 0 <= i < |items| && BadItem(ps, items[i])) <==>
            (BadItem(ps, items[0]) || exists i :: 0 <= i < |items[1..]| && BadItem(ps, items[1..][i]))
  {
    ExistsSplitFirst(items, item => BadItem(ps, item));
  }

  /** The items that become lines, in request order, each with its
      product. */
  function Resolved(ps: seq<Product>, items: seq<ItemRequest>): seq<(Product, ItemRequest)> {
    if items == [] then []
    else
      var head := if Resolves(ps, items[0]) then [(FindById(ps, items[0].productId.value).value, items[0])] else [];
      head + Resolved(ps, items[1..])
  }

  /** Line `l` is the one item `item` on product `p` asks for: the product's
      first price unless a price is given, quantity 1 unless one is given. */
  predicate LineFor(l: InvoiceLine, p: Product, item: ItemRequest) {
    && l.productId == p.id
    && (item.price.None? ==> l.unitPrice == p.price1)
    && (item.price.Some? ==> item.price.value == Number(l.unitPrice))
    && (item.quantity.None? ==> l.quantity == 1.0)
    && (item.quantity.Some? ==> item.quantity.value == Number(l.quantity))
  }

  /** The lines are exactly the resolving items, in order, priced and
      counted as the item asks or by default. */
  lemma {:induction false} LinesFollowItems(ps: seq<Product>, items: seq<ItemRequest>, invoiceId: int, firstLineId: int)
    requires BuildLines(ps, items, invoiceId, firstLineId).Success?
    ensures var ls := BuildLines(ps, items, invoiceId, firstLineId).value.lines;
            var rs := Resolved(ps, items);
            |ls| == |rs| && forall k :: 0 <= k < |ls| ==> LineFor(ls[k], rs[k].0, rs[k].1)
  {
    if items != [] {
      var item := items[0];
      var rest := items[1..];
      var b := BuildLines(ps, items, invoiceId, firstLineId).value;
      assert item.productId.Some?;
      if Resolves(ps, item) {
        var p := FindById(ps, item.productId.value).value;
        var line := ItemLine(ps, item, invoiceId, firstLineId).value.value;
        var b' := BuildLines(ps, rest, invoiceId, firstLineId + 1).value;
        LinesFollowItems(ps, rest, invoiceId, firstLineId + 1);
        assert b.lines == [line] + b'.lines;
        assert Resolved(ps, items) == [(p, item)] + Resolved(ps, rest);
      } else {
        LinesFollowItems(ps, rest, invoiceId, firstLineId);
        assert Resolved(ps, items) == Resolved(ps, rest);
      }
    }
  }

  /** A request whose items all name unknown products gives no lines and a
      total of 0. */
  lemma UnknownItemsDropped(ps: seq<Product>, items: seq<ItemRequest>, invoiceId: int, firstLineId: int)
    requires forall i :: 0 <= i < |items| ==> items[i].productId.Some? && !Resolves(ps, items[i])
    ensures BuildLines(ps, items, invoiceId, firstLineId) == Success(Built([], 0.0))
  {
    assert BuildLines(ps, items, invoiceId, firstLineId).Success?;
    NothingResolved(ps, items);
    LinesFollowItems(ps, items, invoiceId, firstLineId);
  }

  lemma {:induction false} NothingResolved(ps: seq<Product>, items: seq<ItemRequest>)
    requires forall i :: 0 <= i < |items| ==> !Resolves(ps, items[i])
    ensures Resolved(ps, items) == []
  {
    if items != [] {
      assert forall i :: 0 <= i < |items[1..]| ==> items[1..][i] == items[i + 1];
      NothingResolved(ps, items[1..]);
    }
  }

  /** What `crear_factura` answers on success (app.py:293-299, the timestamp
      left out). */
  datatype Receipt = Receipt(invoiceId: int, number: string, total: real)

  /** The store after the request and what the caller is told. */
  datatype InvoiceReply = InvoiceReply(store: Store, outcome: Result<Receipt, InvoiceError>)

  /** The store after committing invoice number `number` with the lines
      `b` for request `req` (app.py:259-291): the invoice, under the next
      free id, with the request's seller, delivery and payment terms or
      their defaults and the lines' total; its lines after the existing
      ones. Nothing else changes. */
  function Commit(s: Store, req: InvoiceRequest, number: string, b: Built): (r: Store)
    requires req.clientId.Some?
    ensures r.clients == s.clients && r.products == s.products && r.priceLists == s.priceLists
    ensures |r.invoices| == |s.invoices| + 1 && r.invoices[..|s.invoices|] == s.invoices
    ensures r.lines == s.lines + b.lines
    ensures var inv := r.invoices[|s.invoices|];
            && inv.id == NextId(InvoiceIds(s.invoices))
            && inv.number == number
            && inv.clientId == req.clientId.value
            && inv.total == b.total
            && inv.seller == req.seller.GetOr(DefaultSeller)
            && inv.delivery == req.delivery.GetOr("")
            && inv.paymentTerms == req.paymentTerms.GetOr(DefaultPaymentTerms)
            && inv.tax == 0.0 && inv.weight == 0.0
  {
    var inv := Invoice(NextId(InvoiceIds(s.invoices)), number, req.clientId.value,
                       req.seller.GetOr(DefaultSeller), req.delivery.GetOr(""),
                       req.paymentTerms.GetOr(DefaultPaymentTerms), b.total, 0.0, 0.0);
    assert (s.invoices + [inv])[..|s.invoices|] == s.invoices;
    s.(invoices := s.invoices + [inv], lines := s.lines + b.lines)
  }

  /** `crear_factura` (app.py:233-299). Every failure leaves the store as it
      was: nothing is committed, so no number is used up. On success the
      number follows the suffix of the latest invoice and is unused, and the
      invoice is committed with the lines `BuildLines` makes for the items. */
  function CreateInvoice(s: Store, req: InvoiceRequest): (r: InvoiceReply)
    ensures r.outcome.Failure? ==> r.store == s
    ensures NoClientGiven(req.clientId) ==> r.outcome == Failure(NoClient)
    ensures !NoClientGiven(req.clientId) && req.items == [] ==> r.outcome == Failure(NoItems)
    ensures r.outcome == Failure(NoClient) ==> NoClientGiven(req.clientId)
    ensures r.outcome == Failure(NoItems) ==> req.items == []
    ensures r.outcome.Failure? && r.outcome.error.UnreadableNumber? ==> LastSuffix(s.invoices).None?
    ensures !NoClientGiven(req.clientId) && req.items != [] && LastSuffix(s.invoices).None? ==>
              r.outcome.Failure? && r.outcome.error.UnreadableNumber?
    ensures && !NoClientGiven(req.clientId) && req.items != []
            && LastSuffix(s.invoices).Some?
            && FormatNumber(LastSuffix(s.invoices).value + 1) in Numbers(s.invoices)
            ==> r.outcome == Failure(DuplicateNumber(FormatNumber(LastSuffix(s.invoices).value + 1)))
    ensures && !NoClientGiven(req.clientId) && req.items != []
            && LastSuffix(s.invoices).Some?
            && FormatNumber(LastSuffix(s.invoices).value + 1) !in Numbers(s.invoices)
            && r.outcome.Failure?
            ==> r.outcome.error.MissingProductId? || r.outcome.error.NotANumber?
    ensures r.outcome.Failure? && (r.outcome.error.MissingProductId? || r.outcome.error.NotANumber?) ==>
              exists i :: 0 <= i < |req.items| && BadItem(s.products, req.items[i])
    ensures && !NoClientGiven(req.clientId) && req.items != []
            && LastSuffix(s.invoices).Some?
            && FormatNumber(LastSuffix(s.invoices).value + 1) !in Numbers(s.invoices)
            && !(exists i :: 0 <= i < |req.items| && BadItem(s.products, req.items[i]))
            ==> r.outcome.Success?
    ensures r.outcome.Failure? && r.outcome.error.DuplicateNumber? ==>
              && LastSuffix(s.invoices).Some?
              && FormatNumber(LastSuffix(s.invoices).value + 1) in Numbers(s.invoices)
    ensures r.outcome.Success? ==>
              && !NoClientGiven(req.clientId) && req.items != []
              && LastSuffix(s.invoices).Some?
              && var number := FormatNumber(LastSuffix(s.invoices).value + 1);
                 var id := NextId(InvoiceIds(s.invoices));
                 var b := BuildLines(s.products, req.items, id, NextId(LineIds(s.lines)));
                 && number !in Numbers(s.invoices)
                 && b.Success?
                 && r.store == Commit(s, req, number, b.value)
                 && r.outcome.value == Receipt(id, number, b.value.total)
  {
    if NoClientGiven(req.clientId) then InvoiceReply(s, Failure(NoClient))
    else if req.items == [] then InvoiceReply(s, Failure(NoItems))
    else AssignNumber(s, req, LastSuffix(s.invoices))
  }

  /** The part of `crear_factura` that picks the number (app.py:251-268),
      given `last`, the parsed suffix of the latest invoice: that suffix must
      be readable and the number after it unused. */
  function AssignNumber(s: Store, req: InvoiceRequest, last: Option<nat>): (r: InvoiceReply)
    requires req.clientId.Some?
    requires last.None? ==> |s.invoices| > 0
    ensures r.outcome.Failure? ==> r.store == s
    ensures r.outcome.Failure? ==> !r.outcome.error.NoClient? && !r.outcome.error.NoItems?
    ensures last.None? <==> r.outcome.Failure? && r.outcome.error.UnreadableNumber?
    ensures last.Some? && FormatNumber(last.value + 1) in Numbers(s.invoices) ==>
              r.outcome == Failure(DuplicateNumber(FormatNumber(last.value + 1)))
    ensures r.outcome.Failure? && r.outcome.error.DuplicateNumber? ==>
              last.Some? && FormatNumber(last.value + 1) in Numbers(s.invoices)
    ensures last.Some? && FormatNumber(last.value + 1) !in Numbers(s.invoices) ==>
              && (r.outcome.Success? <==> !exists i :: 0 <= i < |req.items| && BadItem(s.products, req.items[i]))
              && (r.outcome.Failure? ==> r.outcome.error.MissingProductId? || r.outcome.error.NotANumber?)
    ensures r.outcome.Failure? && (r.outcome.error.MissingProductId? || r.outcome.error.NotANumber?) ==>
              exists i :: 0 <= i < |req.items| && BadItem(s.products, req.items[i])
    ensures r.outcome.Success? ==>
              && last.Some?
              && var number := FormatNumber(last.value + 1);
                 var id := NextId(InvoiceIds(s.invoices));
                 var b := BuildLines(s.products, req.items, id, NextId(LineIds(s.lines)));
                 && number !in Numbers(s.invoices)
                 && b.Success?
                 && r.store == Commit(s, req, number, b.value)
                 && r.outcome.value == Receipt(id, number, b.value.total)
  {
    match last
    case None => InvoiceReply(s, Failure(UnreadableNumber(Latest(s.invoices).number)))
    case Some(n) =>
      var number := FormatNumber(n + 1);
      if number in Numbers(s.invoices) then InvoiceReply(s, Failure(DuplicateNumber(number)))
      else Issue(s, req, number)
  }

  /** The part of `crear_factura` after the number is chosen (app.py:259-291):
      build the lines and commit, or fail on the first bad item with the
      store unchanged. */
  function Issue(s: Store, req: InvoiceRequest, number: string): (r: InvoiceReply)
    requires req.clientId.Some?
    ensures r.outcome.Failure? ==>
              && r.store == s
              && (r.outcome.error.MissingProductId? || r.outcome.error.NotANumber?)
    ensures r.outcome.Success? <==> !exists i :: 0 <= i < |req.items| && BadItem(s.products, req.items[i])
    ensures r.outcome.Success? ==>
              var id := NextId(InvoiceIds(s.invoices));
              var b := BuildLines(s.products, req.items, id, NextId(LineIds(s.lines)));
              && b.Success?
              && r.store == Commit(s, req, number, b.value)
              && r.outcome.value == Receipt(id, number, b.value.total)
  {
    var id := NextId(InvoiceIds(s.invoices));
    match BuildLines(s.products, req.items, id, NextId(LineIds(s.lines)))
    case Failure(e) => InvoiceReply(s, Failure(e))
    case Success(b) => InvoiceReply(Commit(s, req, number, b), Success(Receipt(id, number, b.total)))
  }
}
