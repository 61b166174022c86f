/** The persisted entities (app.py:21-75) and the store that holds one
    table of each, as immutable values. Timestamps (`created_at`, `fecha`)
    are not part of the model. */
module Records {
  import opened Wrappers

  datatype Client = Client(
    id: int,
    code: string,
    name: string,
    address: string,
    phone: string,
    taxId: string,
    taxStatus: string,
    email: Option<string>)

  datatype Product = Product(
    id: int,
    code: string,
    description: string,
    cost: real,
    price1: real,
    price2: real,
    price3: real,
    price4: real,
    stock: real,
    unit: string)

  datatype PriceList = PriceList(id: int, name: string, margin: real, active: bool)

  datatype Invoice = Invoice(
    id: int,
    number: string,
    clientId: int,
    seller: string,
    delivery: string,
    paymentTerms: string,
    total: real,
    tax: real,
    weight: real)

  datatype InvoiceLine = InvoiceLine(
    id: int,
    invoiceId: int,
    productId: int,
    quantity: real,
    unitPrice: real,
    discount: real,
    subtotal: real)

  /** The whole database: one sequence per table, in insertion order. */
  datatype Store = Store(
    clients: seq<Client>,
    products: seq<Product>,
    priceLists: seq<PriceList>,
    invoices: seq<Invoice>,
    lines: seq<InvoiceLine>)

  /** A cell of an incoming record, after parsing: nothing (absent, null or
      empty text), a value Python's `float` accepts, or text it rejects. */
  datatype Cell = Blank | Number(value: real) | Text(text: string)

  function ProductIds(ps: seq<Product>): (ids: seq<int>)
    ensures |ids| == |ps| && forall i :: 0 <= i < |ps| ==> ids[i] == ps[i].id
  {
    seq(|ps|, i requires 0 <= i < |ps| => ps[i].id)
  }

  function ClientIds(cs: seq<Client>): (ids: seq<int>)
    ensures |ids| == |cs| && forall i :: 0 <= i < |cs| ==> ids[i] == cs[i].id
  {
    seq(|cs|, i requires 0 <= i < |cs| => cs[i].id)
  }

  function InvoiceIds(vs: seq<Invoice>): (ids: seq<int>)
    ensures |ids| == |vs| && forall i :: 0 <= i < |vs| ==> ids[i] == vs[i].id
  {
    seq(|vs|, i requires 0 <= i < |vs| => vs[i].id)
  }

  function LineIds(ls: seq<InvoiceLine>): (ids: seq<int>)
    ensures |ids| == |ls| && forall i :: 0 <= i < |ls| ==> ids[i] == ls[i].id
  {
    seq(|ls|, i requires 0 <= i < |ls| => ls[i].id)
  }

  /** Ids in strictly increasing insertion order: unique primary keys. */
  predicate Increasing(ids: seq<int>) {
    forall i, j :: 0 <= i < j < |ids| ==> ids[i] < ids[j]
  }

  /** The largest of a non-empty sequence of keys. */
  function MaxId(ids: seq<int>): (m: int)
    requires |ids| > 0
    ensures m in ids && forall i :: 0 <= i < |ids| ==> ids[i] <= m
  {
    if |ids| == 1 then ids[0]
    else
      var m := MaxId(ids[..|ids| - 1]);
      if ids[|ids| - 1] <= m then m else ids[|ids| - 1]
  }

  /** The primary key SQLite gives the next row of a table whose keys are
      `ids`: one more than the largest, or 1 for an empty table. */
  function NextId(ids: seq<int>): (r: int)
    ensures forall i :: 0 <= i < |ids| ==> ids[i] < r
    ensures |ids| == 0 ==> r == 1
    ensures |ids| > 0 ==> r - 1 in ids
  {
    if |ids| == 0 then 1 else MaxId(ids) + 1
  }
}
