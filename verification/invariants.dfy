/** The invariants the store keeps under every operation of the model, and
    what they imply for invoice numbers: an empty store, or one just reset,
    satisfies `Valid`, and the import and invoice creation preserve it. */
module Invariants {
  import opened Wrappers
  import opened Records
  import opened Numbering
  import Reconcile
  import opened Invoicing
  import opened Admin

  /** The lines of invoice `id`, in table order. */
  function LinesOf(ls: seq<InvoiceLine>, id: int): seq<InvoiceLine> {
    if ls == [] then []
    else LinesOf(ls[..|ls| - 1], id) + (if ls[|ls| - 1].invoiceId == id then [ls[|ls| - 1]] else [])
  }

  lemma {:induction false} LinesOfConcat(a: seq<InvoiceLine>, b: seq<InvoiceLine>, id: int)
    ensures LinesOf(a + b, id) == LinesOf(a, id) + LinesOf(b, id)
  {
    if b == [] {
      assert a + b == a;
    } else {
      assert (a + b)[..|a + b| - 1] == a + b[..|b| - 1];
      LinesOfConcat(a, b[..|b| - 1], id);
    }
  }

  /** Filtering keeps all of `ls` when every line belongs to `id`, and
      nothing when none does. */
  lemma {:induction false} LinesOfUniform(ls: seq<InvoiceLine>, id: int)
    ensures (forall k :: 0 <= k < |ls| ==> ls[k].invoiceId == id) ==> LinesOf(ls, id) == ls
    ensures (forall k :: 0 <= k < |ls| ==> ls[k].invoiceId != id) ==> LinesOf(ls, id) == []
  {
    if ls != [] {
      LinesOfUniform(ls[..|ls| - 1], id);
    }
  }

  /** Primary keys increase in insertion order in every table. */
  predicate KeysIncreasing(s: Store) {
    && Increasing(ClientIds(s.clients))
    && Increasing(ProductIds(s.products))
    && Increasing(InvoiceIds(s.invoices))
    && Increasing(LineIds(s.lines))
  }

  /** Invoice k (from 0) carries sequence number k + 1. */
  predicate Numbered(s: Store) {
    forall k :: 0 <= k < |s.invoices| ==> s.invoices[k].number == FormatNumber(k + 1)
  }

  /** Every line has quantity times price as subtotal and refers to an
      existing invoice and product. */
  predicate LinesLinked(s: Store) {
    forall k :: 0 <= k < |s.lines| ==>
      && s.lines[k].subtotal == s.lines[k].quantity * s.lines[k].unitPrice
      && s.lines[k].invoiceId in InvoiceIds(s.invoices)
      && s.lines[k].productId in ProductIds(s.products)
  }

  /** Every invoice's total is the sum of its lines. */
  predicate TotalsMatch(s: Store) {
    forall k :: 0 <= k < |s.invoices| ==>
      s.invoices[k].total == SumSubtotals(LinesOf(s.lines, s.invoices[k].id))
  }

  /** The store invariants. */
  predicate Valid(s: Store) {
    KeysIncreasing(s) && Numbered(s) && LinesLinked(s) && TotalsMatch(s)
  }

  /** The store right after a reset satisfies the invariants. */
  lemma ResetIsValid(s: Store)
    ensures Valid(Reset(s))
  {
  }

  /** Under the invariants the latest invoice is the last one inserted, so
      the next number follows the count of invoices. */
  lemma {:induction false} LastSuffixIsCount(s: Store)
    requires Valid(s)
    ensures LastSuffix(s.invoices) == Some(|s.invoices|)
  {
    var vs := s.invoices;
    if |vs| > 0 {
      LatestIsLast(vs);
      assert Latest(vs).number == FormatNumber(|vs|);
      ParseFormatted(|vs|);
    }
  }

  /** With increasing ids the invoice with the highest id is the last one. */
  lemma {:induction false} LatestIsLast(vs: seq<Invoice>)
    requires |vs| > 0 && Increasing(InvoiceIds(vs))
    ensures Latest(vs) == vs[|vs| - 1]
  {
    var v := Latest(vs);
    var n := |vs|;
    assert InvoiceIds(vs)[n - 1] <= v.id;
  }

  /** Under the invariants the invoice numbers parse back to their
      positions 1, 2, ..., N and are pairwise distinct. */
  lemma {:induction false} NumbersAreSequential(s: Store)
    requires Valid(s)
    ensures forall k :: 0 <= k < |s.invoices| ==> ParseSuffix(s.invoices[k].number) == Some(k + 1)
    ensures forall i, j :: 0 <= i < j < |s.invoices| ==> s.invoices[i].number != s.invoices[j].number
  {
    forall k | 0 <= k < |s.invoices| ensures ParseSuffix(s.invoices[k].number) == Some(k + 1) {
      ParseFormatted(k + 1);
    }
    forall i, j | 0 <= i < j < |s.invoices| ensures s.invoices[i].number != s.invoices[j].number {
      FormatInjective(i + 1, j + 1);
    }
  }

  /** Under the invariants a request with a client and items fails only on
      an item, never on numbering: it succeeds exactly when no item is bad,
      and then gets the number after the count of invoices. */
  lemma {:induction false} NextNumber(s: Store, req: InvoiceRequest)
    requires Valid(s)
    ensures var r := CreateInvoice(s, req);
            && (r.outcome.Failure? ==> !r.outcome.error.UnreadableNumber? && !r.outcome.error.DuplicateNumber?)
            && (r.outcome.Success? ==> r.outcome.value.number == FormatNumber(|s.invoices| + 1))
            && (!NoClientGiven(req.clientId) && req.items != [] ==>
                  (r.outcome.Success? <==> !exists i :: 0 <= i < |req.items| && BadItem(s.products, req.items[i])))
  {
    NextNumberFree(s);
    if !NoClientGiven(req.clientId) && req.items != [] {
      SucceedsUnlessBadItem(s, req);
    }
  }

  /** Under the invariants the number after the count of invoices is the
      next one and is still unused. */
  lemma {:induction false} NextNumberFree(s: Store)
    requires Valid(s)
    ensures LastSuffix(s.invoices) == Some(|s.invoices|)
    ensures FormatNumber(|s.invoices| + 1) !in Numbers(s.invoices)
  {
    LastSuffixIsCount(s);
    var number := FormatNumber(|s.invoices| + 1);
    if number in Numbers(s.invoices) {
      assert false;
    }
  }

  /** Once the next number is readable and unused, a request with a client
      and items succeeds exactly when none of its items is bad. */
  lemma {:induction false} SucceedsUnlessBadItem(s: Store, req: InvoiceRequest)
    requires LastSuffix(s.invoices).Some?
    requires FormatNumber(LastSuffix(s.invoices).value + 1) !in Numbers(s.invoices)
    requires !NoClientGiven(req.clientId) && req.items != []
    ensures CreateInvoice(s, req).outcome.Success? <==>
              !exists i :: 0 <= i < |req.items| && BadItem(s.products, req.items[i])
  {
  }

  /** After a reset the next invoice is number "0001-00000001". */
  lemma {:induction false} FirstNumberAfterReset(s: Store, req: InvoiceRequest)
    ensures var r := CreateInvoice(Reset(s), req);
            r.outcome.Success? ==> r.outcome.value.number == "0001-00000001"
  {
    ResetIsValid(s);
    NextNumber(Reset(s), req);
    FirstNumber();
  }

  /** A request whose items all name unknown products still creates an
      invoice: it takes the next number, has no lines and a total of 0. */
  lemma {:induction false} UnknownItemsStillNumbered(s: Store, req: InvoiceRequest)
    requires Valid(s)
    requires !NoClientGiven(req.clientId) && req.items != []
    requires forall i :: 0 <= i < |req.items| ==> req.items[i].productId.Some? && !Resolves(s.products, req.items[i])
    ensures var r := CreateInvoice(s, req);
            && r.outcome.Success?
            && r.outcome.value.number == FormatNumber(|s.invoices| + 1)
            && r.outcome.value.total == 0.0
            && |r.store.invoices| == |s.invoices| + 1
            && r.store.lines == s.lines
  {
    LastSuffixIsCount(s);
    NextNumber(s, req);
    var number := FormatNumber(|s.invoices| + 1);
    if number in Numbers(s.invoices) {
      assert false;
    }
    var id := NextId(InvoiceIds(s.invoices));
    UnknownItemsDropped(s.products, req.items, id, NextId(LineIds(s.lines)));
    assert s.lines + [] == s.lines;
  }

  /** A product id stays present when the table is replaced by one that
      keeps every existing id at its position. */
  lemma {:induction false} ProductIdKept(ps: seq<Product>, t: seq<Product>, x: int)
    requires x in ProductIds(ps)
    requires |t| >= |ps| && forall j :: 0 <= j < |ps| ==> t[j].id == ps[j].id
    ensures x in ProductIds(t)
  {
    var j :| 0 <= j < |ps| && ProductIds(ps)[j] == x;
    assert ProductIds(t)[j] == x;
  }

  /** Replacing the product table by one that keeps every existing
      product's id at its position, with increasing ids, keeps the
      invariants: no line loses its product. */
  lemma {:induction false} ProductsReplaced(s: Store, t: seq<Product>)
    requires Valid(s)
    requires Increasing(ProductIds(t)) && |t| >= |s.products|
    requires forall j :: 0 <= j < |s.products| ==> t[j].id == s.products[j].id
    ensures Valid(s.(products := t))
  {
    ProductsReplacedLinked(s, t);
  }

  lemma {:induction false} ProductsReplacedLinked(s: Store, t: seq<Product>)
    requires LinesLinked(s)
    requires |t| >= |s.products|
    requires forall j :: 0 <= j < |s.products| ==> t[j].id == s.products[j].id
    ensures LinesLinked(s.(products := t))
  {
    forall k | 0 <= k < |s.lines|
      ensures s.lines[k].productId in ProductIds(t)
    {
      ProductIdKept(s.products, t, s.lines[k].productId);
    }
  }

  /** Importing a price list keeps the invariants: it only touches
      products, keeps every existing product's id in place and gives new
      products larger ids. */
  lemma {:induction false} ImportPreservesValid(s: Store, rows: seq<Reconcile.Row>)
    requires Valid(s)
    ensures Valid(Reconcile.Import(s, rows).store)
  {
    var r := Reconcile.Import(s, rows);
    if r.outcome.Success? {
      Reconcile.ImportKeepsIdentity(s.products, rows);
      Reconcile.ImportKeepsIdsIncreasing(s.products, rows);
      ProductsReplaced(s, r.store.products);
    }
  }

  /** Appending to a strictly increasing key sequence a run of keys that
      starts above its last key and grows by one keeps it increasing. */
  lemma AppendIncreasing(ids: seq<int>, more: seq<int>)
    requires Increasing(ids)
    requires forall k :: 0 <= k < |more| ==> more[k] == NextId(ids) + k
    ensures Increasing(ids + more)
  {
  }

  /** `t` is `s` after committing one invoice with lines `ls`: the invoice
      is numbered after the count of invoices, takes the next free id and
      totals its lines; the lines are consecutive new lines of that invoice
      over existing products. */
  predicate Appended(s: Store, t: Store, ls: seq<InvoiceLine>) {
    && t.clients == s.clients && t.products == s.products
    && |t.invoices| == |s.invoices| + 1 && t.invoices[..|s.invoices|] == s.invoices
    && t.lines == s.lines + ls
    && var inv := t.invoices[|s.invoices|];
       && inv.id == NextId(InvoiceIds(s.invoices))
       && inv.number == FormatNumber(|s.invoices| + 1)
       && inv.total == SumSubtotals(ls)
       && forall k :: 0 <= k < |ls| ==>
            WellFormedLine(ls[k], inv.id, NextId(LineIds(s.lines)) + k)
            && ls[k].productId in ProductIds(s.products)
  }

  lemma {:induction false} AppendedPrefix(s: Store, t: Store, ls: seq<InvoiceLine>)
    requires Appended(s, t, ls)
    ensures forall k :: 0 <= k < |s.invoices| ==> t.invoices[k] == s.invoices[k]
    ensures InvoiceIds(t.invoices) == InvoiceIds(s.invoices) + [t.invoices[|s.invoices|].id]
  {
    var n := |s.invoices|;
    forall k | 0 <= k < n ensures t.invoices[k] == s.invoices[k] {
      assert t.invoices[..n][k] == t.invoices[k];
    }
  }

  /** The keys of two line tables one after the other. */
  lemma {:induction false} LineIdsConcat(a: seq<InvoiceLine>, b: seq<InvoiceLine>)
    ensures LineIds(a + b) == LineIds(a) + LineIds(b)
  {
    assert |LineIds(a + b)| == |LineIds(a) + LineIds(b)|;
    forall k | 0 <= k < |a + b| ensures LineIds(a + b)[k] == (LineIds(a) + LineIds(b))[k] {
      if k < |a| {
        assert (a + b)[k] == a[k];
      } else {
        assert (a + b)[k] == b[k - |a|];
      }
    }
  }

  lemma {:induction false} AppendLineKeys(s: Store, t: Store, ls: seq<InvoiceLine>)
    requires Increasing(LineIds(s.lines)) && Appended(s, t, ls)
    ensures Increasing(LineIds(t.lines))
  {
    LineIdsConcat(s.lines, ls);
    AppendIncreasing(LineIds(s.lines), LineIds(ls));
  }

  lemma {:induction false} AppendInvoiceKeys(s: Store, t: Store, ls: seq<InvoiceLine>)
    requires Increasing(InvoiceIds(s.invoices)) && Appended(s, t, ls)
    ensures Increasing(InvoiceIds(t.invoices))
  {
    AppendedPrefix(s, t, ls);
    AppendIncreasing(InvoiceIds(s.invoices), [t.invoices[|s.invoices|].id]);
  }

  lemma {:induction false} AppendKeys(s: Store, t: Store, ls: seq<InvoiceLine>)
    requires KeysIncreasing(s) && Appended(s, t, ls)
    ensures KeysIncreasing(t)
  {
    AppendInvoiceKeys(s, t, ls);
    AppendLineKeys(s, t, ls);
  }

  lemma {:induction false} AppendNumbered(s: Store, t: Store, ls: seq<InvoiceLine>)
    requires Numbered(s) && Appended(s, t, ls)
    ensures Numbered(t)
  {
    AppendedPrefix(s, t, ls);
  }

  /** An invoice id stays present when invoices are appended. */
  lemma {:induction false} InvoiceIdKept(vs: seq<Invoice>, t: seq<Invoice>, x: int)
    requires x in InvoiceIds(vs)
    requires |t| >= |vs| && forall j :: 0 <= j < |vs| ==> t[j] == vs[j]
    ensures x in InvoiceIds(t)
  {
    var j :| 0 <= j < |vs| && InvoiceIds(vs)[j] == x;
    assert InvoiceIds(t)[j] == x;
  }

  lemma {:induction false} AppendLinked(s: Store, t: Store, ls: seq<InvoiceLine>)
    requires LinesLinked(s) && Appended(s, t, ls)
    ensures LinesLinked(t)
  {
    var n := |s.invoices|;
    AppendedPrefix(s, t, ls);
    forall k | 0 <= k < |t.lines|
      ensures && t.lines[k].subtotal == t.lines[k].quantity * t.lines[k].unitPrice
              && t.lines[k].invoiceId in InvoiceIds(t.invoices)
              && t.lines[k].productId in ProductIds(t.products)
    {
      if k < |s.lines| {
        assert t.lines[k] == s.lines[k];
        InvoiceIdKept(s.invoices, t.invoices, s.lines[k].invoiceId);
      } else {
        assert t.lines[k] == ls[k - |s.lines|];
        assert InvoiceIds(t.invoices)[n] == t.invoices[n].id;
      }
    }
  }

  lemma {:induction false} AppendTotals(s: Store, t: Store, ls: seq<InvoiceLine>)
    requires LinesLinked(s) && TotalsMatch(s) && Appended(s, t, ls)
    ensures TotalsMatch(t)
  {
    var n := |s.invoices|;
    var id := t.invoices[n].id;
    AppendedPrefix(s, t, ls);
    forall k | 0 <= k < |t.invoices|
      ensures t.invoices[k].total == SumSubtotals(LinesOf(t.lines, t.invoices[k].id))
    {
      LinesOfConcat(s.lines, ls, t.invoices[k].id);
      if k < n {
        assert InvoiceIds(s.invoices)[k] < id;
        LinesOfUniform(ls, s.invoices[k].id);
        var before := LinesOf(s.lines, s.invoices[k].id);
        assert before + [] == before;
        assert LinesOf(t.lines, t.invoices[k].id) == before;
      } else {
        LinesOfUniform(ls, id);
        forall j | 0 <= j < |s.lines| ensures s.lines[j].invoiceId != id {
          var i :| 0 <= i < n && InvoiceIds(s.invoices)[i] == s.lines[j].invoiceId;
        }
        LinesOfUniform(s.lines, id);
        assert [] + ls == ls;
        assert LinesOf(t.lines, id) == ls;
      }
    }
  }

  /** Committing one invoice as `Appended` describes keeps the invariants. */
  lemma {:induction false} AppendInvoiceValid(s: Store, t: Store, ls: seq<InvoiceLine>)
    requires Valid(s) && Appended(s, t, ls)
    ensures Valid(t)
  {
    AppendKeys(s, t, ls);
    AppendNumbered(s, t, ls);
    AppendLinked(s, t, ls);
    AppendTotals(s, t, ls);
  }

  /** Creating an invoice keeps the invariants: on failure nothing
      changes, on success the invoice takes the next number and id and
      its lines follow the existing ones. */
  lemma {:induction false} CreatePreservesValid(s: Store, req: InvoiceRequest)
    requires Valid(s)
    ensures Valid(CreateInvoice(s, req).store)
  {
    var r := CreateInvoice(s, req);
    if r.outcome.Success? {
      NextNumber(s, req);
      LastSuffixIsCount(s);
      var id := NextId(InvoiceIds(s.invoices));
      var b := BuildLines(s.products, req.items, id, NextId(LineIds(s.lines))).value;
      AppendInvoiceValid(s, r.store, b.lines);
    }
  }

  /** The store after handling the requests `reqs` one after the other. */
  function CreateAll(s: Store, reqs: seq<InvoiceRequest>): Store {
    if reqs == [] then s
    else CreateInvoice(CreateAll(s, reqs[..|reqs| - 1]), reqs[|reqs| - 1]).store
  }

  /** Any sequence of invoice requests keeps the invariants. */
  lemma {:induction false} CreateAllValid(s: Store, reqs: seq<InvoiceRequest>)
    requires Valid(s)
    ensures Valid(CreateAll(s, reqs))
  {
    if reqs != [] {
      CreateAllValid(s, reqs[..|reqs| - 1]);
      CreatePreservesValid(CreateAll(s, reqs[..|reqs| - 1]), reqs[|reqs| - 1]);
    }
  }

  /** Whatever requests follow a reset, the invoices created carry the
      sequence numbers 1, 2, ..., N in order, all distinct. */
  lemma {:induction false} NumbersAfterReset(s: Store, reqs: seq<InvoiceRequest>)
    ensures var t := CreateAll(Reset(s), reqs);
            && (forall k :: 0 <= k < |t.invoices| ==> ParseSuffix(t.invoices[k].number) == Some(k + 1))
            && (forall i, j :: 0 <= i < j < |t.invoices| ==> t.invoices[i].number != t.invoices[j].number)
  {
    ResetIsValid(s);
    CreateAllValid(Reset(s), reqs);
    NumbersAreSequential(CreateAll(Reset(s), reqs));
  }
}
