/** The product import `importar_excel` (app.py:102-162): a left fold of
    the feed's rows over the product table, upserting each row by its
    normalised code, with one commit at the end. Rows arrive already read
    from the spreadsheet; a row's cells are `Cell` values. */
module Reconcile {
  import opened Wrappers
  import opened Records
  import opened Catalog
  import opened Text
  import opened Sequences

  /** One spreadsheet row: the text of its CODIGO cell (empty when the
      column is absent), its DETALLE cell, and COSTO, PRECIO_1..PRECIO_4. */
  datatype Row = Row(
    code: string,
    detail: Option<string>,
    cost: Cell,
    price1: Cell,
    price2: Cell,
    price3: Cell,
    price4: Cell)

  /** The exception `float` raises on a cell that is not a number. */
  datatype ImportError = NotANumber(text: string)

  /** Longest description kept (app.py:131, 142). */
  const DescriptionLimit: nat := 200

  /** `float(cell or 0)` (app.py:132-136, 143-147): a missing or falsy cell
      reads as 0. */
  function Coerce(c: Cell): (r: Result<real, ImportError>)
    ensures r.Failure? <==> c.Text?
    ensures c.Blank? ==> r == Success(0.0)
    ensures c.Number? ==> r == Success(c.value)
  {
    match c
    case Blank => Success(0.0)
    case Number(v) => Success(v)
    case Text(t) => Failure(NotANumber(t))
  }

  /** The code a row is matched on: its CODIGO text, stripped (app.py:121). */
  function NormalizedCode(row: Row): string {
    Strip(row.code)
  }

  /** Rows with no code, or the text pandas gives a missing cell, are passed
      over without being counted (app.py:123-124). */
  predicate Skipped(row: Row) {
    NormalizedCode(row) == "" || NormalizedCode(row) == "nan"
  }

  /** A row is skipped exactly when its CODIGO text is all white space or
      strips to "nan". */
  lemma {:induction false} SkippedSpec(row: Row)
    ensures Skipped(row) <==>
              (forall k :: 0 <= k < |row.code| ==> IsSpace(row.code[k])) || NormalizedCode(row) == "nan"
  {
    StripEmpty(row.code);
  }

  /** The fields a row writes (app.py:131-136, 142-147): the description cut
      to 200 characters and the five numbers, read in column order. */
  function RowFields(row: Row): (r: Result<Fields, ImportError>)
    ensures r.Success? <==>
              !row.cost.Text? && !row.price1.Text? && !row.price2.Text?
              && !row.price3.Text? && !row.price4.Text?
    ensures r.Success? ==>
              && |r.value.description| <= DescriptionLimit
              && r.value.description == Truncate(row.detail.GetOr(""), DescriptionLimit)
              && (row.cost.Blank? ==> r.value.cost == 0.0)
              && (row.cost.Number? ==> r.value.cost == row.cost.value)
              && (row.price1.Blank? ==> r.value.price1 == 0.0)
              && (row.price1.Number? ==> r.value.price1 == row.price1.value)
              && (row.price2.Blank? ==> r.value.price2 == 0.0)
              && (row.price2.Number? ==> r.value.price2 == row.price2.value)
              && (row.price3.Blank? ==> r.value.price3 == 0.0)
              && (row.price3.Number? ==> r.value.price3 == row.price3.value)
              && (row.price4.Blank? ==> r.value.price4 == 0.0)
              && (row.price4.Number? ==> r.value.price4 == row.price4.value)
  {
    var description := Truncate(row.detail.GetOr(""), DescriptionLimit);
    var cost :- Coerce(row.cost);
    var p1 :- Coerce(row.price1);
    var p2 :- Coerce(row.price2);
    var p3 :- Coerce(row.price3);
    var p4 :- Coerce(row.price4);
    Success(Fields(description, cost, p1, p2, p3, p4))
  }

  /** A row that makes the import fail: one that is not skipped and has a
      cell `float` rejects. */
  predicate Bad(row: Row) {
    !Skipped(row) && RowFields(row).Failure?
  }

  /** The loop state of the import: the product table so far and the two
      counters (app.py:116-117). */
  datatype Tally = Tally(products: seq<Product>, created: nat, updated: nat)

  /** One iteration of the loop (app.py:121-150). */
  function Step(t: Tally, row: Row): (r: Result<Tally, ImportError>)
    ensures r.Failure? <==> Bad(row)
    ensures r.Failure? ==> r.error == RowFields(row).error
    ensures Skipped(row) ==> r == Success(t)
    ensures r.Success? && !Skipped(row) ==>
              r.value.products == Upsert(t.products, NormalizedCode(row), RowFields(row).value).products
    ensures r.Success? ==>
              && r.value.created + r.value.updated == t.created + t.updated + (if Skipped(row) then 0 else 1)
              && r.value.created == t.created + (if !Skipped(row) && NormalizedCode(row) !in Codes(t.products) then 1 else 0)
              && |r.value.products| + t.created == |t.products| + r.value.created
  {
    if Skipped(row) then Success(t)
    else
      var f :- RowFields(row);
      var u := Upsert(t.products, NormalizedCode(row), f);
      if u.created then Success(Tally(u.products, t.created + 1, t.updated))
      else Success(Tally(u.products, t.created, t.updated + 1))
  }

  /** The number of rows that are not skipped. */
  function CountKept(rows: seq<Row>): nat {
    if rows == [] then 0
    else CountKept(rows[..|rows| - 1]) + (if Skipped(rows[|rows| - 1]) then 0 else 1)
  }

  /** The codes of the rows that are not skipped. */
  function KeptCodes(rows: seq<Row>): set<string> {
    if rows == [] then {}
    else
      var last := rows[|rows| - 1];
      KeptCodes(rows[..|rows| - 1]) + (if Skipped(last) then {} else {NormalizedCode(last)})
  }

  /** The whole loop over `rows`, starting from the table `ps` with both
      counters at zero. It fails with the error of the first bad row, and
      otherwise counts every kept row once, as created or as updated. */
  function ImportRows(ps: seq<Product>, rows: seq<Row>): (r: Result<Tally, ImportError>)
    ensures r.Failure? <==> exists i :: 0 <= i < |rows| && Bad(rows[i])
    ensures r.Success? ==> r.value.created + r.value.updated == CountKept(rows)
    ensures r.Success? ==> |r.value.products| == |ps| + r.value.created
  {
    if rows == [] then Success(Tally(ps, 0, 0))
    else
      var init := rows[..|rows| - 1];
      var last := rows[|rows| - 1];
      BadSplit(rows, init);
      match ImportRows(ps, init)
      case Failure(e) => Failure(e)
      case Success(t) => Step(t, last)
  }

  /** A feed has a bad row when its first part or its last row is bad. */
  lemma BadSplit(rows: seq<Row>, init: seq<Row>)
    requires |rows| > 0 && init == rows[..|rows| - 1]
    ensures (exists i :: 0 <= i < |rows| && Bad(rows[i])) <==>
            ((exists i :: 0 <= i < |init| && Bad(init[i])) || Bad(rows[|rows| - 1]))
  {
    ExistsSplitLast(rows, init, Bad);
  }

  /** The last kept row with code `c`: the one whose fields the first
      product with that code ends up holding. */
  function LastRowFor(rows: seq<Row>, c: string): (r: Option<Row>)
    ensures r.Some? <==> c in KeptCodes(rows)
    ensures r.Some? ==> r.value in rows && !Skipped(r.value) && NormalizedCode(r.value) == c
  {
    if rows == [] then None
    else
      var last := rows[|rows| - 1];
      if !Skipped(last) && NormalizedCode(last) == c then Some(last)
      else LastRowFor(rows[..|rows| - 1], c)
  }

  /** The fields of the last kept row with code `c`, when it has any. */
  function LastFields(rows: seq<Row>, c: string): Option<Fields> {
    match LastRowFor(rows, c)
    case None => None
    case Some(row) =>
      match RowFields(row)
      case Failure(_) => None
      case Success(f) => Some(f)
  }

  /** What the import leaves at position `j` of a table in which every code
      of the feed already exists. */
  function Expected(ps: seq<Product>, rows: seq<Row>, j: nat): Product
    requires j < |ps|
  {
    var c := ps[j].code;
    if IsFirst(ps, j) && LastFields(rows, c).Some? then Overwrite(ps[j], LastFields(rows, c).value)
    else ps[j]
  }

  /** When a table `b` starts with the codes of `a`, the first product with a
      code `a` holds is found at the same place in both. */
  lemma {:induction false} FirstStable(a: seq<Product>, b: seq<Product>, c: string)
    requires |a| <= |b| && forall j :: 0 <= j < |a| ==> b[j].code == a[j].code
    requires c in Codes(a)
    ensures FirstWithCode(b, c) == FirstWithCode(a, c)
  {
    var i := FirstWithCode(a, c).value;
    assert b[i].code == c;
  }

  /** An upsert keeps the id, code, stock and unit of every existing
      product, and adds the new code to the table's codes. */
  lemma {:induction false} UpsertKeepsIdentity(ps: seq<Product>, code: string, f: Fields)
    ensures var r := Upsert(ps, code, f).products;
            && |r| >= |ps|
            && (forall j :: 0 <= j < |ps| ==>
                  r[j].id == ps[j].id && r[j].code == ps[j].code
                  && r[j].stock == ps[j].stock && r[j].unit == ps[j].unit)
            && Codes(r) == Codes(ps) + {code}
  {
    var u := Upsert(ps, code, f);
    var r := u.products;
    forall j | 0 <= j < |ps|
      ensures r[j].id == ps[j].id && r[j].code == ps[j].code
              && r[j].stock == ps[j].stock && r[j].unit == ps[j].unit
    {
      if u.created {
        assert r[j] == r[..|ps|][j];
      }
    }
    if u.created {
      assert r[|ps|].code == code;
      forall x | x in Codes(r) ensures x in Codes(ps) + {code} {
        var j :| 0 <= j < |r| && r[j].code == x;
        if j < |ps| { assert ps[j].code == x; }
      }
    } else {
      forall x | x in Codes(r) ensures x in Codes(ps) {
        var j :| 0 <= j < |r| && r[j].code == x;
        assert ps[j].code == x;
      }
      forall x | x in Codes(ps) ensures x in Codes(r) {
        var j :| 0 <= j < |ps| && ps[j].code == x;
        assert r[j].code == x;
      }
    }
  }

  /** An import never removes a product nor changes its id, code, stock or
      unit; products it adds come after the existing ones, with stock 0 and
      unit "unidad". */
  lemma {:induction false} ImportKeepsIdentity(ps: seq<Product>, rows: seq<Row>)
    requires ImportRows(ps, rows).Success?
    ensures var t := ImportRows(ps, rows).value.products;
            && |t| >= |ps|
            && (forall j :: 0 <= j < |ps| ==>
                  t[j].id == ps[j].id && t[j].code == ps[j].code
                  && t[j].stock == ps[j].stock && t[j].unit == ps[j].unit)
            && (forall j :: |ps| <= j < |t| ==> t[j].stock == 0.0 && t[j].unit == "unidad")
  {
    if rows != [] {
      var init := rows[..|rows| - 1];
      var row := rows[|rows| - 1];
      ImportKeepsIdentity(ps, init);
      var t := ImportRows(ps, init).value;
      assert ImportRows(ps, rows) == Step(t, row);
      if !Skipped(row) {
        var f := RowFields(row).value;
        var code := NormalizedCode(row);
        UpsertKeepsIdentity(t.products, code, f);
        var u := Upsert(t.products, code, f);
        if u.created {
          assert u.products[..|t.products|] == t.products;
          assert forall j :: 0 <= j < |t.products| ==> u.products[j] == t.products[j];
        }
      }
    }
  }

  /** An upsert keeps product ids in increasing insertion order. */
  lemma {:induction false} UpsertKeepsIdsIncreasing(ps: seq<Product>, code: string, f: Fields)
    requires Increasing(ProductIds(ps))
    ensures Increasing(ProductIds(Upsert(ps, code, f).products))
  {
    var u := Upsert(ps, code, f);
    var before := ProductIds(ps);
    if u.created {
      assert forall j :: 0 <= j < |ps| ==> u.products[j] == u.products[..|ps|][j];
      assert ProductIds(u.products) == before + [NextId(before)];
    } else {
      UpsertKeepsIdentity(ps, code, f);
      assert ProductIds(u.products) == before;
    }
  }

  /** Product ids stay in increasing insertion order: a created product
      gets an id above every earlier one. */
  lemma {:induction false} ImportKeepsIdsIncreasing(ps: seq<Product>, rows: seq<Row>)
    requires ImportRows(ps, rows).Success?
    requires Increasing(ProductIds(ps))
    ensures Increasing(ProductIds(ImportRows(ps, rows).value.products))
  {
    if rows != [] {
      var init := rows[..|rows| - 1];
      var row := rows[|rows| - 1];
      ImportKeepsIdsIncreasing(ps, init);
      var t := ImportRows(ps, init).value;
      assert ImportRows(ps, rows) == Step(t, row);
      if !Skipped(row) {
        UpsertKeepsIdsIncreasing(t.products, NormalizedCode(row), RowFields(row).value);
      }
    }
  }

  /** After an import the table holds exactly the old codes and the feed's
      kept codes. */
  lemma {:induction false} ImportCodes(ps: seq<Product>, rows: seq<Row>)
    requires ImportRows(ps, rows).Success?
    ensures Codes(ImportRows(ps, rows).value.products) == Codes(ps) + KeptCodes(rows)
  {
    if rows != [] {
      var init := rows[..|rows| - 1];
      var row := rows[|rows| - 1];
      ImportCodes(ps, init);
      var t := ImportRows(ps, init).value;
      assert ImportRows(ps, rows) == Step(t, row);
      if !Skipped(row) {
        UpsertKeepsIdentity(t.products, NormalizedCode(row), RowFields(row).value);
      }
    }
  }

  /** `created` is the number of kept codes the table did not hold: a code
      repeated in the feed is created once and updated afterwards. */
  lemma {:induction false} CreatedCountsNewCodes(ps: seq<Product>, rows: seq<Row>)
    requires ImportRows(ps, rows).Success?
    ensures ImportRows(ps, rows).value.created == |KeptCodes(rows) - Codes(ps)|
  {
    if rows != [] {
      var init := rows[..|rows| - 1];
      var row := rows[|rows| - 1];
      CreatedCountsNewCodes(ps, init);
      ImportCodes(ps, init);
      var t := ImportRows(ps, init).value;
      assert ImportRows(ps, rows) == Step(t, row);
      if !Skipped(row) {
        var code := NormalizedCode(row);
        assert KeptCodes(rows) == KeptCodes(init) + {code};
        NewCodeCount(KeptCodes(init), Codes(ps), code);
      }
    }
  }

  /** Adding `x` to `k` grows the part of `k` outside `c` by one exactly
      when `x` is in neither. */
  lemma NewCodeCount(k: set<string>, c: set<string>, x: string)
    ensures |(k + {x}) - c| == |k - c| + (if x in k + c then 0 else 1)
  {
    if x in k + c {
      assert (k + {x}) - c == k - c;
    } else {
      assert (k + {x}) - c == (k - c) + {x};
    }
  }

  /** The first product with code `c` holds the fields of the last kept
      row of `rows` with that code. */
  predicate Reflects(t: seq<Product>, rows: seq<Row>, c: string) {
    && FirstWithCode(t, c).Some?
    && LastFields(rows, c).Some?
    && FieldsOf(t[FirstWithCode(t, c).value]) == LastFields(rows, c).value
  }

  /** After an import, the first product with each kept code of the feed
      holds the fields of the last feed row with that code. */
  lemma {:induction false} ImportReflectsLastRow(ps: seq<Product>, rows: seq<Row>)
    requires ImportRows(ps, rows).Success?
    ensures forall c :: c in KeptCodes(rows) ==> Reflects(ImportRows(ps, rows).value.products, rows, c)
  {
    if rows != [] {
      var init := rows[..|rows| - 1];
      var row := rows[|rows| - 1];
      ImportReflectsLastRow(ps, init);
      ImportCodes(ps, init);
      var t := ImportRows(ps, init).value;
      assert ImportRows(ps, rows) == Step(t, row);
      if !Skipped(row) {
        forall c | c in KeptCodes(rows)
          ensures Reflects(Upsert(t.products, NormalizedCode(row), RowFields(row).value).products, rows, c)
        {
          ReflectsAfterStep(t.products, rows, init, c);
        }
      } else {
        forall c | c in KeptCodes(rows) ensures Reflects(t.products, rows, c) {
          assert LastFields(rows, c) == LastFields(init, c);
        }
      }
    }
  }

  /** One kept row establishes `Reflects` for its own code. */
  lemma {:induction false} ReflectsOwnCode(t: seq<Product>, rows: seq<Row>)
    requires |rows| > 0
    requires !Skipped(rows[|rows| - 1]) && RowFields(rows[|rows| - 1]).Success?
    ensures var row := rows[|rows| - 1];
            Reflects(Upsert(t, NormalizedCode(row), RowFields(row).value).products, rows, NormalizedCode(row))
  {
    var row := rows[|rows| - 1];
    var code := NormalizedCode(row);
    var f := RowFields(row).value;
    var u := Upsert(t, code, f);
    var t' := u.products;
    UpsertKeepsIdentity(t, code, f);
    assert LastFields(rows, code) == Some(f);
    if !u.created {
      var i := FirstWithCode(t, code).value;
      FirstStable(t, t', code);
      assert t'[i] == Overwrite(t[i], f);
    } else {
      var i := FirstWithCode(t', code).value;
      assert forall j :: 0 <= j < |t| ==> t'[j].code == t[j].code;
      assert i == |t|;
    }
  }

  /** One kept row preserves `Reflects` for the other codes of the rows
      before it. */
  lemma {:induction false} ReflectsOtherCode(t: seq<Product>, rows: seq<Row>, c: string)
    requires |rows| > 0
    requires !Skipped(rows[|rows| - 1]) && RowFields(rows[|rows| - 1]).Success?
    requires c != NormalizedCode(rows[|rows| - 1])
    requires c in KeptCodes(rows[..|rows| - 1]) && c in Codes(t)
    requires Reflects(t, rows[..|rows| - 1], c)
    ensures var row := rows[|rows| - 1];
            Reflects(Upsert(t, NormalizedCode(row), RowFields(row).value).products, rows, c)
  {
    var init := rows[..|rows| - 1];
    var row := rows[|rows| - 1];
    var code := NormalizedCode(row);
    var f := RowFields(row).value;
    var u := Upsert(t, code, f);
    var t' := u.products;
    UpsertKeepsIdentity(t, code, f);
    assert LastFields(rows, c) == LastFields(init, c);
    FirstStable(t, t', c);
    var i := FirstWithCode(t, c).value;
    if !u.created {
      assert t'[i] == t[i];
    } else {
      assert t'[..|t|] == t;
      assert t'[i] == t[i];
    }
  }

  /** One kept row preserves `Reflects` for the codes before it and
      establishes it for its own code. */
  lemma {:induction false} ReflectsAfterStep(t: seq<Product>, rows: seq<Row>, init: seq<Row>, c: string)
    requires |rows| > 0 && init == rows[..|rows| - 1]
    requires !Skipped(rows[|rows| - 1]) && RowFields(rows[|rows| - 1]).Success?
    requires c in KeptCodes(rows)
    requires KeptCodes(init) <= Codes(t)
    requires c in KeptCodes(init) ==> Reflects(t, init, c)
    ensures Reflects(Upsert(t, NormalizedCode(rows[|rows| - 1]), RowFields(rows[|rows| - 1]).value).products, rows, c)
  {
    if c == NormalizedCode(rows[|rows| - 1]) {
      ReflectsOwnCode(t, rows);
    } else {
      assert c in KeptCodes(init);
      ReflectsOtherCode(t, rows, c);
    }
  }

  /** Position `j` after one more kept row, overwriting position `i` (the
      first with the row's code), holds `Expected` for all the rows when it
      held `Expected` for the rows before. */
  lemma {:induction false} ExpectedAfterUpdate(ps: seq<Product>, rows: seq<Row>, i: nat, j: nat, before: Product, after: Product)
    requires |rows| > 0 && i < |ps| && j < |ps|
    requires var row := rows[|rows| - 1];
             !Skipped(row) && RowFields(row).Success? && ps[i].code == NormalizedCode(row) && IsFirst(ps, i)
    requires before == Expected(ps, rows[..|rows| - 1], j)
    requires after == if j == i then Overwrite(before, RowFields(rows[|rows| - 1]).value) else before
    ensures after == Expected(ps, rows, j)
  {
    var init := rows[..|rows| - 1];
    var row := rows[|rows| - 1];
    var code := NormalizedCode(row);
    var f := RowFields(row).value;
    if j == i {
      assert LastFields(rows, code) == Some(f);
      OverwriteTwice(ps[i], LastFields(init, code).GetOr(f), f);
    } else if ps[j].code == code {
      assert !IsFirst(ps, j);
    } else {
      assert LastFields(rows, ps[j].code) == LastFields(init, ps[j].code);
    }
  }

  /** One kept row whose code the table already holds, applied to a table
      that holds `Expected` for the rows before it, gives `Expected` for
      all the rows. */
  lemma {:induction false} UpdateStep(ps: seq<Product>, t: seq<Product>, rows: seq<Row>)
    requires |rows| > 0
    requires var row := rows[|rows| - 1];
             !Skipped(row) && RowFields(row).Success? && NormalizedCode(row) in Codes(ps)
    requires |t| == |ps| && forall k :: 0 <= k < |ps| ==> t[k] == Expected(ps, rows[..|rows| - 1], k)
    ensures var row := rows[|rows| - 1];
            var u := Upsert(t, NormalizedCode(row), RowFields(row).value);
            && !u.created && |u.products| == |ps|
            && forall j :: 0 <= j < |ps| ==> u.products[j] == Expected(ps, rows, j)
  {
    var row := rows[|rows| - 1];
    var code := NormalizedCode(row);
    var f := RowFields(row).value;
    var u := Upsert(t, code, f);
    assert forall k :: 0 <= k < |ps| ==> t[k].code == ps[k].code;
    FirstStable(ps, t, code);
    var i := FirstWithCode(ps, code).value;
    assert !u.created;
    assert u.products[i] == Overwrite(t[i], f);
    forall j | 0 <= j < |ps| ensures u.products[j] == Expected(ps, rows, j) {
      ExpectedAfterUpdate(ps, rows, i, j, t[j], u.products[j]);
    }
  }

  /** When every code of the feed is already in the table, the import only
      updates: the table keeps its length, and each position holds what
      `Expected` says, so only the first product with a fed code changes. */
  lemma {:induction false} UpdateOnlyImport(ps: seq<Product>, rows: seq<Row>)
    requires ImportRows(ps, rows).Success?
    requires KeptCodes(rows) <= Codes(ps)
    ensures var t := ImportRows(ps, rows).value;
            && t.created == 0
            && |t.products| == |ps|
            && forall j :: 0 <= j < |ps| ==> t.products[j] == Expected(ps, rows, j)
  {
    if rows != [] {
      var init := rows[..|rows| - 1];
      var row := rows[|rows| - 1];
      assert KeptCodes(init) <= KeptCodes(rows);
      UpdateOnlyImport(ps, init);
      var t := ImportRows(ps, init).value;
      assert ImportRows(ps, rows) == Step(t, row);
      if Skipped(row) {
        forall j | 0 <= j < |ps| ensures Expected(ps, rows, j) == Expected(ps, init, j) {
          assert LastFields(rows, ps[j].code) == LastFields(init, ps[j].code);
        }
      } else {
        UpdateStep(ps, t.products, rows);
      }
    }
  }

  /** Importing a feed into a table that already holds all its codes and
      reflects it leaves the table as it is. */
  lemma {:induction false} ImportOnReflecting(p: seq<Product>, rows: seq<Row>)
    requires ImportRows(p, rows).Success?
    requires KeptCodes(rows) <= Codes(p)
    requires forall c :: c in KeptCodes(rows) ==> Reflects(p, rows, c)
    ensures ImportRows(p, rows).value.products == p
    ensures ImportRows(p, rows).value.created == 0
  {
    UpdateOnlyImport(p, rows);
    var t := ImportRows(p, rows).value;
    forall j | 0 <= j < |p| ensures t.products[j] == p[j] {
      ExpectedOnReflected(p, rows, j);
    }
  }

  /** Whether an import fails depends on the feed only. */
  lemma {:induction false} NoBadRow(ps: seq<Product>, p: seq<Product>, rows: seq<Row>)
    requires ImportRows(ps, rows).Success?
    ensures ImportRows(p, rows).Success?
  {
  }

  /** An import that leaves the table as it is and creates nothing counts
      every kept row as an update. */
  lemma {:induction false} ReimportCounts(p: seq<Product>, rows: seq<Row>, n: nat)
    requires ImportRows(p, rows).Success?
    requires ImportRows(p, rows).value.products == p
    requires ImportRows(p, rows).value.created == 0
    requires n == CountKept(rows)
    ensures ImportRows(p, rows) == Success(Tally(p, 0, n))
  {
  }

  /** Importing the same feed a second time creates nothing, counts every
      kept row as an update, and leaves the table as the first import left
      it. */
  lemma {:induction false} ReimportChangesNothing(ps: seq<Product>, rows: seq<Row>)
    requires ImportRows(ps, rows).Success?
    ensures var t := ImportRows(ps, rows).value;
            ImportRows(t.products, rows) == Success(Tally(t.products, 0, t.created + t.updated))
  {
    var t := ImportRows(ps, rows).value;
    var p := t.products;
    NoBadRow(ps, p, rows);
    ImportReflectsLastRow(ps, rows);
    ImportCodes(ps, rows);
    ImportOnReflecting(p, rows);
    ReimportCounts(p, rows, t.created + t.updated);
  }

  /** On a table that already reflects the feed, `Expected` changes
      nothing. */
  lemma {:induction false} ExpectedOnReflected(p: seq<Product>, rows: seq<Row>, j: nat)
    requires j < |p|
    requires forall c :: c in KeptCodes(rows) ==> Reflects(p, rows, c)
    ensures Expected(p, rows, j) == p[j]
  {
    var c := p[j].code;
    if IsFirst(p, j) && LastFields(rows, c).Some? {
      assert c in KeptCodes(rows);
      assert Reflects(p, rows, c);
      assert FirstWithCode(p, c) == Some(j);
      OverwriteOwnFields(p[j]);
    }
  }

  /** The import fails with the error of the first bad row, whatever comes
      after it: nothing after that row is looked at. */
  lemma {:induction false} ImportFailsAtFirstBadRow(ps: seq<Product>, rows: seq<Row>, i: nat)
    requires i < |rows| && Bad(rows[i])
    requires forall j :: 0 <= j < i ==> !Bad(rows[j])
    ensures ImportRows(ps, rows) == Failure(RowFields(rows[i]).error)
  {
    var init := rows[..|rows| - 1];
    if i < |rows| - 1 {
      assert init[i] == rows[i];
      assert forall j :: 0 <= j < i ==> init[j] == rows[j];
      ImportFailsAtFirstBadRow(ps, init, i);
    } else {
      assert forall j :: 0 <= j < |init| ==> init[j] == rows[j];
      assert ImportRows(ps, init).Success?;
    }
  }

  /** The fields of the kept rows of a feed that `float` accepts. */
  function FeedFields(rows: seq<Row>): set<Fields> {
    if rows == [] then {}
    else
      var last := rows[|rows| - 1];
      FeedFields(rows[..|rows| - 1])
        + (if !Skipped(last) && RowFields(last).Success? then {RowFields(last).value} else {})
  }

  /** Every product an import writes holds the fields of some feed row, so
      its description is at most 200 characters; the others are untouched. */
  lemma {:induction false} ImportWritesFeedFields(ps: seq<Product>, rows: seq<Row>)
    requires ImportRows(ps, rows).Success?
    ensures var t := ImportRows(ps, rows).value.products;
            forall j :: 0 <= j < |t| ==>
              (j < |ps| && t[j] == ps[j])
              || (FieldsOf(t[j]) in FeedFields(rows) && |t[j].description| <= DescriptionLimit)
  {
    if rows != [] {
      var init := rows[..|rows| - 1];
      var row := rows[|rows| - 1];
      ImportWritesFeedFields(ps, init);
      var t := ImportRows(ps, init).value;
      assert ImportRows(ps, rows) == Step(t, row);
      assert FeedFields(init) <= FeedFields(rows);
      if !Skipped(row) {
        var f := RowFields(row).value;
        var u := Upsert(t.products, NormalizedCode(row), f);
        assert f in FeedFields(rows);
        if u.created {
          assert forall j :: 0 <= j < |t.products| ==> u.products[j] == u.products[..|t.products|][j];
        }
      }
    }
  }

  /** The reply of the import endpoint (app.py:154-159). */
  datatype Summary = Summary(created: nat, updated: nat, total: nat)

  /** The store after the request and what the caller is told. */
  datatype ImportReply = ImportReply(store: Store, outcome: Result<Summary, ImportError>)

  /** `importar_excel` (app.py:112-162): run the loop, commit once at the
      end. A failure anywhere commits nothing; success changes only the
      product table and reports both counters and their sum. */
  function Import(s: Store, rows: seq<Row>): (r: ImportReply)
    ensures r.outcome.Failure? <==> exists i :: 0 <= i < |rows| && Bad(rows[i])
    ensures r.outcome.Failure? ==> r.store == s
    ensures r.outcome.Success? ==>
              && r.outcome.value.total == r.outcome.value.created + r.outcome.value.updated
              && r.outcome.value.total == CountKept(rows)
              && r.store == s.(products := r.store.products)
              && |r.store.products| == |s.products| + r.outcome.value.created
    ensures r.outcome.Success? ==>
              && ImportRows(s.products, rows).Success?
              && r.store.products == ImportRows(s.products, rows).value.products
              && r.outcome.value.created == ImportRows(s.products, rows).value.created
              && r.outcome.value.updated == ImportRows(s.products, rows).value.updated
  {
    match ImportRows(s.products, rows)
    case Failure(e) => ImportReply(s, Failure(e))
    case Success(t) =>
      ImportReply(s.(products := t.products), Success(Summary(t.created, t.updated, t.created + t.updated)))
  }

  /** Running the same import again on the committed store changes nothing:
      every kept row is reported as an update and none as a creation. */
  lemma ReimportStore(s: Store, rows: seq<Row>)
    requires Import(s, rows).outcome.Success?
    ensures var r := Import(s, rows);
            Import(r.store, rows) ==
              ImportReply(r.store, Success(Summary(0, r.outcome.value.total, r.outcome.value.total)))
  {
    ReimportChangesNothing(s.products, rows);
  }

  /** An import creates one product per kept code the table did not have,
      and afterwards the table holds exactly the old codes and the kept
      codes of the feed. */
  lemma ImportCreatesNewCodes(s: Store, rows: seq<Row>)
    requires Import(s, rows).outcome.Success?
    ensures var r := Import(s, rows);
            && r.outcome.value.created == |KeptCodes(rows) - Codes(s.products)|
            && Codes(r.store.products) == Codes(s.products) + KeptCodes(rows)
  {
    CreatedCountsNewCodes(s.products, rows);
    ImportCodes(s.products, rows);
  }
}
