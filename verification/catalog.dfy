/** Product lookups and the upsert the import applies per feed row.
    Product codes are not unique in the table (app.py:34), so every lookup
    by code takes the first product in table order, as SQLAlchemy's
    `.first()` on an unordered query does. */
module Catalog {
  import opened Wrappers
  import opened Records

  /** The fields an import row rewrites, all together, on a product. */
  datatype Fields = Fields(
    description: string,
    cost: real,
    price1: real,
    price2: real,
    price3: real,
    price4: real)

  function FieldsOf(p: Product): Fields {
    Fields(p.description, p.cost, p.price1, p.price2, p.price3, p.price4)
  }

  /** `p` with its import fields replaced by `f`: id, code, stock and unit
      stay as they were. */
  function Overwrite(p: Product, f: Fields): (q: Product)
    ensures FieldsOf(q) == f
    ensures q.id == p.id && q.code == p.code && q.stock == p.stock && q.unit == p.unit
  {
    p.(description := f.description, cost := f.cost,
       price1 := f.price1, price2 := f.price2, price3 := f.price3, price4 := f.price4)
  }

  /** Writing a product's own fields back leaves it as it was. */
  lemma OverwriteOwnFields(p: Product)
    ensures Overwrite(p, FieldsOf(p)) == p
  {
  }

  /** Of two overwrites in a row only the second is visible. */
  lemma OverwriteTwice(p: Product, f: Fields, g: Fields)
    ensures Overwrite(Overwrite(p, f), g) == Overwrite(p, g)
  {
  }

  /** A product created by the import (app.py:140-148): the given id, code
      and fields, stock 0 and the column default unit "unidad". */
  function NewProduct(id: int, code: string, f: Fields): (p: Product)
    ensures p.id == id && p.code == code && FieldsOf(p) == f
    ensures p.stock == 0.0 && p.unit == "unidad"
  {
    Product(id, code, f.description, f.cost, f.price1, f.price2, f.price3, f.price4, 0.0, "unidad")
  }

  /** The set of codes present in a product table. */
  function Codes(ps: seq<Product>): set<string> {
    set i | 0 <= i < |ps| :: ps[i].code
  }

  /** No product before position `j` has the code of `ps[j]`. */
  predicate IsFirst(ps: seq<Product>, j: nat)
    requires j < |ps|
  {
    forall k :: 0 <= k < j ==> ps[k].code != ps[j].code
  }

  /** The position of the first product with code `code`. */
  function FirstWithCode(ps: seq<Product>, code: string): (r: Option<nat>)
    ensures r.Some? ==> r.value < |ps| && ps[r.value].code == code && IsFirst(ps, r.value)
    ensures r.None? <==> code !in Codes(ps)
  {
    if ps == [] then None
    else if ps[0].code == code then Some(0)
    else
      match FirstWithCode(ps[1..], code)
      case None => None
      case Some(i) => Some(i + 1)
  }

  /** The product `buscar_producto` returns for `code` (app.py:219-230):
      the first product with exactly that code, or not-found when none has
      it. */
  function FindByCode(ps: seq<Product>, code: string): (r: Option<Product>)
    ensures r.None? <==> forall j :: 0 <= j < |ps| ==> ps[j].code != code
    ensures r.Some? ==> exists i :: 0 <= i < |ps| && ps[i] == r.value && r.value.code == code && IsFirst(ps, i)
  {
    match FirstWithCode(ps, code)
    case None => None
    case Some(i) => Some(ps[i])
  }

  /** The product `Producto.query.get(id)` returns (app.py:273): the one
      whose primary key is `id`, or nothing. */
  function FindById(ps: seq<Product>, id: int): (r: Option<Product>)
    ensures r.None? <==> id !in ProductIds(ps)
    ensures r.Some? ==> r.value in ps && r.value.id == id
  {
    if ps == [] then None
    else if ps[0].id == id then Some(ps[0])
    else
      assert ProductIds(ps) == [ps[0].id] + ProductIds(ps[1..]);
      FindById(ps[1..], id)
  }

  /** The result of one upsert: the new table and whether a product was
      created (rather than updated). */
  datatype Upserted = Upserted(products: seq<Product>, created: bool)

  /** The upsert of one import row (app.py:127-150): when a product with
      `code` exists, the first one has its fields overwritten with `f` and
      nothing else changes; otherwise exactly one product with that code
      and those fields is appended, under the next free id. */
  function Upsert(ps: seq<Product>, code: string, f: Fields): (r: Upserted)
    ensures r.created <==> code !in Codes(ps)
    ensures !r.created ==>
              && |r.products| == |ps|
              && exists i :: 0 <= i < |ps| && ps[i].code == code && IsFirst(ps, i)
                             && r.products[i] == Overwrite(ps[i], f)
                             && forall j :: 0 <= j < |ps| && j != i ==> r.products[j] == ps[j]
    ensures r.created ==>
              && |r.products| == |ps| + 1
              && r.products[..|ps|] == ps
              && r.products[|ps|] == NewProduct(NextId(ProductIds(ps)), code, f)
  {
    match FirstWithCode(ps, code)
    case Some(i) => Upserted(ps[i := Overwrite(ps[i], f)], false)
    case None => Upserted(ps + [NewProduct(NextId(ProductIds(ps)), code, f)], true)
  }
}
