/** The development reset `limpiar_datos` (app.py:415-441). */
module Admin {
  import opened Wrappers
  import opened Records

  /** The demo client the reset creates (app.py:428-435). Its id is the
      first key of the emptied client table; `email` is not set. */
  function SeedClient(): (c: Client)
    ensures c.id == NextId(ClientIds([]))
  {
    Client(1, "601", "Emiliano Otero", "Dirección de ejemplo", "123456789",
           "11-11111111-3", "CONSUMIDOR FINAL", None)
  }

  /** Delete every line, invoice, product, client and price list, then add
      the demo client (app.py:419-437). */
  function Reset(s: Store): (r: Store)
    ensures r.lines == [] && r.invoices == [] && r.products == [] && r.priceLists == []
    ensures |r.clients| == 1 && r.clients[0].code == "601" && r.clients[0].id == 1
  {
    Store([SeedClient()], [], [], [], [])
  }
}
