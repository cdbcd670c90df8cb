/**
 * The order handlers as transitions of a two-table database: `POST /pedidos/prever`
 * (no change), `POST /pedidos`, `PUT /pedidos/:id` and `DELETE /pedidos/:id`.
 * Creating an order takes its quantity out of the matched stock row and deleting
 * it puts the quantity back; editing never touches stock.
 */
module Pedidos {

  import opened Wrappers
  import opened Text
  import opened Money
  import opened Js
  import opened Estoque
  import opened Pricing

  /** A row of `pedidos_registro`. */
  datatype Order = Order(
    id: nat,
    descricao: string,
    quantSaida: int,
    responsavel: Option<string>,
    saidaLoja: Option<string>,
    localidade: Option<string>,
    mesSaida: Option<string>,
    diaSaida: Option<int>,
    valorUnitarioVenda: real,
    valorTotalSaida: real,
    lucratividadeUnitario: real,
    lucratividadeTotal: real,
    margemAplicada: string,
    estoqueId: Option<nat>   // the stock row matched at creation, never re-checked
  )

  /** The orders table with the next value of its auto-increment key. */
  datatype Orders = Orders(rows: map<nat, Order>, nextId: nat)

  /** Both tables. */
  datatype Db = Db(stock: Ledger, orders: Orders)

  predicate ValidOrders(o: Orders) {
    o.nextId >= 1 && forall i :: i in o.rows ==> 1 <= i < o.nextId && o.rows[i].id == i
  }

  predicate ValidDb(db: Db) {
    Estoque.Valid(db.stock) && ValidOrders(db.orders)
  }

  /** The database after a write, with the order row written. */
  datatype Stored = Stored(db: Db, order: Order)

  /** The description the order handlers look up: the sent one, trimmed. */
  function Nome(descricao: Option<string>): string {
    Trim(descricao.GetOr(""))
  }

  /* ---------------------------------------------------------------------- */
  /* POST /pedidos/prever                                                   */
  /* ---------------------------------------------------------------------- */

  datatype PreviewRequest = PreviewRequest(
    descricao: Option<string>, quantSaida: Option<int>, responsavel: Option<string>, saidaLoja: Option<string>)

  /** The preview against the ledger. A discount other than the special rule is
      only ever reported for a description that matched a stock row. */
  function PreverPedido(l: Ledger, req: PreviewRequest): (p: Preview)
    requires Estoque.Valid(l)
    ensures p.descontoAplicado && !IsFixedPriceCase(req.responsavel, req.saidaLoja, Lower(Nome(req.descricao)))
            ==> HasDescricao(l, Nome(req.descricao))
    ensures !HasDescricao(l, Nome(req.descricao)) && !p.descontoAplicado ==> p.unitPrice == 0.0 && p.totalPrice == 0.0
  {
    var nome := Nome(req.descricao);
    var p := Prever(ItemByDescricao(l, nome), req.responsavel, req.saidaLoja, Lower(nome), req.quantSaida);
    Round2Exact(0);
    assert Times(0.0, PreviewQuantity(req.quantSaida)) == 0 as real / 100.0;
    p
  }

  /* ---------------------------------------------------------------------- */
  /* POST /pedidos                                                          */
  /* ---------------------------------------------------------------------- */

  /** The body of `POST /pedidos`. `diaSaida` and `mesSaida` are accepted but
      ignored; `quantSaida` is `None` when it is not a number. */
  datatype OrderRequest = OrderRequest(
    descricao: Option<string>,
    quantSaida: Option<int>,
    responsavel: Option<string>,
    saidaLoja: Option<string>,
    localidade: Option<string>,
    diaSaida: Option<int>,
    mesSaida: Option<string>,
    valorUnitarioVenda: Option<real>
  )

  /** The server's clock at the time of the request: day of month and month number. */
  datatype Clock = Clock(day: nat, month: nat)

  /** `String(month).padStart(2, "0")`. */
  function MonthText(c: Clock): string {
    Pad2(NatToString(c.month))
  }

  /** The create-chain price of a request for `q` units against the ledger. */
  function OrderPrice(l: Ledger, req: OrderRequest, q: int): (p: Priced)
    requires Estoque.Valid(l)
    ensures var item := ItemByDescricao(l, Nome(req.descricao));
            !(req.valorUnitarioVenda.Some? && req.valorUnitarioVenda.value > 0.0) ==> Consistent(p, BaseCost(item), q)
  {
    var nome := Nome(req.descricao);
    PriceOrder(ItemByDescricao(l, nome), req.responsavel, req.saidaLoja, Lower(nome), q, req.valorUnitarioVenda)
  }

  /** The stock effect of selling `q` units of the matched row, if there is one. */
  function TakeStock(l: Ledger, code: Option<nat>, q: int): (r: Ledger)
    requires Estoque.Valid(l) && (code.Some? ==> code.value in l.items)
    ensures Estoque.Valid(r)
    ensures code.None? ==> r == l
    ensures code.Some? ==> r == AdjustOnHand(l, code.value, -q)
  {
    if code.Some? then AdjustOnHand(l, code.value, -q) else l
  }

  /** The stock effect of deleting an order of `q` units that captured `code`:
      the quantity goes back only if that row still exists. */
  function PutBack(l: Ledger, code: Option<nat>, q: int): (r: Ledger)
    requires Estoque.Valid(l)
    ensures Estoque.Valid(r)
    ensures code.Some? && code.value in l.items ==> r == AdjustOnHand(l, code.value, q)
    ensures !(code.Some? && code.value in l.items) ==> r == l
  {
    if code.Some? && code.value in l.items then AdjustOnHand(l, code.value, q) else l
  }

  /** Putting back what was taken restores the ledger. */
  lemma {:induction false} PutBackUndoesTake(l: Ledger, code: Option<nat>, q: int)
    requires Estoque.Valid(l) && (code.Some? ==> code.value in l.items)
    ensures PutBack(TakeStock(l, code, q), code, q) == l
  {
    if code.Some? {
      AdjustOnHandInverse(l, code.value, q);
    }
  }

  /** `POST /pedidos`. A quantity that is not a number is rejected by the insert
      before stock is touched. Otherwise the order is stored under the next id,
      dated by the clock, priced by the create chain, and, when a stock row
      matched, that row's on-hand quantity drops by the quantity sold, possibly
      below zero, with no other stock row changing. */
  function CreatePedido(db: Db, req: OrderRequest, clock: Clock): (r: Result<Stored>)
    requires ValidDb(db)
    ensures r.Failure? <==> req.quantSaida.None?
    ensures r.Success? ==>
              var db1, o := r.value.db, r.value.order;
              && ValidDb(db1)
              && o.id == db.orders.nextId && o.id !in db.orders.rows
              && db1.orders == Orders(db.orders.rows[o.id := o], db.orders.nextId + 1)
              && o.descricao == Nome(req.descricao)
              && o.quantSaida == req.quantSaida.value
              && o.diaSaida == Some(clock.day) && o.mesSaida == Some(MonthText(clock))
              && o.estoqueId == FindByDescricao(db.stock, Nome(req.descricao))
              && Priced(o.valorUnitarioVenda, o.valorTotalSaida, o.lucratividadeUnitario, o.lucratividadeTotal, o.margemAplicada)
                 == OrderPrice(db.stock, req, o.quantSaida)
              && db1.stock == TakeStock(db.stock, o.estoqueId, o.quantSaida)
  {
    if req.quantSaida.None? then Failure(Failed)
    else
      var q := req.quantSaida.value;
      var nome := Nome(req.descricao);
      var priced := OrderPrice(db.stock, req, q);
      var code := FindByDescricao(db.stock, nome);
      var o := Order(
        db.orders.nextId, nome, q, req.responsavel, req.saidaLoja, req.localidade,
        Some(MonthText(clock)), Some(clock.day),
        priced.unitPrice, priced.totalPrice, priced.lucroUnitario, priced.lucroTotal, priced.margem,
        code);
      Success(Stored(Db(TakeStock(db.stock, code, q), Orders(db.orders.rows[o.id := o], db.orders.nextId + 1)), o))
  }

  /** Without a positive caller price, the stored order's price and profit
      fields are mutually consistent against the matched row's unit cost. */
  lemma CreatePricing(db: Db, req: OrderRequest, clock: Clock)
    requires ValidDb(db) && CreatePedido(db, req, clock).Success?
    requires !(req.valorUnitarioVenda.Some? && req.valorUnitarioVenda.value > 0.0)
    ensures var o := CreatePedido(db, req, clock).value.order;
            Consistent(Priced(o.valorUnitarioVenda, o.valorTotalSaida, o.lucratividadeUnitario, o.lucratividadeTotal, o.margemAplicada),
                       BaseCost(ItemByDescricao(db.stock, Nome(req.descricao))), o.quantSaida)
  {
  }

  /** The day and month a caller sends are ignored: the clock decides. */
  lemma CreateIgnoresCallerDate(db: Db, req: OrderRequest, clock: Clock, dia: Option<int>, mes: Option<string>)
    requires ValidDb(db)
    ensures CreatePedido(db, req.(diaSaida := dia, mesSaida := mes), clock) == CreatePedido(db, req, clock)
  {
  }

  /* ---------------------------------------------------------------------- */
  /* PUT /pedidos/:id                                                       */
  /* ---------------------------------------------------------------------- */

  /** The body of `PUT /pedidos/:id`; `None` leaves a column as it was. */
  datatype EditRequest = EditRequest(
    descricao: Option<string>,
    quantSaida: Option<int>,
    responsavel: Option<string>,
    localidade: Option<string>,
    mesSaida: Option<string>,
    diaSaida: Option<int>,
    valorUnitarioVenda: Option<real>
  )

  /** The edited row: a truthy price or quantity replaces the stored one, totals
      follow them, and profit is taken against the CURRENT unit cost of the row the
      order captured at creation; if that row is gone, profit is 0 and the margin
      "0%". */
  function EditedOrder(prev: Order, stock: Ledger, req: EditRequest): (o: Order)
    ensures o.id == prev.id && o.estoqueId == prev.estoqueId && o.saidaLoja == prev.saidaLoja
    ensures o.valorUnitarioVenda == if TruthyNum(req.valorUnitarioVenda) then req.valorUnitarioVenda.value else prev.valorUnitarioVenda
    ensures o.quantSaida == if TruthyInt(req.quantSaida) then req.quantSaida.value else prev.quantSaida
    ensures o.valorTotalSaida == Times(o.valorUnitarioVenda, o.quantSaida)
    ensures o.lucratividadeTotal == Times(o.lucratividadeUnitario, o.quantSaida)
    ensures prev.estoqueId.Some? && prev.estoqueId.value in stock.items ==>
              && o.lucratividadeUnitario == o.valorUnitarioVenda - stock.items[prev.estoqueId.value].valorUnitario
              && o.margemAplicada == MarginText(o.lucratividadeUnitario, o.valorUnitarioVenda)
    ensures !(prev.estoqueId.Some? && prev.estoqueId.value in stock.items) ==>
              o.lucratividadeUnitario == 0.0 && o.margemAplicada == "0%"
    ensures o.mesSaida == OrStr(req.mesSaida, prev.mesSaida)
    ensures o.diaSaida == if TruthyInt(req.diaSaida) then req.diaSaida else prev.diaSaida
  {
    var price := if TruthyNum(req.valorUnitarioVenda) then req.valorUnitarioVenda.value else prev.valorUnitarioVenda;
    var q := if TruthyInt(req.quantSaida) then req.quantSaida.value else prev.quantSaida;
    var found := prev.estoqueId.Some? && prev.estoqueId.value in stock.items;
    var lucro := if found then price - stock.items[prev.estoqueId.value].valorUnitario else 0.0;
    var margem := if found then MarginText(lucro, price) else "0%";
    prev.(
      descricao := req.descricao.GetOr(prev.descricao),
      quantSaida := q,
      responsavel := if req.responsavel.Some? then req.responsavel else prev.responsavel,
      localidade := if req.localidade.Some? then req.localidade else prev.localidade,
      mesSaida := OrStr(req.mesSaida, prev.mesSaida),
      diaSaida := if TruthyInt(req.diaSaida) then req.diaSaida else prev.diaSaida,
      valorUnitarioVenda := price,
      valorTotalSaida := Times(price, q),
      lucratividadeUnitario := lucro,
      lucratividadeTotal := Times(lucro, q),
      margemAplicada := margem)
  }

  /** `PUT /pedidos/:id`: 404 for an unknown id; otherwise only that order changes,
      and stock never does. */
  function EditPedido(db: Db, id: int, req: EditRequest): (r: Result<Stored>)
    requires ValidDb(db)
    ensures r.Failure? <==> id !in db.orders.rows
    ensures r.Failure? ==> r.error == NotFound
    ensures r.Success? ==>
              && ValidDb(r.value.db)
              && r.value.db.stock == db.stock
              && r.value.order == EditedOrder(db.orders.rows[id], db.stock, req)
              && r.value.db.orders == Orders(db.orders.rows[id := r.value.order], db.orders.nextId)
  {
    if id !in db.orders.rows then Failure(NotFound)
    else
      var o := EditedOrder(db.orders.rows[id], db.stock, req);
      Success(Stored(Db(db.stock, Orders(db.orders.rows[id := o], db.orders.nextId)), o))
  }

  /* ---------------------------------------------------------------------- */
  /* DELETE /pedidos/:id                                                    */
  /* ---------------------------------------------------------------------- */

  /** `DELETE /pedidos/:id`: 404 for an unknown id; otherwise the order goes and, if
      the stock row it captured still exists, its quantity goes back on hand. An
      order without a stock row, or whose row was deleted, leaves stock alone. */
  function DeletePedido(db: Db, id: int): (r: Result<Db>)
    requires ValidDb(db)
    ensures r.Failure? <==> id !in db.orders.rows
    ensures r.Failure? ==> r.error == NotFound
    ensures r.Success? ==>
              var o := db.orders.rows[id];
              && ValidDb(r.value)
              && r.value.orders == Orders(db.orders.rows - {id}, db.orders.nextId)
              && r.value.stock == PutBack(db.stock, o.estoqueId, o.quantSaida)
  {
    if id !in db.orders.rows then Failure(NotFound)
    else
      var o := db.orders.rows[id];
      Success(Db(PutBack(db.stock, o.estoqueId, o.quantSaida), Orders(db.orders.rows - {id}, db.orders.nextId)))
  }

  /* ---------------------------------------------------------------------- */
  /* Round trips                                                            */
  /* ---------------------------------------------------------------------- */

  /** Creating an order and deleting it again restores both the stock ledger and
      the set of stored orders; only the id counter has moved on. */
  lemma CreateThenDeleteRestores(db: Db, req: OrderRequest, clock: Clock)
    requires ValidDb(db) && CreatePedido(db, req, clock).Success?
    ensures var db1, o := CreatePedido(db, req, clock).value.db, CreatePedido(db, req, clock).value.order;
            var r := DeletePedido(db1, o.id);
            && r.Success?
            && r.value.stock == db.stock
            && r.value.orders.rows == db.orders.rows
  {
    var db1, o := CreatePedido(db, req, clock).value.db, CreatePedido(db, req, clock).value.order;
    assert db1.orders.rows[o.id] == o;
    assert db1.orders.rows - {o.id} == db.orders.rows;
    PutBackUndoesTake(db.stock, o.estoqueId, o.quantSaida);
  }

  /** Editing the quantity of an order does not move stock, so deleting it
      afterwards puts back the EDITED quantity: the on-hand quantity ends up
      shifted by the difference. */
  lemma EditThenDeleteShiftsStock(db: Db, req: OrderRequest, clock: Clock, q2: int)
    requires ValidDb(db) && CreatePedido(db, req, clock).Success?
    requires q2 != 0
    ensures var db1, o := CreatePedido(db, req, clock).value.db, CreatePedido(db, req, clock).value.order;
            var e := EditPedido(db1, o.id, EditRequest(None, Some(q2), None, None, None, None, None));
            && e.Success?
            && var d := DeletePedido(e.value.db, o.id);
            && d.Success?
            && (o.estoqueId.Some? ==>
                  d.value.stock.items[o.estoqueId.value].estoqueQuantidade
                  == db.stock.items[o.estoqueId.value].estoqueQuantidade - o.quantSaida + q2)
            && (o.estoqueId.None? ==> d.value.stock == db.stock)
  {
    var db1, o := CreatePedido(db, req, clock).value.db, CreatePedido(db, req, clock).value.order;
    assert db1.orders.rows[o.id] == o;
  }
}
