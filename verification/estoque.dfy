/**
 * The stock ledger behind `POST /estoque`, `PUT /estoque/:codigoItem` and
 * `DELETE /estoque/:codigoItem`: one row per item, keyed by an auto-incremented code,
 * with a unique description.
 */
module Estoque {

  import opened Wrappers
  import opened Text
  import opened Js

  /** A row of `estoque_registro`. Money is real; quantities are integers. */
  datatype StockItem = StockItem(
    codigo: nat,
    descricao: string,
    mesEntrada: Option<string>,
    diaEntrada: Option<int>,
    quantEntrada: int,             // cumulative quantity entered
    unidadeEntrada: Option<string>,
    notaFiscal: Option<string>,
    fornecedor: Option<string>,
    valorTotalEntrada: real,       // cumulative cost entered
    dataVencimento: Option<string>,
    estoqueQuantidade: int,        // on hand; orders may drive it negative
    estoqueUnidade: Option<string>,
    valorUnitario: real,           // unit cost
    valorVenda: Option<real>       // configured sale price
  )

  /** The table, with the next value of its auto-increment key. */
  datatype Ledger = Ledger(items: map<nat, StockItem>, nextCode: nat)

  /** The ledger's invariant: every key is below the counter and equals the row's
      code, and no two rows share a description. The last part assumes a unique
      index on `descricao` in the table; the handlers themselves never check it. */
  predicate Valid(l: Ledger) {
    && l.nextCode >= 1
    && (forall c :: c in l.items ==> 1 <= c < l.nextCode && l.items[c].codigo == c)
    && (forall a, b :: a in l.items && b in l.items && l.items[a].descricao == l.items[b].descricao ==> a == b)
  }

  predicate HasDescricao(l: Ledger, d: string) {
    exists c :: c in l.items && l.items[c].descricao == d
  }

  /** `findFirst({ where: { descricao } })`: the code of the row with that description. */
  function FindByDescricao(l: Ledger, d: string): (r: Option<nat>)
    requires Valid(l)
    ensures r.None? <==> !HasDescricao(l, d)
    ensures r.Some? ==> r.value in l.items && l.items[r.value].descricao == d
  {
    if HasDescricao(l, d) then
      Some(var c :| c in l.items && l.items[c].descricao == d; c)
    else
      None
  }

  /** The item with a given description, if any. */
  function ItemByDescricao(l: Ledger, d: string): (r: Option<StockItem>)
    requires Valid(l)
    ensures r.None? <==> !HasDescricao(l, d)
    ensures r.Some? ==> r.value.codigo in l.items && l.items[r.value.codigo] == r.value && r.value.descricao == d
  {
    match FindByDescricao(l, d)
    case Some(c) => Some(l.items[c])
    case None => None
  }

  /** Rewriting a row in place, keeping its code and description, keeps the ledger valid. */
  lemma ValidAfterReplace(l: Ledger, c: nat, it: StockItem)
    requires Valid(l) && c in l.items
    requires it.codigo == c && it.descricao == l.items[c].descricao
    ensures Valid(Ledger(l.items[c := it], l.nextCode))
  {
  }

  /** Adding a row under the next code with a fresh description keeps the ledger valid. */
  lemma ValidAfterInsert(l: Ledger, it: StockItem)
    requires Valid(l)
    requires it.codigo == l.nextCode && !HasDescricao(l, it.descricao)
    ensures Valid(Ledger(l.items[l.nextCode := it], l.nextCode + 1))
  {
  }

  /* ---------------------------------------------------------------------- */
  /* POST /estoque                                                          */
  /* ---------------------------------------------------------------------- */

  /** The body of `POST /estoque`; `None` is a field that was not sent. */
  datatype StockEntry = StockEntry(
    descricao: Option<string>,
    quantEntrada: Option<int>,
    valorTotalEntrada: Option<real>,
    valorVenda: Option<real>,
    notaFiscal: Option<string>,
    fornecedor: Option<string>,
    dataVencimento: Option<string>,
    mesEntrada: Option<string>,
    diaEntrada: Option<int>,
    unidadeEntrada: Option<string>,
    estoqueUnidade: Option<string>
  )

  /** The outcome of `POST /estoque`: the new ledger, the row written, and whether
      it was created (HTTP 201) rather than merged into an existing row. */
  datatype Posted = Posted(ledger: Ledger, item: StockItem, created: bool)

  /** The trimmed description both stock handlers key on. */
  function EntryDescricao(e: StockEntry): string {
    Trim(e.descricao.GetOr(""))
  }

  /** `valor_venda` as the handlers store it: the sent value if truthy, else the previous one. */
  function SalePrice(sent: Option<real>, prev: Option<real>): (r: Option<real>)
    ensures TruthyNum(sent) ==> r == sent
    ensures !TruthyNum(sent) ==> r == prev
  {
    if TruthyNum(sent) then sent else prev
  }

  /** The unit cost stored with a row: the total cost over a positive quantity,
      and 0 when the quantity is zero or negative. */
  function UnitCost(total: real, q: int): (u: real)
    ensures q > 0 ==> u * q as real == total
    ensures q <= 0 ==> u == 0.0
  {
    if q > 0 then total / q as real else 0.0
  }

  /** The row `POST /estoque` creates for a description not yet in the ledger. */
  function NewItem(code: nat, e: StockEntry): (it: StockItem)
    ensures it.codigo == code && it.descricao == EntryDescricao(e)
    ensures it.quantEntrada == e.quantEntrada.GetOr(0) == it.estoqueQuantidade
    ensures it.valorTotalEntrada == e.valorTotalEntrada.GetOr(0.0)
    ensures it.quantEntrada > 0 ==> it.valorUnitario * it.quantEntrada as real == it.valorTotalEntrada
    ensures it.quantEntrada <= 0 ==> it.valorUnitario == 0.0
    ensures it.valorVenda == SalePrice(e.valorVenda, None)
  {
    var q := e.quantEntrada.GetOr(0);
    var total := e.valorTotalEntrada.GetOr(0.0);
    StockItem(
      code, EntryDescricao(e),
      OrStr(e.mesEntrada, None),
      if TruthyInt(e.diaEntrada) then e.diaEntrada else None,
      q,
      OrStr(e.unidadeEntrada, None),
      OrStr(e.notaFiscal, None),
      OrStr(e.fornecedor, None),
      total,
      OrStr(e.dataVencimento, None),
      q,
      OrStr(e.estoqueUnidade, OrStr(e.unidadeEntrada, None)),
      UnitCost(total, q),
      SalePrice(e.valorVenda, None))
  }

  /** The row `POST /estoque` writes over an existing row with the same description:
      entered quantity, on-hand quantity and total cost accumulate, and the unit cost
      is the new total over the new ON-HAND quantity. */
  function MergedItem(prev: StockItem, e: StockEntry): (it: StockItem)
    ensures it.codigo == prev.codigo && it.descricao == prev.descricao
    ensures it.quantEntrada == prev.quantEntrada + e.quantEntrada.GetOr(0)
    ensures it.estoqueQuantidade == prev.estoqueQuantidade + e.quantEntrada.GetOr(0)
    ensures it.valorTotalEntrada == prev.valorTotalEntrada + e.valorTotalEntrada.GetOr(0.0)
    ensures it.estoqueQuantidade > 0 ==> it.valorUnitario * it.estoqueQuantidade as real == it.valorTotalEntrada
    ensures it.estoqueQuantidade <= 0 ==> it.valorUnitario == 0.0
    ensures it.valorVenda == SalePrice(e.valorVenda, prev.valorVenda)
    ensures it.notaFiscal == OrStr(e.notaFiscal, prev.notaFiscal)
    ensures it.fornecedor == OrStr(e.fornecedor, prev.fornecedor)
    ensures it.dataVencimento == OrStr(e.dataVencimento, prev.dataVencimento)
    ensures it.mesEntrada == prev.mesEntrada && it.diaEntrada == prev.diaEntrada
    ensures it.unidadeEntrada == prev.unidadeEntrada && it.estoqueUnidade == prev.estoqueUnidade
  {
    var q := e.quantEntrada.GetOr(0);
    var onHand := prev.estoqueQuantidade + q;
    var total := prev.valorTotalEntrada + e.valorTotalEntrada.GetOr(0.0);
    prev.(
      quantEntrada := prev.quantEntrada + q,
      estoqueQuantidade := onHand,
      valorTotalEntrada := total,
      valorUnitario := UnitCost(total, onHand),
      notaFiscal := OrStr(e.notaFiscal, prev.notaFiscal),
      fornecedor := OrStr(e.fornecedor, prev.fornecedor),
      dataVencimento := OrStr(e.dataVencimento, prev.dataVencimento),
      valorVenda := SalePrice(e.valorVenda, prev.valorVenda))
  }

  /** `POST /estoque`: merge into the row with the same trimmed description, or
      create a row under the next code. Only that one row changes. */
  function PostEstoque(l: Ledger, e: StockEntry): (p: Posted)
    requires Valid(l)
    ensures Valid(p.ledger)
    ensures p.item.codigo in p.ledger.items && p.ledger.items[p.item.codigo] == p.item
    ensures p.item.descricao == EntryDescricao(e)
    ensures p.created <==> !HasDescricao(l, EntryDescricao(e))
    ensures p.created ==> p.item.codigo !in l.items && p.item == NewItem(p.item.codigo, e)
    ensures !p.created ==> p.item.codigo in l.items && p.item == MergedItem(l.items[p.item.codigo], e)
    ensures p.ledger.items.Keys == l.items.Keys + {p.item.codigo}
    ensures forall c :: c in l.items && c != p.item.codigo ==> p.ledger.items[c] == l.items[c]
  {
    var d := EntryDescricao(e);
    match FindByDescricao(l, d)
    case Some(c) =>
      var it := MergedItem(l.items[c], e);
      ValidAfterReplace(l, c, it);
      Posted(Ledger(l.items[c := it], l.nextCode), it, false)
    case None =>
      var it := NewItem(l.nextCode, e);
      ValidAfterInsert(l, it);
      Posted(Ledger(l.items[l.nextCode := it], l.nextCode + 1), it, true)
  }

  /** Entering stock twice for a new description gives one row whose quantities and
      total cost are the sums of the two entries. */
  lemma PostTwiceAccumulates(l: Ledger, e1: StockEntry, e2: StockEntry)
    requires Valid(l)
    requires !HasDescricao(l, EntryDescricao(e1))
    requires EntryDescricao(e2) == EntryDescricao(e1)
    ensures var p1 := PostEstoque(l, e1);
            var p2 := PostEstoque(p1.ledger, e2);
            && p1.created && !p2.created
            && p2.item.codigo == p1.item.codigo
            && p2.item.quantEntrada == e1.quantEntrada.GetOr(0) + e2.quantEntrada.GetOr(0)
            && p2.item.estoqueQuantidade == e1.quantEntrada.GetOr(0) + e2.quantEntrada.GetOr(0)
            && p2.item.valorTotalEntrada == e1.valorTotalEntrada.GetOr(0.0) + e2.valorTotalEntrada.GetOr(0.0)
  {
    var p1 := PostEstoque(l, e1);
    assert p1.ledger.items[p1.item.codigo].descricao == EntryDescricao(e2);
  }

  /** Once stock has been sold, re-entering it prices the unit cost over what is on
      hand rather than over what was ever entered: 10 units for 100, 8 sold, then 10
      more for 100 gives a unit cost of 200/12, not 200/20. */
  lemma UnitCostOverOnHand()
    ensures var prev := StockItem(1, "Polpa", None, None, 10, None, None, None, 100.0, None, 2, None, 10.0, None);
            var e := StockEntry(Some("Polpa"), Some(10), Some(100.0), None, None, None, None, None, None, None, None);
            var it := MergedItem(prev, e);
            it.valorUnitario == 200.0 / 12.0 && it.valorUnitario != it.valorTotalEntrada / it.quantEntrada as real
  {
  }

  /* ---------------------------------------------------------------------- */
  /* PUT /estoque/:codigoItem                                               */
  /* ---------------------------------------------------------------------- */

  /** The body of `PUT /estoque/:codigoItem`. */
  datatype StockEdit = StockEdit(
    descricao: Option<string>,
    quantEntrada: Option<int>,
    valorTotalEntrada: Option<real>,
    valorVenda: Option<real>,
    fornecedor: Option<string>,
    notaFiscal: Option<string>
  )

  /** The row `PUT` writes: on-hand shifts by the change in entered quantity and the
      total cost is replaced, not accumulated. */
  function EditedItem(prev: StockItem, e: StockEdit): (it: StockItem)
    ensures it.codigo == prev.codigo
    ensures it.quantEntrada == if TruthyInt(e.quantEntrada) then e.quantEntrada.value else prev.quantEntrada
    ensures it.estoqueQuantidade - prev.estoqueQuantidade == it.quantEntrada - prev.quantEntrada
    ensures it.valorTotalEntrada == if TruthyNum(e.valorTotalEntrada) then e.valorTotalEntrada.value else prev.valorTotalEntrada
    ensures it.estoqueQuantidade > 0 ==> it.valorUnitario * it.estoqueQuantidade as real == it.valorTotalEntrada
    ensures it.estoqueQuantidade <= 0 ==> it.valorUnitario == 0.0
    ensures it.descricao == if TruthyStr(e.descricao) then e.descricao.value else prev.descricao
    ensures it.valorVenda == SalePrice(e.valorVenda, prev.valorVenda)
    ensures it.mesEntrada == prev.mesEntrada && it.diaEntrada == prev.diaEntrada && it.dataVencimento == prev.dataVencimento
  {
    var entrada := if TruthyInt(e.quantEntrada) then e.quantEntrada.value else prev.quantEntrada;
    var onHand := prev.estoqueQuantidade + (entrada - prev.quantEntrada);
    var total := if TruthyNum(e.valorTotalEntrada) then e.valorTotalEntrada.value else prev.valorTotalEntrada;
    prev.(
      descricao := OrStr(e.descricao, Some(prev.descricao)).value,
      fornecedor := OrStr(e.fornecedor, prev.fornecedor),
      notaFiscal := OrStr(e.notaFiscal, prev.notaFiscal),
      quantEntrada := entrada,
      estoqueQuantidade := onHand,
      valorTotalEntrada := total,
      valorUnitario := UnitCost(total, onHand),
      valorVenda := SalePrice(e.valorVenda, prev.valorVenda))
  }

  /** `PUT /estoque/:codigoItem`: 404 for an unknown code; a rename onto another
      row's description fails, as the assumed unique index on `descricao` refuses
      it and the handler answers 500; otherwise only that row changes. */
  function PutEstoque(l: Ledger, code: int, e: StockEdit): (r: Result<(Ledger, StockItem)>)
    requires Valid(l)
    ensures code !in l.items <==> r == Failure(NotFound)
    ensures r.Success? ==> && code in l.items
                           && r.value.1 == EditedItem(l.items[code], e)
                           && r.value.0 == Ledger(l.items[code := r.value.1], l.nextCode)
                           && Valid(r.value.0)
    ensures r == Failure(Failed) <==>
              code in l.items && exists c :: c in l.items && c != code && l.items[c].descricao == EditedItem(l.items[code], e).descricao
  {
    if code !in l.items then Failure(NotFound)
    else
      var it := EditedItem(l.items[code], e);
      if exists c :: c in l.items && c != code && l.items[c].descricao == it.descricao then Failure(Failed)
      else Success((Ledger(l.items[code := it], l.nextCode), it))
  }

  /** Sending the same `PUT` twice leaves the ledger as the first one left it. */
  lemma PutIdempotent(l: Ledger, code: int, e: StockEdit)
    requires Valid(l)
    requires PutEstoque(l, code, e).Success?
    ensures var l1 := PutEstoque(l, code, e).value.0;
            PutEstoque(l1, code, e) == PutEstoque(l, code, e)
  {
    var l1 := PutEstoque(l, code, e).value.0;
    var it := l1.items[code];
    assert EditedItem(it, e) == it;
    assert forall c :: c in l1.items && c != code ==> l1.items[c] == l.items[c];
    assert !exists c :: c in l1.items && c != code && l1.items[c].descricao == it.descricao;
    assert l1.items[code := it] == l1.items;
  }

  /* ---------------------------------------------------------------------- */
  /* On-hand adjustments made by the order handlers                         */
  /* ---------------------------------------------------------------------- */

  /** Moves one row's on-hand quantity by `delta`, with no lower bound; nothing else
      in the ledger changes. */
  function AdjustOnHand(l: Ledger, c: nat, delta: int): (r: Ledger)
    requires Valid(l) && c in l.items
    ensures Valid(r) && r.nextCode == l.nextCode && r.items.Keys == l.items.Keys
    ensures r.items[c].estoqueQuantidade == l.items[c].estoqueQuantidade + delta
    ensures r.items[c] == l.items[c].(estoqueQuantidade := r.items[c].estoqueQuantidade)
    ensures forall k :: k in l.items && k != c ==> r.items[k] == l.items[k]
  {
    var it := l.items[c];
    ValidAfterReplace(l, c, it.(estoqueQuantidade := it.estoqueQuantidade + delta));
    Ledger(l.items[c := it.(estoqueQuantidade := it.estoqueQuantidade + delta)], l.nextCode)
  }

  /** Taking a quantity out and putting it back restores the ledger exactly. */
  lemma {:induction false} AdjustOnHandInverse(l: Ledger, c: nat, q: int)
    requires Valid(l) && c in l.items
    ensures AdjustOnHand(AdjustOnHand(l, c, -q), c, q) == l
  {
    var l2 := AdjustOnHand(AdjustOnHand(l, c, -q), c, q);
    assert l2.items[c] == l.items[c];
    assert l2.items == l.items;
  }

  /* ---------------------------------------------------------------------- */
  /* DELETE /estoque/:codigoItem                                            */
  /* ---------------------------------------------------------------------- */

  /** `DELETE /estoque/:codigoItem`: removes the row; an unknown code makes the
      delete throw, which the handler reports as HTTP 500. Orders that point at the
      row keep their reference. */
  function DeleteEstoque(l: Ledger, code: int): (r: Result<Ledger>)
    requires Valid(l)
    ensures code !in l.items <==> r == Failure(Failed)
    ensures r.Success? ==> Valid(r.value) && r.value.items.Keys == l.items.Keys - {code}
                           && forall c :: c in r.value.items ==> r.value.items[c] == l.items[c]
  {
    if code !in l.items then Failure(Failed)
    else Success(Ledger(l.items - {code}, l.nextCode))
  }
}
