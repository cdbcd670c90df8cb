/**
 * The order list page: the search box and date field that filter the table,
 * the total of the filtered orders, the form helpers (auto-fill by salesperson,
 * picking a stock suggestion, adding an item to a multi-item order) and the
 * two clickable column sorts.
 */
module PedidosList {

  import opened Wrappers
  import opened Text
  import opened Js
  import opened Seqs
  import opened Rows

  /* ---------------------------------------------------------------------- */
  /* Filtering                                                              */
  /* ---------------------------------------------------------------------- */

  /** The search box as the filter reads it: lower-cased, then trimmed. */
  function Termo(filtro: string): string {
    Trim(Lower(filtro))
  }

  /** What the search box asks for. */
  datatype TextQuery = AnyText | Store(loja: string) | Search(termo: string)

  /** A term starting with "@" names a store (the first "@" removed, the rest
      trimmed); any other non-blank term is searched for; a blank one asks nothing. */
  function ParseTextFilter(filtro: string): (q: TextQuery)
    ensures q.Store? <==> StartsWith(Termo(filtro), "@")
    ensures q.AnyText? <==> Termo(filtro) == ""
    ensures q.Store? ==> q.loja == Trim(Termo(filtro)[1..])
    ensures q.Search? ==> q.termo == Termo(filtro)
  {
    var termo := Termo(filtro);
    TrimIdempotent(Lower(filtro));
    if StartsWith(termo, "@") then Store(Trim(termo[1..]))
    else if Trim(termo) != "" then Search(termo)
    else AnyText
  }

  /** Whether a row passes the search box. */
  predicate TextOk(q: TextQuery, p: Row) {
    match q
    case AnyText => true
    case Store(loja) => p.localidade.Some? && Lower(p.localidade.value) == loja
    case Search(t) =>
      || Contains(Lower(p.descricao), t)
      || (p.responsavel.Some? && Contains(Lower(p.responsavel.value), t))
      || (p.localidade.Some? && Contains(Lower(p.localidade.value), t))
  }

  /** Whether a row passes both the search box and the date field. */
  predicate Keep(p: Row, filtro: string, filtroData: string) {
    TextOk(ParseTextFilter(filtro), p) && DateOk(ParseDateFilter(filtroData), p.diaSaida, p.mesSaida, p.anoSaida)
  }

  /** `pedidosFiltrados`: the rows that pass, in their original order. With both
      fields blank every row passes. */
  function PedidosFiltrados(pedidos: seq<Row>, filtro: string, filtroData: string): (r: seq<Row>)
    ensures Sublist(r, pedidos)
    ensures forall i :: 0 <= i < |r| ==> r[i] in pedidos && Keep(r[i], filtro, filtroData)
    ensures forall i :: 0 <= i < |pedidos| && Keep(pedidos[i], filtro, filtroData) ==> pedidos[i] in r
    ensures Termo(filtro) == "" && Trim(filtroData) == "" ==> r == pedidos
  {
    Filter(pedidos, p => Keep(p, filtro, filtroData))
  }

  /** In store mode a row passes exactly when its lower-cased store equals the
      typed name and its date passes; a row without a store never does. */
  lemma StoreMode(filtro: string, filtroData: string, p: Row)
    requires StartsWith(Termo(filtro), "@")
    ensures Keep(p, filtro, filtroData) <==>
              && p.localidade.Some?
              && Lower(p.localidade.value) == Trim(Termo(filtro)[1..])
              && DateOk(ParseDateFilter(filtroData), p.diaSaida, p.mesSaida, p.anoSaida)
  {
  }

  /** The search is case-insensitive: lower-casing what was typed changes nothing. */
  lemma FilterIgnoresCase(pedidos: seq<Row>, filtro: string, filtroData: string)
    ensures PedidosFiltrados(pedidos, Lower(filtro), filtroData) == PedidosFiltrados(pedidos, filtro, filtroData)
  {
    LowerIdempotent(filtro);
    assert Termo(Lower(filtro)) == Termo(filtro);
    assert ParseTextFilter(Lower(filtro)) == ParseTextFilter(filtro);
    FilterExt(pedidos, p => Keep(p, Lower(filtro), filtroData), p => Keep(p, filtro, filtroData));
  }

  /** A date field whose digit count is not 2, 4 or 8 filters nothing. */
  lemma OtherDigitCountsIgnored(pedidos: seq<Row>, filtro: string, filtroData: string)
    requires |DigitsOf(filtroData)| !in {2, 4, 8}
    ensures PedidosFiltrados(pedidos, filtro, filtroData) == PedidosFiltrados(pedidos, filtro, "")
  {
    assert Trim("") == "";
    assert ParseDateFilter(filtroData) == ParseDateFilter("");
    FilterExt(pedidos, p => Keep(p, filtro, filtroData), p => Keep(p, filtro, ""));
  }

  /** A full `ddmmyyyy` date hides every row without a year, which is every row
      the backend serves (see `Rows.RowOf`). */
  lemma FullDateHidesYearlessRows(pedidos: seq<Row>, filtro: string, filtroData: string)
    requires ParseDateFilter(filtroData).DayMonthYear?
    requires forall i :: 0 <= i < |pedidos| ==> pedidos[i].anoSaida.None?
    ensures PedidosFiltrados(pedidos, filtro, filtroData) == []
  {
    var r := PedidosFiltrados(pedidos, filtro, filtroData);
    if |r| > 0 {
      assert r[0] in pedidos;
      NoYearNoFullDate(ParseDateFilter(filtroData), r[0].diaSaida, r[0].mesSaida);
    }
  }

  /** Filtering the filtered list again changes nothing. */
  lemma {:induction false} FilterTwice(pedidos: seq<Row>, filtro: string, filtroData: string)
    ensures PedidosFiltrados(PedidosFiltrados(pedidos, filtro, filtroData), filtro, filtroData)
            == PedidosFiltrados(pedidos, filtro, filtroData)
  {
    FilterFilter(pedidos, p => Keep(p, filtro, filtroData), p => Keep(p, filtro, filtroData));
    FilterExt(pedidos, p => Keep(p, filtro, filtroData),
              x => Keep(x, filtro, filtroData) && Keep(x, filtro, filtroData));
  }

  /** Typing a month after a day narrows the list: the `ddmm` result is a
      sublist of the `dd` result. */
  lemma DayMonthNarrows(pedidos: seq<Row>, filtro: string, d: nat, m: nat)
    requires d < 100 && m < 100
    ensures Sublist(PedidosFiltrados(pedidos, filtro, TwoDigits(d) + "/" + TwoDigits(m)),
                    PedidosFiltrados(pedidos, filtro, TwoDigits(d)))
  {
    DayMonthRoundTrip(d, m);
    var dd := TwoDigits(d);
    assert DigitsOf(dd) == dd;
    if Trim(dd) == "" { BlankHasNoDigits(dd); assert false; }
    assert ParseDateFilter(dd) == Day(d);
    FilterMonotone(pedidos, p => Keep(p, filtro, TwoDigits(d) + "/" + TwoDigits(m)), p => Keep(p, filtro, dd));
  }

  /* ---------------------------------------------------------------------- */
  /* Total                                                                  */
  /* ---------------------------------------------------------------------- */

  /** `Number(p.valor_total_saida) || 0`. */
  function ValorTotal(p: Row): real {
    if p.valorTotal.Some? then p.valorTotal.value else 0.0
  }

  /** `totalPedidos`: the sum of the filtered totals. Together with the total of
      the rows the filter hides it makes up the total of all rows. */
  function TotalPedidos(pedidos: seq<Row>, filtro: string, filtroData: string): (t: real)
    ensures t + Sum(Filter(pedidos, p => !Keep(p, filtro, filtroData)), ValorTotal) == Sum(pedidos, ValorTotal)
    ensures Termo(filtro) == "" && Trim(filtroData) == "" ==> t == Sum(pedidos, ValorTotal)
  {
    SumComplementSplit(pedidos, ValorTotal, p => Keep(p, filtro, filtroData), p => !Keep(p, filtro, filtroData));
    Sum(PedidosFiltrados(pedidos, filtro, filtroData), ValorTotal)
  }

  /* ---------------------------------------------------------------------- */
  /* The order form                                                         */
  /* ---------------------------------------------------------------------- */

  /** The modal form. `dataSaida` is the front-end-only `yyyy-mm-dd` date. */
  datatype Form = Form(
    descricao: Option<string>,
    quantSaida: Option<int>,
    responsavel: Option<string>,
    localidade: Option<string>,
    valorUnitario: Option<real>,
    valorTotal: Option<real>,
    dataSaida: Option<string>
  )

  const EmptyForm: Form := Form(None, None, None, None, None, None, None)

  /** A row whose salesperson equals the typed name, ignoring case. */
  predicate SameResponsavel(p: Row, nome: string) {
    p.responsavel.Some? && Lower(p.responsavel.value) == Lower(nome)
  }

  /** The first of the latest-id rows of a salesperson: what sorting that
      salesperson's rows by descending id (a stable sort) puts first. */
  function Latest(pedidos: seq<Row>, nome: string): (r: Option<nat>)
    ensures r.None? <==> forall i :: 0 <= i < |pedidos| ==> !SameResponsavel(pedidos[i], nome)
    ensures r.Some? ==>
              && r.value < |pedidos|
              && SameResponsavel(pedidos[r.value], nome)
              && (forall i :: 0 <= i < |pedidos| && SameResponsavel(pedidos[i], nome) ==> pedidos[i].id <= pedidos[r.value].id)
              && (forall i :: 0 <= i < r.value && SameResponsavel(pedidos[i], nome) ==> pedidos[i].id < pedidos[r.value].id)
  {
    if |pedidos| == 0 then None
    else
      var rest := Latest(pedidos[1..], nome);
      if SameResponsavel(pedidos[0], nome) && (rest.None? || pedidos[0].id >= pedidos[1..][rest.value].id) then Some(0)
      else if rest.None? then None
      else Some(rest.value + 1)
  }

  /** `preencherAutomaticoResponsavel`: a blank name, or one with no orders,
      leaves the form alone; otherwise the store and the unit price of that
      salesperson's latest order fill the form wherever they are truthy. The
      unit price is a decimal column the page receives as a JSON string, so any
      price the order has, 0 included, is truthy and is copied. */
  function AutoFill(form: Form, pedidos: seq<Row>, nome: string): (f: Form)
    ensures Trim(nome) == "" || Latest(pedidos, nome).None? ==> f == form
    ensures f.descricao == form.descricao && f.quantSaida == form.quantSaida && f.responsavel == form.responsavel
    ensures f.valorTotal == form.valorTotal && f.dataSaida == form.dataSaida
    ensures Trim(nome) != "" && Latest(pedidos, nome).Some? ==>
              var u := pedidos[Latest(pedidos, nome).value];
              && f.localidade == (if TruthyStr(u.localidade) then u.localidade else form.localidade)
              && f.valorUnitario == (if u.valorUnitario.Some? then u.valorUnitario else form.valorUnitario)
  {
    if Trim(nome) == "" then form
    else
      match Latest(pedidos, nome)
      case None => form
      case Some(k) =>
        form.(localidade := OrStr(pedidos[k].localidade, form.localidade),
              valorUnitario := if TruthyDecimal(pedidos[k].valorUnitario) then pedidos[k].valorUnitario else form.valorUnitario)
  }

  /** A stored order priced at 0 (a description with no stock row and no caller
      price) still overwrites the form's price with that 0. */
  lemma AutoFillCopiesZeroPrice(form: Form, pedidos: seq<Row>, nome: string)
    requires Trim(nome) != "" && Latest(pedidos, nome).Some?
    requires pedidos[Latest(pedidos, nome).value].valorUnitario == Some(0.0)
    ensures AutoFill(form, pedidos, nome).valorUnitario == Some(0.0)
  {
  }

  /** A stock suggestion as the page holds it. */
  datatype Suggestion = Suggestion(descricao: string, valorVenda: Option<real>)

  /** The suggestion list under the description box: the stock rows whose
      lower-cased description contains the lower-cased typed text; none while
      the box is blank. */
  function Sugestoes(estoque: seq<Suggestion>, descricao: Option<string>): (r: seq<Suggestion>)
    ensures !TruthyStr(descricao) || Trim(descricao.value) == "" ==> r == []
    ensures Sublist(r, estoque)
    ensures TruthyStr(descricao) && Trim(descricao.value) != "" ==>
              forall i :: 0 <= i < |estoque| ==> (estoque[i] in r <== Contains(Lower(estoque[i].descricao), Lower(descricao.value)))
    ensures forall i :: 0 <= i < |r| ==> Contains(Lower(r[i].descricao), Lower(descricao.value))
  {
    if TruthyStr(descricao) && Trim(descricao.value) != "" then
      Filter(estoque, (e: Suggestion) => Contains(Lower(e.descricao), Lower(descricao.value)))
    else []
  }

  /** `escolherItem`: the description becomes the suggestion's; a unit price
      already in the form stays, and only a null one takes the suggestion's
      sale price. */
  function EscolherItem(form: Form, item: Suggestion): (f: Form)
    ensures f.descricao == Some(item.descricao)
    ensures form.valorUnitario.Some? ==> f.valorUnitario == form.valorUnitario
    ensures form.valorUnitario.None? ==> f.valorUnitario == item.valorVenda
    ensures f.(descricao := form.descricao, valorUnitario := form.valorUnitario) == form
  {
    form.(descricao := Some(item.descricao),
          valorUnitario := if form.valorUnitario.None? then item.valorVenda else form.valorUnitario)
  }

  /** Picking a second suggestion after a first one that carried a price keeps
      the first item's price under the second item's name. */
  lemma ChoosingAgainKeepsFirstPrice(form: Form, a: Suggestion, b: Suggestion)
    requires form.valorUnitario.None? && a.valorVenda.Some?
    ensures EscolherItem(EscolherItem(form, a), b).descricao == Some(b.descricao)
    ensures EscolherItem(EscolherItem(form, a), b).valorUnitario == a.valorVenda
  {
  }

  /** The items added so far and the form. */
  datatype Cart = Cart(itens: seq<Form>, form: Form)

  /** "Adicionar Item ao Pedido": refused (`None`) without a truthy description
      and quantity. Otherwise the form, with salesperson and store taken from the
      first added item when truthy there, is appended, and the form is cleared
      down to that salesperson and store. */
  function AddItem(c: Cart): (r: Option<Cart>)
    ensures r.None? <==> !TruthyStr(c.form.descricao) || !TruthyInt(c.form.quantSaida)
    ensures r.Some? ==> |r.value.itens| == |c.itens| + 1 && r.value.itens[..|c.itens|] == c.itens
    ensures r.Some? ==>
              var base := if |c.itens| > 0 then c.itens[0].responsavel else None;
              var loja := if |c.itens| > 0 then c.itens[0].localidade else None;
              var item := r.value.itens[|c.itens|];
              && item.(responsavel := c.form.responsavel, localidade := c.form.localidade) == c.form
              && (TruthyStr(base) ==> item.responsavel == base && r.value.form.responsavel == base)
              && (!TruthyStr(base) ==> r.value.form.responsavel == c.form.responsavel)
              && (!TruthyStr(base) && TruthyStr(c.form.responsavel) ==> item.responsavel == c.form.responsavel)
              && (!TruthyStr(base) && !TruthyStr(c.form.responsavel) ==> item.responsavel == Some(""))
              && (TruthyStr(loja) ==> item.localidade == loja && r.value.form.localidade == loja)
              && (!TruthyStr(loja) ==> r.value.form.localidade == c.form.localidade)
              && (!TruthyStr(loja) && TruthyStr(c.form.localidade) ==> item.localidade == c.form.localidade)
              && (!TruthyStr(loja) && !TruthyStr(c.form.localidade) ==> item.localidade == Some(""))
              && r.value.form.(responsavel := None, localidade := None) == EmptyForm
  {
    if !TruthyStr(c.form.descricao) || !TruthyInt(c.form.quantSaida) then None
    else
      var responsavelBase := OrStr(if |c.itens| > 0 then c.itens[0].responsavel else None, c.form.responsavel);
      var lojaBase := OrStr(if |c.itens| > 0 then c.itens[0].localidade else None, c.form.localidade);
      var item := c.form.(responsavel := OrStr(responsavelBase, Some("")), localidade := OrStr(lojaBase, Some("")));
      Some(Cart(c.itens + [item], EmptyForm.(responsavel := responsavelBase, localidade := lojaBase)))
  }

  /** Every item of a multi-item order carries the first item's salesperson
      once that one is truthy. */
  predicate SharedResponsavel(itens: seq<Form>) {
    |itens| > 0 && TruthyStr(itens[0].responsavel) ==> forall i :: 0 <= i < |itens| ==> itens[i].responsavel == itens[0].responsavel
  }

  lemma AddItemKeepsSharedResponsavel(c: Cart)
    requires SharedResponsavel(c.itens) && AddItem(c).Some?
    ensures SharedResponsavel(AddItem(c).value.itens)
  {
    var r := AddItem(c).value;
    if |c.itens| == 0 {
      assert |r.itens| == 1;
    } else {
      assert r.itens[0] == c.itens[0];
    }
  }

  /* ---------------------------------------------------------------------- */
  /* Sorting                                                                */
  /* ---------------------------------------------------------------------- */

  /** The descrição column's key. */
  function DescKey(p: Row): string {
    Lower(p.descricao)
  }

  /** The responsável column's key; a missing salesperson sorts as "". */
  function RespKey(p: Row): string {
    Lower(p.responsavel.GetOr(""))
  }

  /** Whether key `a` goes strictly before key `b` in the given direction. */
  predicate Before(asc: bool, a: string, b: string) {
    if asc then LexLess(a, b) else LexLess(b, a)
  }

  /** Comparing rows by a string key in either direction is a strict weak order. */
  lemma KeyOrder(asc: bool, key: Row -> string)
    ensures StrictWeakOrder((a: Row, b: Row) => Before(asc, key(a), key(b)))
  {
    forall a: Row ensures !Before(asc, key(a), key(a)) {
      LexLessIrreflexive(key(a));
    }
    forall a: Row, b: Row, c: Row | Before(asc, key(a), key(b)) && Before(asc, key(b), key(c))
      ensures Before(asc, key(a), key(c))
    {
      if asc { LexLessTransitive(key(a), key(b), key(c)); } else { LexLessTransitive(key(c), key(b), key(a)); }
    }
    forall a: Row, b: Row, c: Row | !Before(asc, key(a), key(b)) && !Before(asc, key(b), key(c))
      ensures !Before(asc, key(a), key(c))
    {
      NotBeforeTransitive(asc, key(a), key(b), key(c));
    }
  }

  lemma NotBeforeTransitive(asc: bool, a: string, b: string, c: string)
    requires !Before(asc, a, b) && !Before(asc, b, c)
    ensures !Before(asc, a, c)
  {
    if a != b { LexLessTotal(a, b); }
    if b != c { LexLessTotal(b, c); }
    if a != b && b != c {
      if asc { LexLessTransitive(c, b, a); LexLessAsymmetric(c, a); }
      else { LexLessTransitive(a, b, c); LexLessAsymmetric(a, c); }
    }
  }

  /** The new sort direction and the re-ordered rows. */
  datatype Sorted = Sorted(asc: bool, pedidos: seq<Row>)

  /** `ordenarPorDescricao`/`ordenarPorResponsavel`: flips the stored direction
      (so the first click, from the initial `true`, sorts descending) and stably
      sorts all rows by the lower-cased key in the new direction. */
  function OrdenarPor(pedidos: seq<Row>, ordemAsc: bool, key: Row -> string): (r: Sorted)
    ensures r.asc == !ordemAsc
    ensures multiset(r.pedidos) == multiset(pedidos)
    ensures forall i, j :: 0 <= i < j < |r.pedidos| ==>
              if r.asc then !LexLess(key(r.pedidos[j]), key(r.pedidos[i]))
              else !LexLess(key(r.pedidos[i]), key(r.pedidos[j]))
  {
    var asc := !ordemAsc;
    KeyOrder(asc, key);
    var s := SortBy(pedidos, (a: Row, b: Row) => Before(asc, key(a), key(b)));
    Sorted(asc, s)
  }

  /** In ascending order the keys never decrease; descending, never increase. */
  lemma SortedKeysMonotone(pedidos: seq<Row>, ordemAsc: bool, key: Row -> string, i: int, j: int)
    requires 0 <= i < j < |pedidos|
    ensures var r := OrdenarPor(pedidos, ordemAsc, key);
            var a, b := key(r.pedidos[i]), key(r.pedidos[j]);
            if r.asc then a == b || LexLess(a, b) else a == b || LexLess(b, a)
  {
    var r := OrdenarPor(pedidos, ordemAsc, key);
    var a, b := key(r.pedidos[i]), key(r.pedidos[j]);
    if a != b { LexLessTotal(a, b); }
  }
}
