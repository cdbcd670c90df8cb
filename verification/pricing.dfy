/**
 * The price rule chains of `POST /pedidos/prever` (preview) and `POST /pedidos`
 * (create). Both take the stock row matched by description (if any), the
 * salesperson (`responsavel`), the store (`saida_loja`) and the lower-cased,
 * trimmed description, and pick the first rule that fires:
 *   1. Rodrigo at "Barra Açaí" with a description containing "aça": 122.50;
 *   2. a matched row, an allow-listed (salesperson, store) pair and a description
 *      not on the exclusion list: cost plus half the configured margin;
 *   3. otherwise the configured sale price (0 without a matched row).
 * The two chains differ in their exclusion lists, in rounding, and in what create
 * does afterwards with a caller-supplied price.
 */
module Pricing {

  import opened Wrappers
  import opened Text
  import opened Money
  import opened Js
  import opened Estoque

  /** The price of the special rule for Rodrigo at Barra Açaí. */
  const FixedPrice: real := 122.5

  /** The share of the configured margin the loyalty discount keeps. */
  const MarginShare: real := 0.5

  /** The (salesperson, store) pairs that receive the loyalty discount. */
  predicate IsClientDiscount(responsavel: Option<string>, loja: Option<string>) {
    || (responsavel == Some("Rodrigo") && loja == Some("Barra Açaí"))
    || (responsavel == Some("Ericsson") && loja == Some("Açaí da Ponte"))
  }

  /** The special rule: Rodrigo, Barra Açaí, and "aça" in the lower-cased description. */
  predicate IsFixedPriceCase(responsavel: Option<string>, loja: Option<string>, nome: string) {
    responsavel == Some("Rodrigo") && loja == Some("Barra Açaí") && Contains(nome, "aça")
  }

  /** Cardboard-box items, excluded from the discount by both chains. */
  predicate IsBoxItem(nome: string) {
    Contains(nome, "caixa de papelão") || Contains(nome, "caixa papelão") || Contains(nome, "caixa papelon")
  }

  /** Açaí items, excluded from the discount by the create chain only. */
  predicate IsAcaiItem(nome: string) {
    Contains(nome, "açai") || Contains(nome, "açaí") || Contains(nome, "acai")
  }

  /** Every box spelling has an "x": a description without one is not a box item. */
  lemma NotBoxWithoutX(nome: string)
    requires 'x' !in nome
    ensures !IsBoxItem(nome)
  {
    MissingCharNotContains(nome, "caixa de papelão", 3);
    MissingCharNotContains(nome, "caixa papelão", 3);
    MissingCharNotContains(nome, "caixa papelon", 3);
  }

  /** The exclusion list of the preview chain. */
  predicate PreviewExcluded(nome: string) {
    IsBoxItem(nome)
  }

  /** The exclusion list of the create chain. */
  predicate CreateExcluded(nome: string) {
    IsAcaiItem(nome) || IsBoxItem(nome)
  }

  /** The configured sale price of the matched row, 0 when unset or unmatched. */
  function BaseSale(item: Option<StockItem>): real {
    if item.Some? then item.value.valorVenda.GetOr(0.0) else 0.0
  }

  /** The unit cost of the matched row, 0 when unmatched. */
  function BaseCost(item: Option<StockItem>): real {
    if item.Some? then item.value.valorUnitario else 0.0
  }

  /** Cost plus half of the configured margin: the loyalty price lies between the
      cost and the configured price, strictly below the configured price exactly
      when that price is above cost, and equal to both when they agree. */
  function Discounted(item: Option<StockItem>): (p: real)
    ensures BaseCost(item) <= BaseSale(item) ==> BaseCost(item) <= p <= BaseSale(item)
    ensures BaseSale(item) < BaseCost(item) ==> BaseSale(item) < p < BaseCost(item)
    ensures p < BaseSale(item) <==> BaseCost(item) < BaseSale(item)
    ensures p > BaseCost(item) <==> BaseSale(item) > BaseCost(item)
    ensures p == BaseSale(item) <==> p == BaseCost(item)
  {
    BaseCost(item) + (BaseSale(item) - BaseCost(item)) * MarginShare
  }

  /* ---------------------------------------------------------------------- */
  /* Preview                                                                */
  /* ---------------------------------------------------------------------- */

  /** The answer of `POST /pedidos/prever`. */
  datatype Preview = Preview(unitPrice: real, totalPrice: real, descontoAplicado: bool)

  /** `Number(quant_saida || 1)`: a missing or zero quantity counts as one. */
  function PreviewQuantity(q: Option<int>): (n: int)
    ensures n != 0
    ensures TruthyInt(q) ==> n == q.value
    ensures !TruthyInt(q) ==> n == 1
  {
    if TruthyInt(q) then q.value else 1
  }

  /** The preview chain, before rounding: the price and whether a discount fired. */
  function PreviewRule(item: Option<StockItem>, responsavel: Option<string>, loja: Option<string>, nome: string): (real, bool) {
    if IsFixedPriceCase(responsavel, loja, nome) then (FixedPrice, true)
    else if item.Some? && IsClientDiscount(responsavel, loja) && !PreviewExcluded(nome) then (Discounted(item), true)
    else (BaseSale(item), false)
  }

  /** The preview: the special rule wins over everything, even without a matched
      row; the loyalty discount needs a matched row, an allow-listed pair and a
      non-box item; otherwise the configured price. The unit price is rounded to
      cents and the total is the rounded product with the quantity. */
  function Prever(item: Option<StockItem>, responsavel: Option<string>, loja: Option<string>, nome: string, q: Option<int>): (p: Preview)
    ensures IsFixedPriceCase(responsavel, loja, nome) ==> p.unitPrice == FixedPrice && p.descontoAplicado
    ensures p.descontoAplicado <==>
              IsFixedPriceCase(responsavel, loja, nome)
              || (item.Some? && IsClientDiscount(responsavel, loja) && !IsBoxItem(nome))
    ensures !IsFixedPriceCase(responsavel, loja, nome) && p.descontoAplicado ==>
              p.unitPrice == Round2(BaseCost(item) + (BaseSale(item) - BaseCost(item)) / 2.0)
    ensures !p.descontoAplicado ==> p.unitPrice == Round2(BaseSale(item))
    ensures p.totalPrice == Round2(Times(p.unitPrice, PreviewQuantity(q)))
  {
    var (price, desconto) := PreviewRule(item, responsavel, loja, nome);
    var unit := Round2(price);
    Round2FixedPrice();
    Preview(unit, Round2(Times(unit, PreviewQuantity(q))), desconto)
  }

  /** 122.50 is already a whole number of cents. */
  lemma Round2FixedPrice()
    ensures Round2(FixedPrice) == FixedPrice
  {
    Round2Exact(12250);
    assert FixedPrice == 12250 as real / 100.0;
  }

  /** Two açaí for Rodrigo at Barra Açaí cost 122.50 each and 245 in all, whatever
      the stock says: any description typed as "Aça…" (e.g. "Açaí 500ml") qualifies. */
  lemma FixedPriceExample(item: Option<StockItem>, descricao: string)
    requires |descricao| >= 3 && descricao[0] == 'A' && descricao[1] == 'ç' && descricao[2] == 'a'
    requires !IsSpace(descricao[|descricao| - 1])
    ensures Prever(item, Some("Rodrigo"), Some("Barra Açaí"), Lower(Trim(descricao)), Some(2))
         == Preview(122.5, 245.0, true)
  {
    TrimUnpadded(descricao);
    var nome := Lower(descricao);
    LowerStartsAca(descricao);
    assert IsFixedPriceCase(Some("Rodrigo"), Some("Barra Açaí"), nome);
    var p := Prever(item, Some("Rodrigo"), Some("Barra Açaí"), nome, Some(2));
    assert p.unitPrice == 122.5 && p.descontoAplicado;
    assert PreviewQuantity(Some(2)) == 2;
    TwiceFixedPrice();
  }

  /** A description starting "Aça" contains "aça" once lower-cased. */
  lemma LowerStartsAca(s: string)
    requires |s| >= 3 && s[0] == 'A' && s[1] == 'ç' && s[2] == 'a'
    ensures Contains(Lower(s), "aça")
  {
    var n := Lower(s);
    assert n[0] == 'a' && n[1] == 'ç' && n[2] == 'a';
    assert n[..3] == "aça";
  }

  lemma TwiceFixedPrice()
    ensures Round2(Times(FixedPrice, 2)) == 245.0
  {
    assert Times(122.5, 2) == 24500 as real / 100.0;
    Round2Exact(24500);
  }

  /** A row with unit cost 10 and sale price 20 previews at 15
      for an allow-listed pair on any item that is neither a box nor caught by the
      special rule. */
  lemma LoyaltyExample(it: StockItem, nome: string)
    requires it.valorUnitario == 10.0 && it.valorVenda == Some(20.0)
    requires 'x' !in nome && 'ç' !in nome
    ensures Prever(Some(it), Some("Rodrigo"), Some("Barra Açaí"), nome, Some(1)).unitPrice == 15.0
  {
    MissingCharNotContains(nome, "aça", 1);
    NotBoxWithoutX(nome);
    assert PreviewRule(Some(it), Some("Rodrigo"), Some("Barra Açaí"), nome) == (15.0, true);
    Round2Exact(1500);
    assert Round2(15.0) == 15.0;
  }

  /* ---------------------------------------------------------------------- */
  /* Create                                                                 */
  /* ---------------------------------------------------------------------- */

  /** The price and profit fields `POST /pedidos` stores. */
  datatype Priced = Priced(unitPrice: real, totalPrice: real, lucroUnitario: real, lucroTotal: real, margem: string)

  /** The profit fields agree with the unit price: unit profit is price minus cost,
      totals are per-unit values times the quantity, and the margin text is the
      profit over the price. */
  predicate Consistent(p: Priced, cost: real, q: int) {
    && p.lucroUnitario == p.unitPrice - cost
    && p.totalPrice == Times(p.unitPrice, q)
    && p.lucroTotal == Times(p.lucroUnitario, q)
    && p.margem == MarginText(p.lucroUnitario, p.unitPrice)
  }

  /** All fields derived from one unit price. */
  function PricedAt(price: real, cost: real, q: int): (p: Priced)
    ensures p.unitPrice == price && Consistent(p, cost, q)
  {
    var lucro := price - cost;
    Priced(price, Times(price, q), lucro, Times(lucro, q), MarginText(lucro, price))
  }

  /** The create chain before the caller's price is considered. Its rules are those
      of the preview but with açaí items also excluded from the discount, and
      nothing is rounded; every branch leaves the profit fields consistent. */
  function CreateRule(item: Option<StockItem>, responsavel: Option<string>, loja: Option<string>, nome: string, q: int): (p: Priced)
    ensures Consistent(p, BaseCost(item), q)
    ensures IsFixedPriceCase(responsavel, loja, nome) ==> p.unitPrice == FixedPrice
    ensures !IsFixedPriceCase(responsavel, loja, nome) ==>
              p.unitPrice == if item.Some? && IsClientDiscount(responsavel, loja) && !CreateExcluded(nome)
                             then BaseCost(item) + (BaseSale(item) - BaseCost(item)) / 2.0
                             else BaseSale(item)
  {
    var cost := BaseCost(item);
    if IsFixedPriceCase(responsavel, loja, nome) then PricedAt(FixedPrice, cost, q)
    else if CreateExcluded(nome) && item.Some? then PricedAt(BaseSale(item), cost, q)
    else if IsClientDiscount(responsavel, loja) && !CreateExcluded(nome) && item.Some? then PricedAt(Discounted(item), cost, q)
    else PricedAt(BaseSale(item), cost, q)
  }

  /** A positive caller price replaces the unit price, even after the special rule,
      and the total follows it; the profit and margin fields are not recomputed. */
  function ApplyOverride(p: Priced, q: int, sent: Option<real>): (r: Priced)
    ensures sent.Some? && sent.value > 0.0 ==> r.unitPrice == sent.value && r.totalPrice == Times(sent.value, q)
    ensures !(sent.Some? && sent.value > 0.0) ==> r.unitPrice == p.unitPrice && r.totalPrice == Times(p.unitPrice, q)
    ensures r.lucroUnitario == p.lucroUnitario && r.lucroTotal == p.lucroTotal && r.margem == p.margem
  {
    var unit := if sent.Some? && sent.value > 0.0 then sent.value else p.unitPrice;
    p.(unitPrice := unit, totalPrice := Times(unit, q))
  }

  /** The full create pricing. */
  function PriceOrder(item: Option<StockItem>, responsavel: Option<string>, loja: Option<string>, nome: string, q: int, sent: Option<real>): (r: Priced)
    ensures !(sent.Some? && sent.value > 0.0) ==> Consistent(r, BaseCost(item), q)
    ensures r.totalPrice == Times(r.unitPrice, q)
  {
    ApplyOverride(CreateRule(item, responsavel, loja, nome, q), q, sent)
  }

  /* ---------------------------------------------------------------------- */
  /* How the two chains relate                                              */
  /* ---------------------------------------------------------------------- */

  /** Without "açai", "açaí" or "acai" in the description the two chains agree: the
      preview's unit price is the create chain's price rounded to cents. */
  lemma PreviewAgreesWithCreate(item: Option<StockItem>, responsavel: Option<string>, loja: Option<string>, nome: string, q: Option<int>, n: int)
    requires !IsAcaiItem(nome)
    ensures Prever(item, responsavel, loja, nome, q).unitPrice == Round2(CreateRule(item, responsavel, loja, nome, n).unitPrice)
  {
  }

  /** The chains disagree only on an açaí item with a matched row and an allow-listed
      pair where the special rule did not fire: the preview discounts it and create
      does not. */
  lemma PreviewCreateDivergence(item: Option<StockItem>, responsavel: Option<string>, loja: Option<string>, nome: string, q: Option<int>, n: int)
    requires Prever(item, responsavel, loja, nome, q).unitPrice != Round2(CreateRule(item, responsavel, loja, nome, n).unitPrice)
    ensures IsAcaiItem(nome) && !IsBoxItem(nome) && item.Some? && IsClientDiscount(responsavel, loja)
    ensures !IsFixedPriceCase(responsavel, loja, nome)
    ensures Prever(item, responsavel, loja, nome, q).descontoAplicado
    ensures CreateRule(item, responsavel, loja, nome, n).unitPrice == BaseSale(item)
  {
  }

  /** For Rodrigo at Barra Açaí the accented spellings "açai" and "açaí" already
      trigger the special rule, so the chains can only disagree on "acai" written
      without the cedilla. */
  lemma RodrigoDivergesOnlyWithoutCedilla(item: Option<StockItem>, nome: string, q: Option<int>, n: int)
    requires Prever(item, Some("Rodrigo"), Some("Barra Açaí"), nome, q).unitPrice
          != Round2(CreateRule(item, Some("Rodrigo"), Some("Barra Açaí"), nome, n).unitPrice)
    ensures Contains(nome, "acai") && !Contains(nome, "aça") && !Contains(nome, "açai") && !Contains(nome, "açaí")
  {
    PreviewCreateDivergence(item, Some("Rodrigo"), Some("Barra Açaí"), nome, q, n);
    if Contains(nome, "açai") {
      ContainsPrefix(nome, "açai", "aça");
    }
    if Contains(nome, "açaí") {
      ContainsPrefix(nome, "açaí", "aça");
    }
  }

  /** The disagreement in numbers: Ericsson at Açaí da Ponte, any "açai" item with
      cost 10 and price 20. The preview quotes 15 and create charges 20. */
  lemma EricssonAcaiDiverges(it: StockItem, nome: string)
    requires it.valorUnitario == 10.0 && it.valorVenda == Some(20.0)
    requires Contains(nome, "açai") && 'x' !in nome
    ensures Prever(Some(it), Some("Ericsson"), Some("Açaí da Ponte"), nome, Some(1)).unitPrice == 15.0
    ensures CreateRule(Some(it), Some("Ericsson"), Some("Açaí da Ponte"), nome, 1).unitPrice == 20.0
  {
    NotBoxWithoutX(nome);
    assert PreviewRule(Some(it), Some("Ericsson"), Some("Açaí da Ponte"), nome) == (15.0, true);
    Round2Exact(1500);
    assert Round2(15.0) == 15.0;
  }

  /** The caller's price wins over the special rule too. */
  lemma OverrideBeatsFixedPrice(item: Option<StockItem>, nome: string, q: int, v: real)
    requires Contains(nome, "aça") && v > 0.0
    ensures PriceOrder(item, Some("Rodrigo"), Some("Barra Açaí"), nome, q, Some(v)).unitPrice == v
  {
  }

  /** After an override the stored margin still describes the computed price: a row
      with cost 10 and price 20 sold at a caller price of 40 stores a unit profit of
      10 and a margin of "50.00%", although at 40 the profit is 30 and the margin 75%. */
  lemma OverrideLeavesStaleProfit(it: StockItem)
    requires it.valorUnitario == 10.0 && it.valorVenda == Some(20.0)
    ensures var r := PriceOrder(Some(it), None, None, "polpa", 1, Some(40.0));
            && r.unitPrice == 40.0
            && r.lucroUnitario == 10.0
            && r.lucroUnitario != r.unitPrice - BaseCost(Some(it))
            && ParseMargin(r.margem) == Some(50.0)
  {
    PolpaNotExcluded();
    var c := CreateRule(Some(it), None, None, "polpa", 1);
    assert c.unitPrice == 20.0 && c.lucroUnitario == 10.0;
    assert c.margem == MarginText(10.0, 20.0);
    HalfMargin();
  }

  lemma PolpaNotExcluded()
    ensures !CreateExcluded("polpa")
  {
    var nome := "polpa";
    assert 'ç' !in nome && 'c' !in nome && 'x' !in nome;
    MissingCharNotContains(nome, "açai", 1);
    MissingCharNotContains(nome, "açaí", 1);
    MissingCharNotContains(nome, "acai", 1);
    NotBoxWithoutX(nome);
  }

  /** A profit of 10 on a price of 20 reads back as a 50% margin. */
  lemma HalfMargin()
    ensures ParseMargin(MarginText(10.0, 20.0)) == Some(50.0)
  {
    MarginDenotes(10.0, 20.0);
    assert 10.0 / 20.0 * 100.0 == 5000 as real / 100.0;
    Round2Exact(5000);
  }
}
