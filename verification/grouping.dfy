/**
 * The "profit by salesperson and store" table of the profit report's PDF. Rows
 * are folded in order into groups looked up by a key; a new key opens a group
 * labelled with that row's salesperson and store (defaults "Sem responsável"
 * and "Sem loja"), and every row adds its profit to its group.
 *
 * The page keys a group by the string `responsavel + "__" + loja`. Two different
 * (salesperson, store) pairs can produce the same string, and then both pairs'
 * profit is shown under the first pair's labels. `Agrupar` is the page as
 * written; `AgruparPorPar` keys by the pair itself.
 */
module Grouping {

  import opened Wrappers
  import opened Js
  import opened Seqs
  import opened Rows
  import opened LucroList

  /** The salesperson label of a row. */
  function RespOf(p: Row): string {
    if TruthyStr(p.responsavel) then p.responsavel.value else "Sem responsável"
  }

  /** The store label of a row. */
  function LojaOf(p: Row): string {
    if TruthyStr(p.localidade) then p.localidade.value else "Sem loja"
  }

  /** A table line: the lookup key, the labels of the row that opened it, and
      the accumulated profit. */
  datatype Group<K> = Group(key: K, responsavel: string, loja: string, valor: real)

  /** The line with key `k`, if any. */
  function Find<K(==)>(gs: seq<Group<K>>, k: K): (r: Option<nat>)
    ensures r.Some? ==> r.value < |gs| && gs[r.value].key == k
    ensures r.None? ==> forall i :: 0 <= i < |gs| ==> gs[i].key != k
  {
    if |gs| == 0 then None
    else if gs[0].key == k then Some(0)
    else match Find(gs[1..], k)
      case None => None
      case Some(i) => Some(i + 1)
  }

  /** One `forEach` step: add the row's profit to its line, opening the line if
      the key is new. */
  function AddRow<K(==)>(gs: seq<Group<K>>, p: Row, key: Row -> K): (r: seq<Group<K>>)
  {
    match Find(gs, key(p))
    case Some(i) => gs[i := gs[i].(valor := gs[i].valor + Lucro(p))]
    case None => gs + [Group(key(p), RespOf(p), LojaOf(p), Lucro(p))]
  }

  /** The profit of the rows with a given key. */
  function KeySum<K(==)>(pedidos: seq<Row>, key: Row -> K, k: K): real {
    Sum(Filter(pedidos, p => key(p) == k), Lucro)
  }

  /** Some row with the group's key carries the group's labels. */
  predicate LabelledBy<K(==)>(g: Group<K>, pedidos: seq<Row>, key: Row -> K) {
    exists j :: 0 <= j < |pedidos| && key(pedidos[j]) == g.key && RespOf(pedidos[j]) == g.responsavel && LojaOf(pedidos[j]) == g.loja
  }

  /** Line keys are pairwise different. */
  predicate DistinctKeys<K(==)>(gs: seq<Group<K>>) {
    forall i, j :: 0 <= i < j < |gs| ==> gs[i].key != gs[j].key
  }

  /** Every line holds exactly the profit of the rows with its key. */
  predicate SumsByKey<K(==)>(gs: seq<Group<K>>, pedidos: seq<Row>, key: Row -> K) {
    forall i :: 0 <= i < |gs| ==> gs[i].valor == KeySum(pedidos, key, gs[i].key)
  }

  /** Every line is labelled by one of its own rows. */
  predicate Labelled<K(==)>(gs: seq<Group<K>>, pedidos: seq<Row>, key: Row -> K) {
    forall i :: 0 <= i < |gs| ==> LabelledBy(gs[i], pedidos, key)
  }

  /** Every row's key has a line. */
  predicate Covers<K(==)>(gs: seq<Group<K>>, pedidos: seq<Row>, key: Row -> K) {
    forall j :: 0 <= j < |pedidos| ==> Find(gs, key(pedidos[j])).Some?
  }

  /** The table for any key: one line per distinct key, each holding the
      profit of exactly the rows with that key and labelled by one of them. */
  function GroupBy<K(==)>(pedidos: seq<Row>, key: Row -> K): (gs: seq<Group<K>>)
    ensures DistinctKeys(gs)
    ensures SumsByKey(gs, pedidos, key)
    ensures Labelled(gs, pedidos, key)
    ensures Covers(gs, pedidos, key)
    decreases |pedidos|
  {
    if |pedidos| == 0 then []
    else
      var init := pedidos[..|pedidos| - 1];
      var p := pedidos[|pedidos| - 1];
      var gs := GroupBy(init, key);
      AddRowStep(gs, pedidos, key);
      AddRow(gs, p, key)
  }

  /** One fold step, adding the last row, keeps the table's four properties. */
  lemma AddRowStep<K>(gs: seq<Group<K>>, pedidos: seq<Row>, key: Row -> K)
    requires |pedidos| > 0
    requires var init := pedidos[..|pedidos| - 1];
             DistinctKeys(gs) && SumsByKey(gs, init, key) && Labelled(gs, init, key) && Covers(gs, init, key)
    ensures var r := AddRow(gs, pedidos[|pedidos| - 1], key);
            DistinctKeys(r) && SumsByKey(r, pedidos, key) && Labelled(r, pedidos, key) && Covers(r, pedidos, key)
  {
    var init, p := pedidos[..|pedidos| - 1], pedidos[|pedidos| - 1];
    assert pedidos == init + [p];
    AddRowDistinct(gs, p, key);
    AddRowSums(gs, init, p, key);
    AddRowLabels(gs, init, p, key);
    AddRowCovers(gs, init, p, key);
  }

  lemma AddRowDistinct<K>(gs: seq<Group<K>>, p: Row, key: Row -> K)
    requires DistinctKeys(gs)
    ensures DistinctKeys(AddRow(gs, p, key))
  {
  }

  /** Appending a row adds its profit to its own key's sum only. */
  lemma KeySumSnoc<K>(init: seq<Row>, p: Row, key: Row -> K, k: K)
    ensures KeySum(init + [p], key, k) == KeySum(init, key, k) + (if key(p) == k then Lucro(p) else 0.0)
  {
    FilterAppend(init, [p], q => key(q) == k);
    SumAppend(Filter(init, q => key(q) == k), Filter([p], q => key(q) == k), Lucro);
  }

  lemma AddRowSums<K>(gs: seq<Group<K>>, init: seq<Row>, p: Row, key: Row -> K)
    requires DistinctKeys(gs) && SumsByKey(gs, init, key) && Covers(gs, init, key)
    ensures SumsByKey(AddRow(gs, p, key), init + [p], key)
  {
    match Find(gs, key(p))
    case Some(h) => AddRowSumsFound(gs, init, p, key, h);
    case None => AddRowSumsNew(gs, init, p, key);
  }

  lemma AddRowSumsFound<K>(gs: seq<Group<K>>, init: seq<Row>, p: Row, key: Row -> K, h: nat)
    requires DistinctKeys(gs) && SumsByKey(gs, init, key)
    requires Find(gs, key(p)) == Some(h)
    ensures SumsByKey(AddRow(gs, p, key), init + [p], key)
  {
    var r := AddRow(gs, p, key);
    assert r == gs[h := gs[h].(valor := gs[h].valor + Lucro(p))];
    forall i | 0 <= i < |r| ensures r[i].valor == KeySum(init + [p], key, r[i].key) {
      KeySumSnoc(init, p, key, r[i].key);
      if i != h {
        assert r[i] == gs[i] && gs[i].key != gs[h].key;
      }
    }
  }

  lemma AddRowSumsNew<K>(gs: seq<Group<K>>, init: seq<Row>, p: Row, key: Row -> K)
    requires SumsByKey(gs, init, key) && Covers(gs, init, key)
    requires Find(gs, key(p)).None?
    ensures SumsByKey(AddRow(gs, p, key), init + [p], key)
  {
    var r := AddRow(gs, p, key);
    assert r == gs + [Group(key(p), RespOf(p), LojaOf(p), Lucro(p))];
    KeySumAbsent(gs, init, key, key(p));
    forall i | 0 <= i < |r| ensures r[i].valor == KeySum(init + [p], key, r[i].key) {
      KeySumSnoc(init, p, key, r[i].key);
    }
  }

  /** A key no line has collects no profit, provided every row's key has a line. */
  lemma KeySumAbsent<K>(gs: seq<Group<K>>, init: seq<Row>, key: Row -> K, k: K)
    requires Covers(gs, init, key) && Find(gs, k).None?
    ensures KeySum(init, key, k) == 0.0
  {
  }

  lemma AddRowLabels<K>(gs: seq<Group<K>>, init: seq<Row>, p: Row, key: Row -> K)
    requires Labelled(gs, init, key)
    ensures Labelled(AddRow(gs, p, key), init + [p], key)
  {
    var r, pedidos := AddRow(gs, p, key), init + [p];
    forall i | 0 <= i < |r| ensures LabelledBy(r[i], pedidos, key) {
      if i < |gs| {
        assert LabelledBy(gs[i], init, key);
        var j :| 0 <= j < |init| && key(init[j]) == gs[i].key && RespOf(init[j]) == gs[i].responsavel && LojaOf(init[j]) == gs[i].loja;
        assert pedidos[j] == init[j];
      } else {
        assert pedidos[|init|] == p;
      }
    }
  }

  lemma AddRowCovers<K>(gs: seq<Group<K>>, init: seq<Row>, p: Row, key: Row -> K)
    requires Covers(gs, init, key)
    ensures Covers(AddRow(gs, p, key), init + [p], key)
  {
    var r, pedidos := AddRow(gs, p, key), init + [p];
    forall j | 0 <= j < |pedidos| ensures Find(r, key(pedidos[j])).Some? {
      if j < |init| {
        assert pedidos[j] == init[j];
        var i := Find(gs, key(init[j])).value;
        assert r[i].key == gs[i].key;
        FindComplete(r, i, key(init[j]));
      } else {
        assert pedidos[j] == p;
        var i := if Find(gs, key(p)).Some? then Find(gs, key(p)).value else |gs|;
        FindComplete(r, i, key(p));
      }
    }
  }

  /** `Find` succeeds whenever some line has the key. */
  lemma FindComplete<K>(gs: seq<Group<K>>, i: int, k: K)
    requires 0 <= i < |gs| && gs[i].key == k
    ensures Find(gs, k).Some?
  {
  }

  /** The profit over all lines. */
  function Total<K>(gs: seq<Group<K>>): real {
    if |gs| == 0 then 0.0 else gs[0].valor + Total(gs[1..])
  }

  /** The table conserves profit: its lines add up to the profit of all rows,
      which is `lucroTotalMes` printed under it. */
  lemma {:induction false} GroupByConserves<K>(pedidos: seq<Row>, key: Row -> K)
    ensures Total(GroupBy(pedidos, key)) == Sum(pedidos, Lucro)
    decreases |pedidos|
  {
    if |pedidos| > 0 {
      GroupByConserves(pedidos[..|pedidos| - 1], key);
      GroupByLastTotal(pedidos, key);
      SumLast(pedidos);
    }
  }

  /** The last row adds its profit to the table's total. */
  lemma GroupByLastTotal<K>(pedidos: seq<Row>, key: Row -> K)
    requires |pedidos| > 0
    ensures Total(GroupBy(pedidos, key)) == Total(GroupBy(pedidos[..|pedidos| - 1], key)) + Lucro(pedidos[|pedidos| - 1])
  {
    AddRowTotal(GroupBy(pedidos[..|pedidos| - 1], key), pedidos[|pedidos| - 1], key);
  }

  lemma SumLast(pedidos: seq<Row>)
    requires |pedidos| > 0
    ensures Sum(pedidos, Lucro) == Sum(pedidos[..|pedidos| - 1], Lucro) + Lucro(pedidos[|pedidos| - 1])
  {
    assert pedidos == pedidos[..|pedidos| - 1] + [pedidos[|pedidos| - 1]];
    SumAppend(pedidos[..|pedidos| - 1], [pedidos[|pedidos| - 1]], Lucro);
  }

  lemma AddRowTotal<K>(gs: seq<Group<K>>, p: Row, key: Row -> K)
    ensures Total(AddRow(gs, p, key)) == Total(gs) + Lucro(p)
  {
    match Find(gs, key(p))
    case Some(i) => TotalUpdate(gs, i, Lucro(p));
    case None => TotalAppend(gs, [Group(key(p), RespOf(p), LojaOf(p), Lucro(p))]);
  }

  lemma {:induction false} TotalUpdate<K>(gs: seq<Group<K>>, i: int, x: real)
    requires 0 <= i < |gs|
    ensures Total(gs[i := gs[i].(valor := gs[i].valor + x)]) == Total(gs) + x
  {
    if i > 0 {
      TotalUpdate(gs[1..], i - 1, x);
      assert gs[i := gs[i].(valor := gs[i].valor + x)][1..] == gs[1..][i - 1 := gs[i].(valor := gs[i].valor + x)];
    }
  }

  lemma {:induction false} TotalAppend<K>(a: seq<Group<K>>, b: seq<Group<K>>)
    ensures Total(a + b) == Total(a) + Total(b)
  {
    if |a| == 0 {
      assert a + b == b;
    } else {
      assert (a + b)[1..] == a[1..] + b;
      TotalAppend(a[1..], b);
    }
  }

  /* ---------------------------------------------------------------------- */
  /* As written and as intended                                             */
  /* ---------------------------------------------------------------------- */

  /** The page's key. */
  function ChaveTexto(p: Row): string {
    RespOf(p) + "__" + LojaOf(p)
  }

  /** The table as the page builds it. */
  function Agrupar(pedidos: seq<Row>): (gs: seq<Group<string>>)
    ensures Total(gs) == Sum(pedidos, Lucro)
  {
    GroupByConserves(pedidos, ChaveTexto);
    GroupBy(pedidos, ChaveTexto)
  }

  /** The table of the report's filtered rows adds up to the profit total the
      page shows for the same filters. */
  lemma AgruparMatchesLucroTotalMes(pedidos: seq<Row>, f: Filters, anoAtual: int)
    ensures Total(Agrupar(PedidosFiltrados(pedidos, f, anoAtual))) == LucroTotalMes(pedidos, f, anoAtual)
  {
  }

  /** Two rows of different pairs whose keys collide end up on one line, under
      the first row's labels, so the second pair's profit is misattributed. */
  lemma KeyCollisionMergesPairs(a: Row, b: Row)
    requires a.responsavel == Some("Ana__Centro") && a.localidade == Some("Loja")
    requires b.responsavel == Some("Ana") && b.localidade == Some("Centro__Loja")
    ensures (RespOf(a), LojaOf(a)) != (RespOf(b), LojaOf(b))
    ensures var gs := Agrupar([a, b]);
            |gs| == 1 && gs[0].responsavel == "Ana__Centro" && gs[0].loja == "Loja"
            && gs[0].valor == Lucro(a) + Lucro(b)
  {
    var k := ChaveTexto;
    CollidingKeys(a, b);
    GroupBySingle(a, k);
    var g1 := GroupBy([a], k);
    assert Find(g1, k(b)) == Some(0);
    assert [a, b] == [a] + [b];
    GroupBySnoc([a], b, k);
  }

  /** The two rows' keys are the same string. */
  lemma CollidingKeys(a: Row, b: Row)
    requires a.responsavel == Some("Ana__Centro") && a.localidade == Some("Loja")
    requires b.responsavel == Some("Ana") && b.localidade == Some("Centro__Loja")
    ensures ChaveTexto(a) == ChaveTexto(b)
    ensures RespOf(a) == "Ana__Centro" && LojaOf(a) == "Loja" && RespOf(b) == "Ana"
  {
    assert RespOf(a) == "Ana__Centro" && LojaOf(a) == "Loja";
    assert RespOf(b) == "Ana" && LojaOf(b) == "Centro__Loja";
    assert "Ana__Centro" + "__" + "Loja" == "Ana" + "__" + "Centro__Loja";
  }

  /** Adding one row to the list is one more fold step. */
  lemma GroupBySnoc<K>(pedidos: seq<Row>, p: Row, key: Row -> K)
    ensures GroupBy(pedidos + [p], key) == AddRow(GroupBy(pedidos, key), p, key)
  {
    assert (pedidos + [p])[..|pedidos|] == pedidos;
  }

  /** A single row opens a single line. */
  lemma GroupBySingle<K>(p: Row, key: Row -> K)
    ensures GroupBy([p], key) == [Group(key(p), RespOf(p), LojaOf(p), Lucro(p))]
  {
    assert [p] == [] + [p];
    GroupBySnoc([], p, key);
  }

  /** The evidently intended key: the pair itself. */
  function ChavePar(p: Row): (string, string) {
    (RespOf(p), LojaOf(p))
  }

  /** The profit of the rows of one (salesperson, store) pair. */
  function PairSum(pedidos: seq<Row>, responsavel: string, loja: string): real {
    Sum(Filter(pedidos, p => RespOf(p) == responsavel && LojaOf(p) == loja), Lucro)
  }

  /** Some line carries the labels `responsavel` and `loja`. */
  predicate HasLine<K>(gs: seq<Group<K>>, responsavel: string, loja: string) {
    exists i :: 0 <= i < |gs| && gs[i].responsavel == responsavel && gs[i].loja == loja
  }

  /** With the pair as key, every line's key is its own labels. */
  lemma PairKeyIsLabel(gs: seq<Group<(string, string)>>, pedidos: seq<Row>, i: int)
    requires Labelled(gs, pedidos, ChavePar) && 0 <= i < |gs|
    ensures gs[i].key == (gs[i].responsavel, gs[i].loja)
  {
    assert LabelledBy(gs[i], pedidos, ChavePar);
  }

  /** The table keyed by the pair: one line per distinct (salesperson, store)
      pair, labelled by that pair and holding exactly its rows' profit; every
      row's pair has a line, and the lines add up to the profit of all rows. */
  function AgruparPorPar(pedidos: seq<Row>): (gs: seq<Group<(string, string)>>)
    ensures forall i, j :: 0 <= i < j < |gs| ==> (gs[i].responsavel, gs[i].loja) != (gs[j].responsavel, gs[j].loja)
    ensures forall i :: 0 <= i < |gs| ==> gs[i].valor == PairSum(pedidos, gs[i].responsavel, gs[i].loja)
    ensures forall j :: 0 <= j < |pedidos| ==>
              HasLine(gs, RespOf(pedidos[j]), LojaOf(pedidos[j]))
    ensures Total(gs) == Sum(pedidos, Lucro)
  {
    var gs := GroupBy(pedidos, ChavePar);
    GroupByConserves(pedidos, ChavePar);
    PairLines(gs, pedidos);
    gs
  }

  lemma PairLines(gs: seq<Group<(string, string)>>, pedidos: seq<Row>)
    requires DistinctKeys(gs) && SumsByKey(gs, pedidos, ChavePar) && Labelled(gs, pedidos, ChavePar) && Covers(gs, pedidos, ChavePar)
    ensures forall i, j :: 0 <= i < j < |gs| ==> (gs[i].responsavel, gs[i].loja) != (gs[j].responsavel, gs[j].loja)
    ensures forall i :: 0 <= i < |gs| ==> gs[i].valor == PairSum(pedidos, gs[i].responsavel, gs[i].loja)
    ensures forall j :: 0 <= j < |pedidos| ==>
              HasLine(gs, RespOf(pedidos[j]), LojaOf(pedidos[j]))
  {
    PairLinesDistinct(gs, pedidos);
    PairLinesSums(gs, pedidos);
    PairLinesCover(gs, pedidos);
  }

  lemma PairLinesDistinct(gs: seq<Group<(string, string)>>, pedidos: seq<Row>)
    requires DistinctKeys(gs) && Labelled(gs, pedidos, ChavePar)
    ensures forall i, j :: 0 <= i < j < |gs| ==> (gs[i].responsavel, gs[i].loja) != (gs[j].responsavel, gs[j].loja)
  {
    forall i, j | 0 <= i < j < |gs| ensures (gs[i].responsavel, gs[i].loja) != (gs[j].responsavel, gs[j].loja) {
      PairKeyIsLabel(gs, pedidos, i);
      PairKeyIsLabel(gs, pedidos, j);
    }
  }

  lemma PairLinesSums(gs: seq<Group<(string, string)>>, pedidos: seq<Row>)
    requires SumsByKey(gs, pedidos, ChavePar) && Labelled(gs, pedidos, ChavePar)
    ensures forall i :: 0 <= i < |gs| ==> gs[i].valor == PairSum(pedidos, gs[i].responsavel, gs[i].loja)
  {
    forall i | 0 <= i < |gs| ensures gs[i].valor == PairSum(pedidos, gs[i].responsavel, gs[i].loja) {
      PairKeyIsLabel(gs, pedidos, i);
      KeySumIsPairSum(pedidos, gs[i].responsavel, gs[i].loja);
    }
  }

  /** Summing by the pair key is summing the pair's rows. */
  lemma KeySumIsPairSum(pedidos: seq<Row>, r: string, l: string)
    ensures KeySum(pedidos, ChavePar, (r, l)) == PairSum(pedidos, r, l)
  {
    KeySumExt(pedidos, ChavePar, (r, l), p => RespOf(p) == r && LojaOf(p) == l);
  }

  /** A key's sum is the sum over any filter that picks the same rows. */
  lemma KeySumExt<K>(pedidos: seq<Row>, key: Row -> K, k: K, q: Row -> bool)
    requires forall i :: 0 <= i < |pedidos| ==> (key(pedidos[i]) == k) == q(pedidos[i])
    ensures KeySum(pedidos, key, k) == Sum(Filter(pedidos, q), Lucro)
  {
    FilterExt(pedidos, p => key(p) == k, q);
  }

  lemma PairLinesCover(gs: seq<Group<(string, string)>>, pedidos: seq<Row>)
    requires Labelled(gs, pedidos, ChavePar) && Covers(gs, pedidos, ChavePar)
    ensures forall j :: 0 <= j < |pedidos| ==>
              HasLine(gs, RespOf(pedidos[j]), LojaOf(pedidos[j]))
  {
    forall j | 0 <= j < |pedidos|
      ensures HasLine(gs, RespOf(pedidos[j]), LojaOf(pedidos[j]))
    {
      var i := Find(gs, ChavePar(pedidos[j])).value;
      PairKeyIsLabel(gs, pedidos, i);
    }
  }
}
