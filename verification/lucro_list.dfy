/**
 * The profit report page: its four filters (free text, month, fortnight and the
 * smart date field), the profit total of what passes, the column sort, and the
 * "by month" chart series.
 */
module LucroList {

  import opened Wrappers
  import opened Text
  import opened Js
  import opened Seqs
  import opened Rows
  import opened Calendar

  /** `p.lucratividade_total || 0`. */
  function Lucro(p: Row): real {
    if p.lucroTotal.Some? then p.lucroTotal.value else 0.0
  }

  /** The page's filter fields; the start-date field is taken as blank. */
  datatype Filters = Filters(filtro: string, mesFiltro: string, quinzena: string, filtroData: string)

  const NoFilters: Filters := Filters("", "", "", "")

  /** The free-text field: a lower-cased, untrimmed substring of the description,
      the salesperson or the store (missing ones read as ""). */
  predicate TextoOk(p: Row, filtro: string) {
    var t := Lower(filtro);
    || Contains(Lower(p.descricao), t)
    || Contains(Lower(p.responsavel.GetOr("")), t)
    || Contains(Lower(p.localidade.GetOr("")), t)
  }

  /** The month select: blank keeps all, otherwise the stored month must equal it. */
  predicate MesOk(p: Row, mesFiltro: string) {
    mesFiltro == "" || p.mesSaida == Some(mesFiltro)
  }

  /** The page only builds a `Date` for a row with a truthy day and month. */
  predicate HasDate(p: Row) {
    TruthyInt(p.diaSaida) && TruthyStr(p.mesSaida)
  }

  /** `dataPedido.getDate()` for `new Date(anoAtual, Number(mes) - 1, dia)`;
      `None` when the month is not a number and the date is invalid. */
  function DiaDoPedido(p: Row, anoAtual: int): (r: Option<int>)
    requires HasDate(p)
    ensures r.Some? ==> 1 <= r.value <= 31
    ensures r.None? <==> NumberOf(p.mesSaida.value).None?
  {
    match NumberOf(p.mesSaida.value)
    case None => None
    case Some(n) => Some(DayOfMonth(FullYear(anoAtual), n - 1, p.diaSaida.value))
  }

  /** The fortnight select: "1" keeps days 1 to 15, "2" keeps days 16 to 31, and
      anything else keeps all; a row without a date is never excluded, and one
      whose date is invalid fails both "1" and "2". */
  predicate QuinzenaOk(p: Row, quinzena: string, anoAtual: int) {
    if quinzena == "" || !HasDate(p) then true
    else
      match DiaDoPedido(p, anoAtual)
      case None => quinzena != "1" && quinzena != "2"
      case Some(dia) => (quinzena == "1" ==> 1 <= dia <= 15) && (quinzena == "2" ==> 16 <= dia <= 31)
  }

  /** Whether a row passes every filter; the typed year of a full date is
      compared with the current year. */
  predicate Keep(p: Row, f: Filters, anoAtual: int) {
    && DateOk(ParseDateFilter(f.filtroData), p.diaSaida, p.mesSaida, Some(anoAtual))
    && TextoOk(p, f.filtro)
    && MesOk(p, f.mesFiltro)
    && QuinzenaOk(p, f.quinzena, anoAtual)
  }

  /** `pedidosFiltrados`: the rows that pass, in order; with every field blank,
      all rows. */
  function PedidosFiltrados(pedidos: seq<Row>, f: Filters, anoAtual: int): (r: seq<Row>)
    ensures Sublist(r, pedidos)
    ensures forall i :: 0 <= i < |r| ==> r[i] in pedidos && Keep(r[i], f, anoAtual)
    ensures forall i :: 0 <= i < |pedidos| && Keep(pedidos[i], f, anoAtual) ==> pedidos[i] in r
    ensures f == NoFilters ==> r == pedidos
  {
    assert f == NoFilters ==> forall i :: 0 <= i < |pedidos| ==> Keep(pedidos[i], f, anoAtual) by {
      if f == NoFilters {
        forall i | 0 <= i < |pedidos| ensures Keep(pedidos[i], f, anoAtual) {
          NoFiltersKeep(pedidos[i], anoAtual);
        }
      }
    }
    Filter(pedidos, p => Keep(p, f, anoAtual))
  }

  /** With every field blank a row passes: "" is a substring of anything. */
  lemma NoFiltersKeep(p: Row, anoAtual: int)
    ensures Keep(p, NoFilters, anoAtual)
  {
    var f := NoFilters;
    assert f.filtro == "" && f.mesFiltro == "" && f.quinzena == "" && f.filtroData == "";
    assert TextoOk(p, f.filtro) by {
      EmptyTextKeeps(p);
    }
    assert DateOk(ParseDateFilter(f.filtroData), p.diaSaida, p.mesSaida, Some(anoAtual)) by {
      BlankDateIsAny();
    }
    assert MesOk(p, f.mesFiltro);
    assert QuinzenaOk(p, f.quinzena, anoAtual);
  }

  lemma EmptyTextKeeps(p: Row)
    ensures TextoOk(p, "")
  {
    assert Lower("") == "";
    assert StartsWith(Lower(p.descricao), "");
  }

  lemma BlankDateIsAny()
    ensures ParseDateFilter("") == AnyDate
  {
    assert Trim("") == "";
  }

  /** A chosen month keeps exactly the rows stored under that month string. */
  lemma MonthFilterExact(p: Row, f: Filters, anoAtual: int)
    requires f.mesFiltro != ""
    ensures Keep(p, f, anoAtual) <==> Keep(p, f.(mesFiltro := ""), anoAtual) && p.mesSaida == Some(f.mesFiltro)
  {
  }

  /** For a row with a date whose month is a number, exactly one of the two
      fortnights keeps it. */
  lemma FortnightsPartition(p: Row, anoAtual: int)
    requires HasDate(p) && NumberOf(p.mesSaida.value).Some?
    ensures QuinzenaOk(p, "1", anoAtual) != QuinzenaOk(p, "2", anoAtual)
  {
  }

  /** For a real calendar date the fortnight is decided by the stored day. */
  lemma FortnightOfValidDate(p: Row, anoAtual: int)
    requires HasDate(p)
    requires NumberOf(p.mesSaida.value).Some?
    requires var n := NumberOf(p.mesSaida.value).value;
             1 <= n <= 12 && 1 <= p.diaSaida.value <= DaysIn(FullYear(anoAtual), n - 1)
    ensures QuinzenaOk(p, "1", anoAtual) <==> p.diaSaida.value <= 15
  {
  }

  /** A row without a truthy day or month passes every fortnight choice. */
  lemma NoDateNoFortnight(p: Row, quinzena: string, anoAtual: int)
    requires !HasDate(p)
    ensures QuinzenaOk(p, quinzena, anoAtual)
  {
  }

  /** A full date in a year other than the current one hides every row. */
  lemma OtherYearHidesAll(pedidos: seq<Row>, f: Filters, anoAtual: int)
    requires ParseDateFilter(f.filtroData).DayMonthYear? && ParseDateFilter(f.filtroData).ano != anoAtual
    ensures PedidosFiltrados(pedidos, f, anoAtual) == []
  {
    forall i | 0 <= i < |pedidos| ensures !Keep(pedidos[i], f, anoAtual) {
      OtherYearHidesRow(pedidos[i], f, anoAtual);
    }
  }

  lemma OtherYearHidesRow(p: Row, f: Filters, anoAtual: int)
    requires ParseDateFilter(f.filtroData).DayMonthYear? && ParseDateFilter(f.filtroData).ano != anoAtual
    ensures !Keep(p, f, anoAtual)
  {
  }

  /** `lucroTotalMes`: the profit of the filtered rows. With the profit of the
      hidden rows it makes up the profit of all rows. */
  function LucroTotalMes(pedidos: seq<Row>, f: Filters, anoAtual: int): (t: real)
    ensures t + Sum(Filter(pedidos, p => !Keep(p, f, anoAtual)), Lucro) == Sum(pedidos, Lucro)
    ensures f == NoFilters ==> t == Sum(pedidos, Lucro)
  {
    SumComplementSplit(pedidos, Lucro, p => Keep(p, f, anoAtual), p => !Keep(p, f, anoAtual));
    Sum(PedidosFiltrados(pedidos, f, anoAtual), Lucro)
  }

  /* ---------------------------------------------------------------------- */
  /* Column sort                                                            */
  /* ---------------------------------------------------------------------- */

  /** The sort state: the last clicked column and its direction. */
  datatype Ordem = Ordem(coluna: string, asc: bool)

  const InitialOrdem: Ordem := Ordem("descricao", true)

  /** Clicking a column: the same column flips the direction, a new one starts
      ascending. */
  function NextOrdem(o: Ordem, coluna: string): (r: Ordem)
    ensures r.coluna == coluna
    ensures o.coluna != coluna ==> r.asc
    ensures o.coluna == coluna ==> r.asc != o.asc
  {
    Ordem(coluna, if o.coluna == coluna then !o.asc else true)
  }

  /** Clicking the same column twice restores the direction. */
  lemma ClickTwiceRestores(o: Ordem)
    ensures NextOrdem(NextOrdem(o, o.coluna), o.coluna) == o
  {
  }

  /** The quantity column's value: a missing quantity loads as 0. */
  function Quant(p: Row): int {
    if p.quantSaida.Some? then p.quantSaida.value else 0
  }

  predicate QuantBefore(asc: bool, a: Row, b: Row) {
    if asc then Quant(a) < Quant(b) else Quant(b) < Quant(a)
  }

  /** Clicking "Quantidade": the next sort state and the rows stably sorted by
      quantity in its direction. */
  function OrdenarPorQuantidade(pedidos: seq<Row>, o: Ordem): (r: (Ordem, seq<Row>))
    ensures r.0 == NextOrdem(o, "quant_saida")
    ensures multiset(r.1) == multiset(pedidos)
    ensures forall i, j :: 0 <= i < j < |r.1| ==> if r.0.asc then Quant(r.1[i]) <= Quant(r.1[j]) else Quant(r.1[i]) >= Quant(r.1[j])
  {
    var next := NextOrdem(o, "quant_saida");
    var lt := (a: Row, b: Row) => QuantBefore(next.asc, a, b);
    assert StrictWeakOrder(lt);
    (next, SortBy(pedidos, lt))
  }

  /* ---------------------------------------------------------------------- */
  /* The "by month" chart                                                   */
  /* ---------------------------------------------------------------------- */

  /** Strictly increasing in JavaScript's string order: sorted and distinct. */
  predicate StrictlySorted(s: seq<string>) {
    forall i, j :: 0 <= i < j < |s| ==> LexLess(s[i], s[j])
  }

  /** Puts `x` into a strictly sorted list unless it is already there. */
  function InsertUnique(x: string, s: seq<string>): (r: seq<string>)
    requires StrictlySorted(s)
    ensures StrictlySorted(r)
    ensures forall m :: m in r <==> m == x || m in s
  {
    if |s| == 0 then [x]
    else if x == s[0] then s
    else if LexLess(x, s[0]) then
      assert forall i :: 0 <= i < |s| ==> LexLess(x, s[i]) by {
        forall i | 0 <= i < |s| ensures LexLess(x, s[i]) {
          if i > 0 { LexLessTransitive(x, s[0], s[i]); }
        }
      }
      [x] + s
    else
      LexLessTotal(x, s[0]);
      var t := InsertUnique(x, s[1..]);
      assert forall k :: 0 <= k < |t| ==> LexLess(s[0], t[k]) by {
        forall k | 0 <= k < |t| ensures LexLess(s[0], t[k]) {
          assert t[k] in t;
        }
      }
      [s[0]] + t
  }

  /** The chart labels: the distinct truthy months of the rows, sorted. */
  function Meses(pedidos: seq<Row>): (labels: seq<string>)
    ensures StrictlySorted(labels)
    ensures forall m :: m in labels <==> m != "" && exists i :: 0 <= i < |pedidos| && pedidos[i].mesSaida == Some(m)
  {
    if |pedidos| == 0 then []
    else
      var rest := Meses(pedidos[1..]);
      assert forall i :: 1 <= i < |pedidos| ==> pedidos[i] == pedidos[1..][i - 1];
      if TruthyStr(pedidos[0].mesSaida) then InsertUnique(pedidos[0].mesSaida.value, rest) else rest
  }

  /** The profit of the rows stored under one month. */
  function Bucket(pedidos: seq<Row>, mes: string): real {
    Sum(Filter(pedidos, (p: Row) => p.mesSaida == Some(mes)), Lucro)
  }

  /** The chart values, one per label. */
  function Valores(pedidos: seq<Row>): (v: seq<real>)
    ensures |v| == |Meses(pedidos)|
    ensures forall i :: 0 <= i < |v| ==> v[i] == Bucket(pedidos, Meses(pedidos)[i])
  {
    var labels := Meses(pedidos);
    seq(|labels|, i requires 0 <= i < |labels| => Bucket(pedidos, labels[i]))
  }

  function SumReals(v: seq<real>): real {
    if |v| == 0 then 0.0 else v[0] + SumReals(v[1..])
  }

  /** Whether a row has a truthy month among the labels. */
  predicate InLabels(p: Row, labels: seq<string>) {
    p.mesSaida.Some? && p.mesSaida.value in labels
  }

  /** The chart loses no profit: its values add up to the profit of the rows
      that have a month. */
  lemma ChartConservesProfit(pedidos: seq<Row>)
    ensures SumReals(Valores(pedidos)) == Sum(Filter(pedidos, (p: Row) => TruthyStr(p.mesSaida)), Lucro)
  {
    var labels := Meses(pedidos);
    forall i, j | 0 <= i < j < |labels| ensures labels[i] != labels[j] {
      LexLessIrreflexive(labels[i]);
    }
    BucketsSum(labels, pedidos);
    SumBucketsIsSumValores(labels, pedidos, Valores(pedidos));
    forall i | 0 <= i < |pedidos| ensures InLabels(pedidos[i], labels) == TruthyStr(pedidos[i].mesSaida) {
      if TruthyStr(pedidos[i].mesSaida) {
        assert pedidos[i].mesSaida.value in labels;
      }
    }
    FilterExt(pedidos, p => InLabels(p, labels), (p: Row) => TruthyStr(p.mesSaida));
  }

  function SumBuckets(labels: seq<string>, pedidos: seq<Row>): real {
    if |labels| == 0 then 0.0 else Bucket(pedidos, labels[0]) + SumBuckets(labels[1..], pedidos)
  }

  lemma {:induction false} SumBucketsIsSumValores(labels: seq<string>, pedidos: seq<Row>, v: seq<real>)
    requires |v| == |labels| && forall i :: 0 <= i < |v| ==> v[i] == Bucket(pedidos, labels[i])
    ensures SumReals(v) == SumBuckets(labels, pedidos)
  {
    if |v| > 0 {
      SumBucketsIsSumValores(labels[1..], pedidos, v[1..]);
    }
  }

  predicate Distinct(labels: seq<string>) {
    forall i, j :: 0 <= i < j < |labels| ==> labels[i] != labels[j]
  }

  /** Over distinct labels, the buckets add up to the profit of the rows whose
      month is one of them. */
  lemma {:induction false} BucketsSum(labels: seq<string>, pedidos: seq<Row>)
    requires Distinct(labels)
    ensures SumBuckets(labels, pedidos) == Sum(Filter(pedidos, p => InLabels(p, labels)), Lucro)
    decreases |pedidos|
  {
    if |pedidos| == 0 {
      SumBucketsEmpty(labels, pedidos);
    } else {
      var h, t := pedidos[0], pedidos[1..];
      BucketsSum(labels, t);
      SumBucketsCons(labels, pedidos);
    }
  }

  lemma {:induction false} SumBucketsEmpty(labels: seq<string>, pedidos: seq<Row>)
    requires |pedidos| == 0
    ensures SumBuckets(labels, pedidos) == 0.0
  {
    if |labels| > 0 {
      SumBucketsEmpty(labels[1..], pedidos);
    }
  }

  /** Peeling the first row off every bucket at once. */
  lemma {:induction false} SumBucketsCons(labels: seq<string>, pedidos: seq<Row>)
    requires Distinct(labels) && |pedidos| > 0
    ensures SumBuckets(labels, pedidos)
            == (if InLabels(pedidos[0], labels) then Lucro(pedidos[0]) else 0.0) + SumBuckets(labels, pedidos[1..])
  {
    if |labels| > 0 {
      SumBucketsCons(labels[1..], pedidos);
      var h := pedidos[0];
      assert InLabels(h, labels) <==> h.mesSaida == Some(labels[0]) || InLabels(h, labels[1..]);
      assert h.mesSaida == Some(labels[0]) ==> !InLabels(h, labels[1..]);
    }
  }
}
