/**
 * What the list pages see of an order (the JSON of `GET /pedidos`) and the
 * "smart" date field both pages share: the typed text is reduced to its digits,
 * and 2, 4 or 8 of them constrain day, day and month, or day, month and year.
 */
module Rows {

  import opened Wrappers
  import opened Text
  import Pedidos

  /** An order as the pages hold it. `None` is a missing or null column; the
      backend never sends a year, so `anoSaida` is `None` for every served row. */
  datatype Row = Row(
    id: int,
    descricao: string,
    quantSaida: Option<int>,
    responsavel: Option<string>,
    localidade: Option<string>,
    mesSaida: Option<string>,
    diaSaida: Option<int>,
    anoSaida: Option<int>,
    valorUnitario: Option<real>,
    valorTotal: Option<real>,
    lucroTotal: Option<real>
  )

  /** The row `GET /pedidos` serves for a stored order. */
  function RowOf(o: Pedidos.Order): (r: Row)
    ensures r.id == o.id && r.descricao == o.descricao && r.anoSaida.None?
    ensures r.responsavel == o.responsavel && r.localidade == o.localidade
    ensures r.diaSaida == o.diaSaida && r.mesSaida == o.mesSaida
    ensures r.valorTotal == Some(o.valorTotalSaida) && r.lucroTotal == Some(o.lucratividadeTotal)
  {
    Row(o.id, o.descricao, Some(o.quantSaida), o.responsavel, o.localidade, o.mesSaida, o.diaSaida, None,
        Some(o.valorUnitarioVenda), Some(o.valorTotalSaida), Some(o.lucratividadeTotal))
  }

  /** `Number(p.mes_saida)`: null reads as 0, a digit string as its value, and
      anything else as NaN (`None`), which equals no number. */
  function MesNumber(mes: Option<string>): (n: Option<nat>)
    ensures mes.None? ==> n == Some(0)
    ensures mes.Some? && AllDigits(mes.value) ==> n == Some(DigitsValue(mes.value))
  {
    if mes.None? then Some(0)
    else if AllDigits(mes.value) then
      NumberOfDigits(mes.value);
      NumberOf(mes.value)
    else NumberOf(mes.value)
  }

  /** What the date field asks for. */
  datatype DateQuery = AnyDate | Day(dia: nat) | DayMonth(dia: nat, mes: nat) | DayMonthYear(dia: nat, mes: nat, ano: nat)

  /** Reads the date field: blank asks nothing; otherwise the non-digits are
      dropped and the remaining digits read by `QueryOfDigits`. */
  function ParseDateFilter(filtroData: string): (q: DateQuery)
    ensures q.AnyDate? <==> Trim(filtroData) == "" || |DigitsOf(filtroData)| !in {2, 4, 8}
  {
    if Trim(filtroData) == "" then AnyDate else QueryOfDigits(DigitsOf(filtroData))
  }

  /** 2, 4 or 8 digits are read as `dd`, `ddmm` or `ddmmyyyy`; any other count
      asks nothing. Writing the query's parts back zero-padded gives the digits
      that were read, so each part is the value of its own digits. */
  function QueryOfDigits(l: string): (q: DateQuery)
    requires AllDigits(l)
    ensures q.AnyDate? <==> |l| !in {2, 4, 8}
    ensures q.Day? ==> q.dia < 100 && l == TwoDigits(q.dia)
    ensures q.DayMonth? ==> q.dia < 100 && q.mes < 100 && l == TwoDigits(q.dia) + TwoDigits(q.mes)
    ensures q.DayMonthYear? ==> q.dia < 100 && q.mes < 100 && q.ano < 10000
                                && l == TwoDigits(q.dia) + TwoDigits(q.mes) + FourDigits(q.ano)
  {
    if |l| == 2 then
      TwoDigitsOfValue(l);
      Day(TwoDigitValue(l))
    else if |l| == 4 then
      TwoDigitsOfValue(l[..2]);
      TwoDigitsOfValue(l[2..]);
      assert l == l[..2] + l[2..];
      DayMonth(TwoDigitValue(l[..2]), TwoDigitValue(l[2..]))
    else if |l| == 8 then
      TwoDigitsOfValue(l[..2]);
      TwoDigitsOfValue(l[2..4]);
      FourDigitsOfValue(l[4..]);
      assert l == l[..2] + l[2..4] + l[4..];
      DayMonthYear(TwoDigitValue(l[..2]), TwoDigitValue(l[2..4]), FourDigitValue(l[4..]))
    else AnyDate
  }

  lemma DigitCharOfValue(c: char)
    requires IsDigit(c)
    ensures DigitChar(DigitValue(c)) == c
  {
  }

  /** Two digits are the zero-padded text of their value. */
  lemma TwoDigitsOfValue(s: string)
    requires |s| == 2 && AllDigits(s)
    ensures TwoDigits(TwoDigitValue(s)) == s
  {
    var n := TwoDigitValue(s);
    assert n / 10 == DigitValue(s[0]) && n % 10 == DigitValue(s[1]);
    DigitCharOfValue(s[0]);
    DigitCharOfValue(s[1]);
  }

  /** Four digits are the zero-padded text of their value. */
  lemma FourDigitsOfValue(s: string)
    requires |s| == 4 && AllDigits(s)
    ensures FourDigits(FourDigitValue(s)) == s
  {
    var n := FourDigitValue(s);
    var hi, lo := TwoDigitValue(s[..2]), TwoDigitValue(s[2..]);
    assert n / 100 == hi && n % 100 == lo;
    TwoDigitsOfValue(s[..2]);
    TwoDigitsOfValue(s[2..]);
    assert s == s[..2] + s[2..];
  }

  /** `Number` of two digits. */
  function TwoDigitValue(s: string): (n: nat)
    requires |s| == 2 && AllDigits(s)
    ensures n < 100 && n == DigitValue(s[0]) * 10 + DigitValue(s[1])
  {
    assert s[..1][..0] == "" && s[..1][0] == s[0];
    assert DigitsValue(s[..1]) == DigitValue(s[0]);
    DigitsValue(s)
  }

  /** `Number` of four digits. */
  function FourDigitValue(s: string): (n: nat)
    requires |s| == 4 && AllDigits(s)
    ensures n < 10000
    ensures n == TwoDigitValue(s[..2]) * 100 + TwoDigitValue(s[2..])
  {
    assert s[..3][..2] == s[..2] && s[..3][2] == s[2];
    assert TwoDigitValue(s[..2]) == DigitsValue(s[..2]);
    assert DigitsValue(s[..3]) == DigitsValue(s[..2]) * 10 + DigitValue(s[2]);
    assert s[2..][0] == s[2] && s[2..][1] == s[3];
    DigitsValue(s)
  }

  /** Whether a row's day, month and year satisfy a date query. The year is the
      value the page compares the typed year with. */
  predicate DateOk(q: DateQuery, dia: Option<int>, mes: Option<string>, ano: Option<int>) {
    match q
    case AnyDate => true
    case Day(d) => dia == Some(d)
    case DayMonth(d, m) => dia == Some(d) && MesNumber(mes) == Some(m)
    case DayMonthYear(d, m, y) => dia == Some(d) && MesNumber(mes) == Some(m) && ano == Some(y)
  }

  /* ---------------------------------------------------------------------- */
  /* Properties of the date field                                           */
  /* ---------------------------------------------------------------------- */

  /** Only the digits typed matter: "26/01", "26-01" and "2601" ask the same. */
  lemma SameDigitsSameQuery(a: string, b: string)
    requires DigitsOf(a) == DigitsOf(b)
    ensures ParseDateFilter(a) == ParseDateFilter(b)
  {
    if Trim(a) == "" { BlankHasNoDigits(a); }
    if Trim(b) == "" { BlankHasNoDigits(b); }
  }

  /** A blank field has no digits. */
  lemma BlankHasNoDigits(s: string)
    requires Trim(s) == ""
    ensures DigitsOf(s) == ""
  {
    NoDigitsInSpaces(s);
  }

  lemma {:induction false} NoDigitsInSpaces(s: string)
    requires forall i :: 0 <= i < |s| ==> IsSpace(s[i])
    ensures DigitsOf(s) == ""
  {
    if |s| > 0 {
      assert !IsDigit(s[0]);
      NoDigitsInSpaces(s[1..]);
    }
  }

  lemma {:induction false} DigitsOfAppend(a: string, b: string)
    ensures DigitsOf(a + b) == DigitsOf(a) + DigitsOf(b)
  {
    if |a| == 0 {
      assert a + b == b;
    } else {
      assert (a + b)[1..] == a[1..] + b;
      DigitsOfAppend(a[1..], b);
    }
  }

  /** The two digits of a number below 100, zero-padded. */
  function TwoDigits(n: nat): (s: string)
    requires n < 100
    ensures |s| == 2 && AllDigits(s) && TwoDigitValue(s) == n
  {
    [DigitChar(n / 10), DigitChar(n % 10)]
  }

  /** The four digits of a number below 10000, zero-padded. */
  function FourDigits(n: nat): (s: string)
    requires n < 10000
    ensures |s| == 4 && AllDigits(s) && FourDigitValue(s) == n
  {
    var s := TwoDigits(n / 100) + TwoDigits(n % 100);
    assert s[..2] == TwoDigits(n / 100) && s[2..] == TwoDigits(n % 100);
    s
  }

  /** Typing a day as "dd" asks for exactly that day. */
  lemma DayRoundTrip(d: nat)
    requires d < 100
    ensures ParseDateFilter(TwoDigits(d)) == Day(d)
  {
    var s := TwoDigits(d);
    if Trim(s) == "" {
      BlankHasNoDigits(s);
      assert false;
    }
  }

  /** Typing a full date as "dd/mm/yyyy" asks for exactly that day, month and year. */
  lemma FullDateRoundTrip(d: nat, m: nat, y: nat)
    requires d < 100 && m < 100 && y < 10000
    ensures ParseDateFilter(TwoDigits(d) + "/" + TwoDigits(m) + "/" + FourDigits(y)) == DayMonthYear(d, m, y)
  {
    var s := TwoDigits(d) + "/" + TwoDigits(m) + "/" + FourDigits(y);
    DigitsOfAppend(TwoDigits(d) + "/" + TwoDigits(m) + "/", FourDigits(y));
    DigitsOfAppend(TwoDigits(d) + "/" + TwoDigits(m), "/");
    DigitsOfAppend(TwoDigits(d) + "/", TwoDigits(m));
    DigitsOfAppend(TwoDigits(d), "/");
    assert DigitsOf("/") == "";
    var l := DigitsOf(s);
    assert l == TwoDigits(d) + TwoDigits(m) + FourDigits(y);
    assert l[..2] == TwoDigits(d) && l[2..4] == TwoDigits(m) && l[4..] == FourDigits(y);
    if Trim(s) == "" {
      BlankHasNoDigits(s);
      assert false;
    }
  }

  /** Typing a day and month as "dd/mm" asks for exactly that day and month. */
  lemma DayMonthRoundTrip(d: nat, m: nat)
    requires d < 100 && m < 100
    ensures ParseDateFilter(TwoDigits(d) + "/" + TwoDigits(m)) == DayMonth(d, m)
  {
    var s := TwoDigits(d) + "/" + TwoDigits(m);
    DigitsOfAppend(TwoDigits(d) + "/", TwoDigits(m));
    DigitsOfAppend(TwoDigits(d), "/");
    assert DigitsOf("/") == "";
    var l := DigitsOf(s);
    assert l == TwoDigits(d) + TwoDigits(m);
    assert l[..2] == TwoDigits(d) && l[2..] == TwoDigits(m);
    if Trim(s) == "" {
      BlankHasNoDigits(s);
      assert false;
    }
  }

  /** A filter of four digits is stricter than the filter of its first two. */
  lemma DayMonthNarrowsDay(d: nat, m: nat, dia: Option<int>, mes: Option<string>, ano: Option<int>)
    requires DateOk(DayMonth(d, m), dia, mes, ano)
    ensures DateOk(Day(d), dia, mes, ano)
  {
  }

  /** A row without a year never passes a full-date query. */
  lemma NoYearNoFullDate(q: DateQuery, dia: Option<int>, mes: Option<string>)
    requires q.DayMonthYear?
    ensures !DateOk(q, dia, mes, None)
  {
  }
}
