/** The money-recovery endpoints of the first version: recovery per month,
    with a percentage whose division is not guarded, and the average
    recovery of the months ticked in a twelve-checkbox selection. */
module MoneyRecovery {
  import opened Wrappers
  import opened Dates
  import opened MonthlyBuckets
  import Analytics

  /** `RecuperacionPorMes[i] / DeudaTotalPorMes[i] * 100`, 0 when nothing
      was recovered; the division by a zero debt raises. */
  function UnguardedRecoveryPercent(recovered: real, debt: real): (r: Result<real, string>)
    ensures r.Err? <==> recovered != 0.0 && debt == 0.0
    ensures r.Ok? ==> r.value == Analytics.RecoveryPercent(recovered, debt)
  {
    if recovered == 0.0 then Ok(0.0)
    else if debt == 0.0 then Err("ZeroDivisionError")
    else Ok(recovered / debt * 100.0)
  }

  /** A month on which the unguarded division raises. */
  predicate DividesByZero(recovered: real, debt: real)
  {
    recovered != 0.0 && debt == 0.0
  }

  /** The percentage loop of `calcular_recuperacion_por_mes`: it stops with
      the division's error at the first month that recovered something but
      has no debt, else every month's percentage. */
  method UnguardedPercents(recovered: seq<real>, debt: seq<real>) returns (r: Result<seq<real>, string>)
    requires |recovered| == 12 && |debt| == 12
    ensures r.Err? <==> exists m :: 0 <= m < 12 && DividesByZero(recovered[m], debt[m])
    ensures r.Ok? ==> |r.value| == 12 && forall m :: 0 <= m < 12 ==>
      r.value[m] == Analytics.RecoveryPercent(recovered[m], debt[m])
  {
    var pct := seq(12, _ => 0.0);
    for i := 0 to 12
      invariant |pct| == 12
      invariant forall m :: 0 <= m < i ==> !DividesByZero(recovered[m], debt[m])
      invariant forall m :: 0 <= m < i ==> pct[m] == Analytics.RecoveryPercent(recovered[m], debt[m])
    {
      var p := UnguardedRecoveryPercent(recovered[i], debt[i]);
      if p.Err? {
        return Err(p.error);
      }
      pct := pct[i := p.value];
    }
    r := Ok(pct);
  }

  /** `calcular_recuperacion_por_mes`: the same accumulation as the second
      version's recovery report; the percentage loop stops with an error at
      the first month that recovered something but has no debt. */
  method RecoveryByMonth(rows: seq<Installment>) returns (r: Result<Analytics.RecoveryReport, string>)
    ensures r.Err? <==> exists m :: 0 <= m < 12 &&
                          DividesByZero(Analytics.RecoveredPerMonth(rows)[m], Analytics.DebtPerMonth(rows)[m])
    ensures r.Ok? ==> r.value.recovered == Analytics.RecoveredPerMonth(rows)
    ensures r.Ok? ==> r.value.debt == Analytics.DebtPerMonth(rows)
    ensures r.Ok? ==> |r.value.percent| == 12 && forall m :: 0 <= m < 12 ==>
      r.value.percent[m] == Analytics.RecoveryPercent(r.value.recovered[m], r.value.debt[m])
  {
    var grouped := GroupByMonth(rows);
    var recovered, debt := SumTwoPerMonth(grouped, Analytics.RecoveredContribution, Analytics.DebtContribution);
    assert recovered == Analytics.RecoveredPerMonth(rows);
    assert debt == Analytics.DebtPerMonth(rows);
    var pct := UnguardedPercents(recovered, debt);
    if pct.Err? {
      return Err(pct.error);
    }
    r := Ok(Analytics.RecoveryReport(recovered, debt, pct.value));
  }

  /** With non-negative installment values the division never raises: every
      late value recovered is also debt. */
  lemma NoZeroDivisionWithNonNegativeValues(items: seq<Item>)
    requires Analytics.NonNegativeValues(items)
    ensures !DividesByZero(SumOf(items, Analytics.RecoveredContribution), SumOf(items, Analytics.DebtContribution))
  {
    Analytics.RecoveredWithinDebt(items);
  }

  /** Two installments due on 2024-03-10: one of 5 paid late on 2024-03-20
      and a "Vencida" one of -5. March's debt is then 0 while 5 was
      recovered, so `RecoveryByMonth`, whose error case is exactly such a
      month, raises. */
  lemma NegativeValueDividesByZero()
    ensures var due: CalDate, paid: CalDate := Date(2024, 3, 10), Date(2024, 3, 20);
      var rows := [Installment(1, 1, 1, Some(due), 5.0, "Pagada", Some(paid)),
                   Installment(2, 1, 2, Some(due), -5.0, "Vencida", None)];
      && Analytics.RecoveredPerMonth(rows)[2] == 5.0 && Analytics.DebtPerMonth(rows)[2] == 0.0
      && DividesByZero(Analytics.RecoveredPerMonth(rows)[2], Analytics.DebtPerMonth(rows)[2])
  {
    var due: CalDate, paid: CalDate := Date(2024, 3, 10), Date(2024, 3, 20);
    var late := Installment(1, 1, 1, Some(due), 5.0, "Pagada", Some(paid));
    var vencida := Installment(2, 1, 2, Some(due), -5.0, "Vencida", None);
    var rows := [late, vencida];
    assert rows[..1] == [late];
    assert [late][..0] == [];
    var a, b := ToItem(late, due), ToItem(vencida, due);
    assert MonthBucket([late], 2) == MonthBucket([], 2) + ItemIfInMonth(late, 2) == [a];
    assert MonthBucket(rows, 2) == MonthBucket([late], 2) + ItemIfInMonth(vencida, 2) == [a, b];
    LateItemIsPaidLate(late, due);
    LateItemIsPaidLate(vencida, due);
    assert Before(due, paid);
    var f, g := Analytics.RecoveredContribution, Analytics.DebtContribution;
    assert f(a) == 5.0 && g(a) == 5.0 && f(b) == 0.0 && g(b) == -5.0;
    assert [a, b][..1] == [a];
    assert [a][..0] == [];
    assert SumOf([a], f) == 5.0 && SumOf([a], g) == 5.0;
    assert SumOf([a, b], f) == SumOf([a], f) + f(b);
    assert SumOf([a, b], g) == SumOf([a], g) + g(b);
  }

  // ---------------------------------------------------------------- average over ticked months

  /** `MesSeleccion`: one checkbox per month, all unticked by default. */
  type MonthSelection = s: seq<bool> | |s| == 12 witness seq(12, _ => false)

  /** The names of the ticked months among the first `n`, in calendar order:
      a month's name appears exactly when the month is among the first `n`
      and ticked, and the positions of the names strictly increase. */
  function TickedNames(sel: MonthSelection, n: nat): (names: seq<string>)
    requires n <= 12
    ensures |names| <= n
    ensures forall k :: 0 <= k < |names| ==> MonthIndex(names[k]).Some? && MonthIndex(names[k]).value < n && sel[MonthIndex(names[k]).value]
    ensures forall j, k :: 0 <= j < k < |names| ==> MonthIndex(names[j]).value < MonthIndex(names[k]).value
  {
    if n == 0 then []
    else
      MonthIndexOfName(n - 1);
      TickedNames(sel, n - 1) + (if sel[n - 1] then [MONTHS[n - 1]] else [])
  }

  /** Exactly the ticked months among the first `n` are named. */
  lemma {:induction false} TickedNamesComplete(sel: MonthSelection, n: nat)
    requires n <= 12
    ensures forall i :: 0 <= i < 12 ==> (MONTHS[i] in TickedNames(sel, n) <==> i < n && sel[i])
  {
    var names := TickedNames(sel, n);
    forall i | 0 <= i < 12
      ensures MONTHS[i] in names <==> i < n && sel[i]
    {
      MonthIndexOfName(i);
      if MONTHS[i] in names {
        var k :| 0 <= k < |names| && names[k] == MONTHS[i];
        assert MonthIndex(names[k]) == Some(i);
      }
      if i < n && sel[i] {
        TickedNamesHas(sel, n, i);
      }
    }
  }

  /** A ticked month among the first `n` is named. */
  lemma {:induction false} TickedNamesHas(sel: MonthSelection, n: nat, i: nat)
    requires i < n <= 12 && sel[i]
    ensures MONTHS[i] in TickedNames(sel, n)
  {
    if i < n - 1 {
      TickedNamesHas(sel, n - 1, i);
    }
  }

  lemma {:induction false} TickedNamesEmpty(sel: MonthSelection, n: nat)
    requires n <= 12
    ensures TickedNames(sel, n) == [] <==> forall i :: 0 <= i < n ==> !sel[i]
  {
    if n > 0 {
      TickedNamesEmpty(sel, n - 1);
    }
  }

  /** The loop collecting `meses_seleccionados`. */
  method SelectedMonths(sel: MonthSelection) returns (names: seq<string>)
    ensures names == TickedNames(sel, 12)
  {
    names := [];
    for i := 0 to 12
      invariant names == TickedNames(sel, i)
    {
      if sel[i] {
        names := names + [MONTHS[i]];
      }
    }
  }

  datatype SelectionAverage = SelectionAverage(message: Option<string>, selection: seq<string>, values: seq<real>, average: real)

  const NO_MONTH_SELECTED := "No has seleccionado ningún mes"

  /** `promedio_recuperacion_por_mes`: with no month ticked, the message, an
      empty selection and average 0 without reading the table; otherwise the
      ticked months' recovered amounts and their mean, or the error of the
      recovery computation. */
  method AverageRecoveryOfSelection(sel: MonthSelection, rows: seq<Installment>) returns (r: Result<SelectionAverage, string>)
    ensures (forall i :: 0 <= i < 12 ==> !sel[i]) ==> r == Ok(SelectionAverage(Some(NO_MONTH_SELECTED), [], [], 0.0))
    ensures (exists i :: 0 <= i < 12 && sel[i]) ==>
      (r.Err? <==> exists m :: 0 <= m < 12 &&
                     DividesByZero(Analytics.RecoveredPerMonth(rows)[m], Analytics.DebtPerMonth(rows)[m]))
    ensures (exists i :: 0 <= i < 12 && sel[i]) && r.Ok? ==>
      && r.value.message == None
      && r.value.selection == TickedNames(sel, 12)
      && var avg := Analytics.AverageOfSelected(TickedNames(sel, 12), Analytics.RecoveredPerMonth(rows));
         avg.Ok? && r.value.values == avg.value.values && r.value.average == avg.value.average
  {
    var names := SelectedMonths(sel);
    TickedNamesEmpty(sel, 12);
    if names == [] {
      return Ok(SelectionAverage(Some(NO_MONTH_SELECTED), [], [], 0.0));
    }
    var datos := RecoveryByMonth(rows);
    if datos.Err? {
      return Err(datos.error);
    }
    var avg := Analytics.AverageOfSelected(names, datos.value.recovered);
    r := Ok(SelectionAverage(None, names, avg.value.values, avg.value.average));
  }
}
