/** The statistics controller of the second statistics service: delinquency
    per month, money per month, recovery per month and the average recovery
    of selected months. Every query becomes the sequence of rows it returns. */
module Analytics {
  import opened Wrappers
  import opened Dates
  import opened MonthlyBuckets

  /** The overdue query's condition: paid after the due date, or stored as
      "Vencida". */
  predicate IsOverdue(r: Installment)
  {
    PaidLate(r) || r.state == "Vencida"
  }

  /** What a month's debt accumulates for one item: its value once when it
      was paid late and once more when it is stored as "Vencida". */
  function DebtContribution(it: Item): real
  {
    (if IsLateItem(it) then it.value else 0.0) + (if it.state == "Vencida" then it.value else 0.0)
  }

  /** What a month's collected amount accumulates for one item: its value
      when it was paid on or before the due date. */
  function CollectedContribution(it: Item): real
  {
    if it.paymentDate.Some? && !IsLateItem(it) then it.value else 0.0
  }

  /** What a month's recovered amount accumulates for one item: its value
      when it was paid late. */
  function RecoveredContribution(it: Item): real
  {
    if IsLateItem(it) then it.value else 0.0
  }

  /** `calculate_installments_by_month` over the rows of the installment
      table. */
  method InstallmentsByMonth(rows: seq<Installment>) returns (rep: MonthlyReport)
    ensures |rep.installments| == 12 && |rep.datos| == 12
    ensures |rep.debtPerMonth| == 12 && |rep.amountPerMonth| == 12 && |rep.balancePerMonth| == 12
    ensures forall m :: 0 <= m < 12 ==> rep.installments[m] == MonthBucket(rows, m)
    ensures forall m :: 0 <= m < 12 ==>
      && rep.datos[m].month == MONTHS[m]
      && rep.datos[m].total == |MonthBucket(rows, m)|
      && rep.datos[m].overdue == |MonthBucket(Where(rows, IsOverdue), m)|
      && rep.datos[m].overdue <= rep.datos[m].total
      && rep.datos[m].percent == DelinquencyPercent(rep.datos[m].total, rep.datos[m].overdue)
      && 0.0 <= rep.datos[m].percent <= 100.0
    ensures rep.datos[0].comparison == 0.0
    ensures forall m :: 1 <= m < 12 ==> rep.datos[m].comparison == rep.datos[m].percent - rep.datos[m - 1].percent
    ensures forall m :: 0 <= m < 12 ==>
      && rep.debtPerMonth[m] == SumOf(MonthBucket(rows, m), DebtContribution)
      && rep.amountPerMonth[m] == SumOf(MonthBucket(rows, m), CollectedContribution)
      && rep.balancePerMonth[m] == rep.amountPerMonth[m] - rep.debtPerMonth[m]
  {
    var grouped := GroupByMonth(rows);
    var overdueGrouped := GroupByMonth(Where(rows, IsOverdue));
    forall m | 0 <= m < 12
      ensures |overdueGrouped[m]| <= |grouped[m]|
    {
      WhereBucketIsSubBucket(rows, IsOverdue, m);
    }
    var pct := DelinquencyPercents(grouped, overdueGrouped);
    var cmp := CompareWithPreviousMonth(pct);
    var datos := Summaries(grouped, overdueGrouped, pct, cmp);
    var debt, amount := SumTwoPerMonth(grouped, DebtContribution, CollectedContribution);
    var balance := BalancePerMonth(amount, debt);
    rep := MonthlyReport(grouped, datos, debt, amount, balance);
  }

  /** A row paid late and also stored as "Vencida" adds its value to its
      month's debt twice. */
  lemma LateAndVencidaDebtCountsTwice(r: Installment)
    requires r.dueDate.Some? && PaidLate(r) && r.state == "Vencida"
    ensures SumOf(MonthBucket([r], r.dueDate.value.month - 1), DebtContribution) == 2.0 * r.value
  {
    var due := r.dueDate.value;
    LateItemIsPaidLate(r, due);
    assert [r][..0] == [];
    assert MonthBucket([r], due.month - 1) == [ToItem(r, due)];
    assert [ToItem(r, due)][..0] == [];
  }

  /** The number of rows due in month `m + 1` (0-based `m`) of any year that
      the overdue query selects. */
  function OverdueDueIn(rows: seq<Installment>, m: nat): (n: nat)
    ensures n <= |rows|
  {
    if |rows| == 0 then 0
    else
      var last := rows[|rows| - 1];
      OverdueDueIn(rows[..|rows| - 1], m) + (if last.dueDate.Some? && last.dueDate.value.month == m + 1 && IsOverdue(last) then 1 else 0)
  }

  /** A month's overdue count is the number of its rows the overdue query
      selects: a row for which both conditions hold is counted once. */
  lemma {:induction false} OverdueRowCountedOnce(rows: seq<Installment>, m: nat)
    ensures |MonthBucket(Where(rows, IsOverdue), m)| == OverdueDueIn(rows, m)
  {
    if |rows| > 0 {
      var init, last := rows[..|rows| - 1], rows[|rows| - 1];
      OverdueRowCountedOnce(init, m);
      var w := Where(init, IsOverdue);
      if IsOverdue(last) {
        assert Where(rows, IsOverdue) == w + [last];
        assert (w + [last])[..|w|] == w;
        assert MonthBucket(w + [last], m) == MonthBucket(w, m) + ItemIfInMonth(last, m);
      } else {
        assert Where(rows, IsOverdue) == w;
      }
    }
  }

  // ---------------------------------------------------------------- recovery

  /** `recuperacion / deuda * 100`, 0 when nothing was recovered and when
      the debt is 0. */
  function RecoveryPercent(recovered: real, debt: real): (pct: real)
    ensures recovered == 0.0 || debt == 0.0 ==> pct == 0.0
    ensures recovered != 0.0 && debt != 0.0 ==> pct * debt == recovered * 100.0
    ensures 0.0 < recovered <= debt ==> 0.0 < pct <= 100.0
  {
    if recovered == 0.0 then 0.0
    else if debt != 0.0 then recovered / debt * 100.0
    else 0.0
  }

  datatype RecoveryReport = RecoveryReport(recovered: seq<real>, debt: seq<real>, percent: seq<real>)

  /** `calculate_money_recovery_by_month`: recovered amount, total debt and
      recovery percentage per month. The total debt accumulates exactly what
      the installments report's monthly debt does. */
  method MoneyRecoveryByMonth(rows: seq<Installment>) returns (rep: RecoveryReport)
    ensures |rep.recovered| == 12 && |rep.debt| == 12 && |rep.percent| == 12
    ensures forall m :: 0 <= m < 12 ==>
      && rep.recovered[m] == SumOf(MonthBucket(rows, m), RecoveredContribution)
      && rep.debt[m] == SumOf(MonthBucket(rows, m), DebtContribution)
      && rep.percent[m] == RecoveryPercent(rep.recovered[m], rep.debt[m])
  {
    var grouped := GroupByMonth(rows);
    var recovered, debt := SumTwoPerMonth(grouped, RecoveredContribution, DebtContribution);
    var pct := seq(12, _ => 0.0);
    for i := 0 to 12
      invariant |pct| == 12
      invariant forall m :: 0 <= m < i ==> pct[m] == RecoveryPercent(recovered[m], debt[m])
    {
      pct := pct[i := RecoveryPercent(recovered[i], debt[i])];
    }
    rep := RecoveryReport(recovered, debt, pct);
  }

  predicate NonNegativeValues(items: seq<Item>)
  {
    forall it :: it in items ==> it.value >= 0.0
  }

  /** With non-negative installment values a month never recovers more than
      its debt, so its recovery percentage lies in [0, 100] and is positive
      whenever something was recovered. */
  lemma RecoveredWithinDebt(items: seq<Item>)
    requires NonNegativeValues(items)
    ensures 0.0 <= SumOf(items, RecoveredContribution) <= SumOf(items, DebtContribution)
    ensures var pct := RecoveryPercent(SumOf(items, RecoveredContribution), SumOf(items, DebtContribution));
      0.0 <= pct <= 100.0 && (SumOf(items, RecoveredContribution) > 0.0 ==> pct > 0.0)
  {
    SumOfMonotone(items, RecoveredContribution, DebtContribution);
    SumOfNonNegative(items, RecoveredContribution);
  }

  // ---------------------------------------------------------------- average over selected months

  datatype AverageReport = AverageReport(selection: seq<string>, values: seq<real>, average: real)

  /** `[recuperacion[MONTHS.index(mes)] for mes in selected]`, `None` where
      an unknown name makes `index` raise. */
  function SelectedValues(selected: seq<string>, recovered: seq<real>): (r: Option<seq<real>>)
    requires |recovered| == 12
    ensures r.Some? <==> forall k :: 0 <= k < |selected| ==> MonthIndex(selected[k]).Some?
    ensures r.Some? ==> |r.value| == |selected|
    ensures r.Some? ==> forall k :: 0 <= k < |selected| ==> r.value[k] == recovered[MonthIndex(selected[k]).value]
  {
    if |selected| == 0 then Some([])
    else
      match SelectedValues(selected[..|selected| - 1], recovered)
      case None =>
        None
      case Some(front) =>
        match MonthIndex(selected[|selected| - 1])
        case None => None
        case Some(i) => Some(front + [recovered[i]])
  }

  /** `average_recovery_for_selected_months` once the recovered amounts are
      known: the selection echoed, its values in selection order and their
      arithmetic mean (0 for an empty selection); an error naming no month
      when a name is not one of the twelve. */
  function AverageOfSelected(selected: seq<string>, recovered: seq<real>): (r: Result<AverageReport, string>)
    requires |recovered| == 12
    ensures r.Ok? <==> SelectedValues(selected, recovered).Some?
    ensures r.Ok? ==> r.value.selection == selected && Some(r.value.values) == SelectedValues(selected, recovered)
    ensures r.Ok? && |selected| == 0 ==> r.value.average == 0.0
  {
    match SelectedValues(selected, recovered)
    case None => Err("ValueError: month name is not in MONTHS")
    case Some(values) =>
      Ok(AverageReport(selected, values, if |values| > 0 then SumReals(values) / (|values| as real) else 0.0))
  }

  /** The average of a non-empty selection times its size is the sum of its
      values. */
  lemma AverageTimesCount(selected: seq<string>, recovered: seq<real>)
    requires |recovered| == 12 && |selected| > 0
    requires AverageOfSelected(selected, recovered).Ok?
    ensures var a := AverageOfSelected(selected, recovered).value;
      a.average * (|selected| as real) == SumReals(a.values)
  {
    var values := SelectedValues(selected, recovered).value;
    assert |values| == |selected|;
    var x, n := SumReals(values), |values| as real;
    assert AverageOfSelected(selected, recovered).value.average == x / n;
    assert (x / n) * n == x;
  }

  /** With one selected month the average is that month's recovered amount. */
  lemma AverageOfOneMonth(i: nat, recovered: seq<real>)
    requires i < 12 && |recovered| == 12
    ensures AverageOfSelected([MONTHS[i]], recovered).Ok?
    ensures AverageOfSelected([MONTHS[i]], recovered).value.average == recovered[i]
  {
    MonthIndexOfName(i);
    var x := recovered[i];
    assert [MONTHS[i]][..0] == [];
    assert SelectedValues([], recovered) == Some([]);
    assert MonthIndex([MONTHS[i]][0]) == Some(i);
    assert [] + [x] == [x];
    assert SelectedValues([MONTHS[i]], recovered) == Some([x]);
    assert [x][..0] == [];
    assert SumReals([x]) == x;
    assert x / (1 as real) == x;
  }

  /** The recovered amount of every month, as the recovery report lists it. */
  function RecoveredPerMonth(rows: seq<Installment>): (r: seq<real>)
    ensures |r| == 12 && forall m :: 0 <= m < 12 ==> r[m] == SumOf(MonthBucket(rows, m), RecoveredContribution)
  {
    seq(12, m requires 0 <= m => SumOf(MonthBucket(rows, m), RecoveredContribution))
  }

  /** The total debt of every month, as the recovery report lists it. */
  function DebtPerMonth(rows: seq<Installment>): (r: seq<real>)
    ensures |r| == 12 && forall m :: 0 <= m < 12 ==> r[m] == SumOf(MonthBucket(rows, m), DebtContribution)
  {
    seq(12, m requires 0 <= m => SumOf(MonthBucket(rows, m), DebtContribution))
  }

  /** Installment rows whose values are all non-negative. */
  predicate NonNegativeRows(rows: seq<Installment>)
  {
    forall r :: r in rows ==> r.value >= 0.0
  }

  /** Every item of a month's bucket carries the value of a row. */
  lemma {:induction false} BucketOfNonNegativeRows(rows: seq<Installment>, m: nat)
    requires NonNegativeRows(rows)
    ensures NonNegativeValues(MonthBucket(rows, m))
  {
    if |rows| > 0 {
      assert rows[|rows| - 1] in rows;
      assert forall r :: r in rows[..|rows| - 1] ==> r in rows;
      BucketOfNonNegativeRows(rows[..|rows| - 1], m);
    }
  }

  /** With non-negative installment values, every month of the recovery
      report recovers no more than its debt and its percentage lies in
      [0, 100]. */
  lemma RecoveredWithinDebtPerMonth(rows: seq<Installment>, m: nat)
    requires NonNegativeRows(rows) && m < 12
    ensures 0.0 <= RecoveredPerMonth(rows)[m] <= DebtPerMonth(rows)[m]
    ensures 0.0 <= RecoveryPercent(RecoveredPerMonth(rows)[m], DebtPerMonth(rows)[m]) <= 100.0
  {
    BucketOfNonNegativeRows(rows, m);
    RecoveredWithinDebt(MonthBucket(rows, m));
  }

  /** `average_recovery_for_selected_months` over the installment rows: the
      average of the selected months' recovered amounts. */
  method AverageRecoveryForSelectedMonths(selected: seq<string>, rows: seq<Installment>)
    returns (r: Result<AverageReport, string>)
    ensures r == AverageOfSelected(selected, RecoveredPerMonth(rows))
  {
    var datos := MoneyRecoveryByMonth(rows);
    assert datos.recovered == RecoveredPerMonth(rows);
    r := AverageOfSelected(selected, datos.recovered);
  }
}
