/** The first version of the installments-by-month endpoint: an installment
    is overdue only when it is stored as "Vencida", a month's collected
    amount is the value of its "Pagada" installments and its debt the value
    of its "Vencida" ones. */
module MoraStats {
  import opened Dates
  import opened MonthlyBuckets
  import Analytics

  /** The overdue query's condition `installment_state == "Vencida"`. */
  predicate IsVencida(r: Installment)
  {
    r.state == "Vencida"
  }

  function PaidContribution(it: Item): real
  {
    if it.state == "Pagada" then it.value else 0.0
  }

  function VencidaContribution(it: Item): real
  {
    if it.state == "Vencida" then it.value else 0.0
  }

  /** `installments_by_month` over the rows of the installment table. */
  method InstallmentsByMonth(rows: seq<Installment>) returns (rep: MonthlyReport)
    ensures |rep.installments| == 12 && |rep.datos| == 12
    ensures |rep.debtPerMonth| == 12 && |rep.amountPerMonth| == 12 && |rep.balancePerMonth| == 12
    ensures forall m :: 0 <= m < 12 ==> rep.installments[m] == MonthBucket(rows, m)
    ensures forall m :: 0 <= m < 12 ==>
      && rep.datos[m].month == MONTHS[m]
      && rep.datos[m].total == |MonthBucket(rows, m)|
      && rep.datos[m].overdue == |MonthBucket(Where(rows, IsVencida), m)|
      && rep.datos[m].overdue <= rep.datos[m].total
      && rep.datos[m].percent == DelinquencyPercent(rep.datos[m].total, rep.datos[m].overdue)
      && 0.0 <= rep.datos[m].percent <= 100.0
    ensures rep.datos[0].comparison == 0.0
    ensures forall m :: 1 <= m < 12 ==> rep.datos[m].comparison == rep.datos[m].percent - rep.datos[m - 1].percent
    ensures forall m :: 0 <= m < 12 ==>
      && rep.debtPerMonth[m] == SumOf(MonthBucket(rows, m), VencidaContribution)
      && rep.amountPerMonth[m] == SumOf(MonthBucket(rows, m), PaidContribution)
      && rep.balancePerMonth[m] == rep.amountPerMonth[m] - rep.debtPerMonth[m]
  {
    var grouped := GroupByMonth(rows);
    var overdueGrouped := GroupByMonth(Where(rows, IsVencida));
    forall m | 0 <= m < 12
      ensures |overdueGrouped[m]| <= |grouped[m]|
    {
      WhereBucketIsSubBucket(rows, IsVencida, m);
    }
    var pct := DelinquencyPercents(grouped, overdueGrouped);
    var cmp := CompareWithPreviousMonth(pct);
    var datos := Summaries(grouped, overdueGrouped, pct, cmp);
    var debt, amount := SumTwoPerMonth(grouped, VencidaContribution, PaidContribution);
    var balance := BalancePerMonth(amount, debt);
    rep := MonthlyReport(grouped, datos, debt, amount, balance);
  }

  /** Every installment this endpoint counts as overdue the second version
      counts too, so its monthly overdue counts never exceed the second
      version's. */
  lemma OverdueWithinSecondVersion(rows: seq<Installment>, m: nat)
    ensures multiset(MonthBucket(Where(rows, IsVencida), m)) <= multiset(MonthBucket(Where(rows, Analytics.IsOverdue), m))
    ensures |MonthBucket(Where(rows, IsVencida), m)| <= |MonthBucket(Where(rows, Analytics.IsOverdue), m)|
  {
    WhereMonotone(rows, IsVencida, Analytics.IsOverdue, m);
  }

  /** With non-negative values, this endpoint's monthly debt never exceeds
      the second version's. */
  lemma DebtWithinSecondVersion(items: seq<Item>)
    requires forall it :: it in items ==> it.value >= 0.0
    ensures SumOf(items, VencidaContribution) <= SumOf(items, Analytics.DebtContribution)
  {
    SumOfMonotone(items, VencidaContribution, Analytics.DebtContribution);
  }

  /** The two versions disagree on an installment stored as "Pagada" but paid
      after its due date: this one counts it as collected and not overdue,
      the second version counts it as overdue and as debt. */
  lemma LatePagadaDisagrees(r: Installment)
    requires r.dueDate.Some? && PaidLate(r) && r.state == "Pagada"
    ensures !IsVencida(r) && Analytics.IsOverdue(r)
    ensures var it := ToItem(r, r.dueDate.value);
      && PaidContribution(it) == r.value && VencidaContribution(it) == 0.0
      && Analytics.CollectedContribution(it) == 0.0 && Analytics.DebtContribution(it) == r.value
  {
    LateItemIsPaidLate(r, r.dueDate.value);
  }
}
