/** The month-of-year bucketing shared by the delinquency and recovery
    statistics: installment rows, the dictionaries they become, the twelve
    month buckets, and the delinquency percentage and month-over-month
    difference computed from two bucketings. */
module MonthlyBuckets {
  import opened Wrappers
  import opened Text
  import opened Dates

  /** One row of the installment query: (id, credit_id, installments_number,
      due_date, installments_value, installment_state, payment_date). */
  datatype Installment = Installment(
    id: int, creditId: int, number: int, dueDate: Option<CalDate>,
    value: real, state: string, paymentDate: Option<CalDate>)

  /** The dictionary a dated row is turned into: dates rendered as
      "YYYY-MM-DD", the value as a float. */
  datatype Item = Item(
    id: int, creditId: int, number: int, dueDate: string,
    value: real, state: string, paymentDate: Option<string>)

  function ToItem(r: Installment, due: CalDate): (it: Item)
    ensures it.dueDate == Iso(due) && it.value == r.value && it.state == r.state
    ensures it.paymentDate.Some? <==> r.paymentDate.Some?
    ensures r.paymentDate.Some? ==> it.paymentDate.value == Iso(r.paymentDate.value)
  {
    Item(r.id, r.creditId, r.number, Iso(due), r.value, r.state,
         match r.paymentDate case None => None case Some(p) => Some(Iso(p)))
  }

  /** The item of row `r` when its due date falls in month `m + 1`, else nothing. */
  function ItemIfInMonth(r: Installment, m: nat): seq<Item>
  {
    match r.dueDate
    case Some(due) => if due.month == m + 1 then [ToItem(r, due)] else []
    case None => []
  }

  /** The bucket of month `m + 1` (0-based `m`): the items of the rows due in
      that month of any year, in row order. */
  function MonthBucket(rows: seq<Installment>, m: nat): seq<Item>
  {
    if |rows| == 0 then []
    else MonthBucket(rows[..|rows| - 1], m) + ItemIfInMonth(rows[|rows| - 1], m)
  }

  /** `payment_date > due_date` on the rendered strings of an item. */
  predicate IsLateItem(it: Item)
  {
    it.paymentDate.Some? && LexLess(it.dueDate, it.paymentDate.value)
  }

  /** The database's `payment_date > due_date` on a row with both dates. */
  predicate PaidLate(r: Installment)
  {
    r.dueDate.Some? && r.paymentDate.Some? && Before(r.dueDate.value, r.paymentDate.value)
  }

  /** Comparing the strings, as the Python loops do, decides lateness exactly as
      the database's date comparison does. */
  lemma LateItemIsPaidLate(r: Installment, due: CalDate)
    requires r.dueDate == Some(due)
    ensures IsLateItem(ToItem(r, due)) <==> PaidLate(r)
  {
    if r.paymentDate.Some? {
      IsoOrder(due, r.paymentDate.value);
    }
  }

  /** The rows satisfying a query's WHERE condition, in order. */
  function Where(rows: seq<Installment>, p: Installment -> bool): (r: seq<Installment>)
    ensures |r| <= |rows|
  {
    if |rows| == 0 then []
    else Where(rows[..|rows| - 1], p) + (if p(rows[|rows| - 1]) then [rows[|rows| - 1]] else [])
  }

  /** `{month: [] for month in MONTHS}`. */
  function EmptyBuckets(): (g: seq<seq<Item>>)
    ensures |g| == 12 && forall m :: 0 <= m < 12 ==> g[m] == []
  {
    seq(12, _ => [])
  }

  /** The bucketing loop: each row with a due date is appended to the bucket
      named after its due month; rows without a due date are skipped. */
  method GroupByMonth(rows: seq<Installment>) returns (grouped: seq<seq<Item>>)
    ensures |grouped| == 12
    ensures forall m :: 0 <= m < 12 ==> grouped[m] == MonthBucket(rows, m)
  {
    grouped := EmptyBuckets();
    for k := 0 to |rows|
      invariant |grouped| == 12
      invariant forall m :: 0 <= m < 12 ==> grouped[m] == MonthBucket(rows[..k], m)
    {
      assert rows[..k + 1][..k] == rows[..k];
      var name := MonthNameFromDate(rows[k].dueDate);
      if name.None? {
        continue;
      }
      var i := MonthIndex(name.value).value;
      grouped := grouped[i := grouped[i] + [ToItem(rows[k], rows[k].dueDate.value)]];
    }
    assert rows[..|rows|] == rows;
  }

  // ---------------------------------------------------------------- partition

  function DatedCount(rows: seq<Installment>): nat
  {
    if |rows| == 0 then 0
    else DatedCount(rows[..|rows| - 1]) + (if rows[|rows| - 1].dueDate.Some? then 1 else 0)
  }

  /** The sizes of the buckets of the first `n` months added up. */
  function SizesUpTo(rows: seq<Installment>, n: nat): nat
  {
    if n == 0 then 0 else SizesUpTo(rows, n - 1) + |MonthBucket(rows, n - 1)|
  }

  lemma {:induction false} SizesUpToStep(rows: seq<Installment>, n: nat)
    requires |rows| > 0
    ensures var r := rows[|rows| - 1];
      SizesUpTo(rows, n) == SizesUpTo(rows[..|rows| - 1], n)
        + (if r.dueDate.Some? && r.dueDate.value.month <= n then 1 else 0)
  {
    if n > 0 {
      SizesUpToStep(rows, n - 1);
    }
  }

  lemma {:induction false} SizesOfNoRows(n: nat)
    ensures SizesUpTo([], n) == 0
  {
    if n > 0 {
      SizesOfNoRows(n - 1);
    }
  }

  /** Every dated row lands in exactly one of the twelve buckets: the bucket
      sizes add up to the number of rows with a due date. */
  lemma {:induction false} BucketSizesAddUp(rows: seq<Installment>)
    ensures SizesUpTo(rows, 12) == DatedCount(rows)
  {
    if |rows| > 0 {
      var r := rows[|rows| - 1];
      assert r.dueDate.Some? ==> r.dueDate.value.month <= 12;
      SizesUpToStep(rows, 12);
      BucketSizesAddUp(rows[..|rows| - 1]);
    } else {
      SizesOfNoRows(12);
    }
  }

  /** A bucket holds only items whose due-date text has its own month in the
      "MM" field, so no item can sit in two buckets. */
  lemma {:induction false} BucketHoldsItsMonth(rows: seq<Installment>, m: nat, j: nat)
    requires j < |MonthBucket(rows, m)|
    ensures var d := MonthBucket(rows, m)[j].dueDate; |d| == 10 && d[5..7] == Pad(m + 1, 2)
  {
    var init := MonthBucket(rows[..|rows| - 1], m);
    if j < |init| {
      BucketHoldsItsMonth(rows[..|rows| - 1], m, j);
    } else {
      var due := rows[|rows| - 1].dueDate.value;
      assert Iso(due)[5..7] == Pad(due.month, 2);
    }
  }

  /** A dated row's item is in the bucket of its due month. */
  lemma {:induction false} RowInItsBucket(rows: seq<Installment>, k: nat)
    requires k < |rows| && rows[k].dueDate.Some?
    ensures ToItem(rows[k], rows[k].dueDate.value) in MonthBucket(rows, rows[k].dueDate.value.month - 1)
  {
    var m := rows[k].dueDate.value.month - 1;
    if k < |rows| - 1 {
      assert rows[..|rows| - 1][k] == rows[k];
      RowInItsBucket(rows[..|rows| - 1], k);
    }
  }

  /** Bucketing a filtered query keeps a sub-multiset of each month's full
      bucket, so a month never has more filtered rows than rows. */
  lemma {:induction false} WhereBucketIsSubBucket(rows: seq<Installment>, p: Installment -> bool, m: nat)
    ensures multiset(MonthBucket(Where(rows, p), m)) <= multiset(MonthBucket(rows, m))
    ensures |MonthBucket(Where(rows, p), m)| <= |MonthBucket(rows, m)|
  {
    if |rows| > 0 {
      var init, last := rows[..|rows| - 1], rows[|rows| - 1];
      WhereBucketIsSubBucket(init, p, m);
      var w := Where(init, p);
      if p(last) {
        assert Where(rows, p) == w + [last];
        assert (w + [last])[..|w|] == w;
      } else {
        assert Where(rows, p) == w;
      }
      assert |multiset(MonthBucket(Where(rows, p), m))| <= |multiset(MonthBucket(rows, m))|;
    }
  }

  /** A stronger filter keeps a sub-bucket of a weaker one's: each month's
      rows under `p` are among its rows under `q` when `p` implies `q`. */
  lemma {:induction false} WhereMonotone(rows: seq<Installment>, p: Installment -> bool, q: Installment -> bool, m: nat)
    requires forall r :: p(r) ==> q(r)
    ensures multiset(MonthBucket(Where(rows, p), m)) <= multiset(MonthBucket(Where(rows, q), m))
    ensures |MonthBucket(Where(rows, p), m)| <= |MonthBucket(Where(rows, q), m)|
  {
    if |rows| > 0 {
      var init, last := rows[..|rows| - 1], rows[|rows| - 1];
      WhereMonotone(init, p, q, m);
      var wp, wq := Where(init, p), Where(init, q);
      if p(last) {
        assert Where(rows, p) == wp + [last];
        assert (wp + [last])[..|wp|] == wp;
      } else {
        assert Where(rows, p) == wp;
      }
      if q(last) {
        assert Where(rows, q) == wq + [last];
        assert (wq + [last])[..|wq|] == wq;
      } else {
        assert Where(rows, q) == wq;
      }
      assert |multiset(MonthBucket(Where(rows, p), m))| <= |multiset(MonthBucket(Where(rows, q), m))|;
    }
  }

  // ---------------------------------------------------------------- percentages

  /** Share of overdue rows in a month's rows as a percentage; "0" when the
      month has no rows or no overdue row. */
  function DelinquencyPercent(total: nat, overdue: nat): (pct: real)
    ensures total == 0 || overdue == 0 ==> pct == 0.0
    ensures total > 0 ==> pct * (total as real) == (overdue as real) * 100.0
    ensures overdue <= total ==> 0.0 <= pct <= 100.0
  {
    if total == 0 || overdue == 0 then 0.0
    else (overdue as real) / (total as real) * 100.0
  }

  /** The percentage loop over the twelve months, in calendar order. */
  method DelinquencyPercents(grouped: seq<seq<Item>>, overdue: seq<seq<Item>>) returns (pct: seq<real>)
    requires |grouped| == 12 && |overdue| == 12
    ensures |pct| == 12
    ensures forall m :: 0 <= m < 12 ==> pct[m] == DelinquencyPercent(|grouped[m]|, |overdue[m]|)
  {
    pct := [];
    for m := 0 to 12
      invariant |pct| == m
      invariant forall i :: 0 <= i < m ==> pct[i] == DelinquencyPercent(|grouped[i]|, |overdue[i]|)
    {
      pct := pct + [DelinquencyPercent(|grouped[m]|, |overdue[m]|)];
    }
  }

  /** `cmp` compares each month's percentage with the month before: 0 for the
      first month, a difference (not a ratio) for the others. */
  predicate IsMonthComparison(pct: seq<real>, cmp: seq<real>)
  {
    && |cmp| == |pct|
    && (|pct| > 0 ==> cmp[0] == 0.0)
    && forall i :: 1 <= i < |pct| ==> cmp[i] == pct[i] - pct[i - 1]
  }

  /** The loop building `comparacion_mes_anterior`. */
  method CompareWithPreviousMonth(pct: seq<real>) returns (cmp: seq<real>)
    ensures IsMonthComparison(pct, cmp)
  {
    cmp := [];
    for i := 0 to |pct|
      invariant |cmp| == i
      invariant i > 0 ==> cmp[0] == 0.0
      invariant forall j :: 1 <= j < i ==> cmp[j] == pct[j] - pct[j - 1]
    {
      if i == 0 {
        cmp := cmp + [0.0];
      } else {
        cmp := cmp + [pct[i] - pct[i - 1]];
      }
    }
  }

  function SumReals(s: seq<real>): real
  {
    if |s| == 0 then 0.0 else SumReals(s[..|s| - 1]) + s[|s| - 1]
  }

  /** The month-over-month differences telescope: added up to month `k` they
      give month `k`'s percentage minus the first month's. */
  lemma {:induction false} ComparisonsTelescope(pct: seq<real>, cmp: seq<real>, k: nat)
    requires IsMonthComparison(pct, cmp)
    requires 1 <= k <= |pct|
    ensures SumReals(cmp[..k]) == pct[k - 1] - pct[0]
  {
    if k == 1 {
      assert cmp[..1][..0] == [];
    } else {
      assert cmp[..k][..k - 1] == cmp[..k - 1];
      ComparisonsTelescope(pct, cmp, k - 1);
    }
  }

  /** One entry of `datos`: a month's counts, percentage and comparison (the
      sentence the handler renders from them is not modelled). */
  datatype MonthSummary = MonthSummary(month: string, total: nat, overdue: nat, percent: real, comparison: real)

  function Summaries(grouped: seq<seq<Item>>, overdue: seq<seq<Item>>, pct: seq<real>, cmp: seq<real>): (s: seq<MonthSummary>)
    requires |grouped| == 12 && |overdue| == 12 && |pct| == 12 && |cmp| == 12
    ensures |s| == 12
    ensures forall i :: 0 <= i < 12 ==>
      s[i] == MonthSummary(MONTHS[i], |grouped[i]|, |overdue[i]|, pct[i], if i > 0 then cmp[i] else 0.0)
  {
    seq(12, i requires 0 <= i < 12 =>
      MonthSummary(MONTHS[i], |grouped[i]|, |overdue[i]|, pct[i], if i > 0 then cmp[i] else 0.0))
  }

  // ---------------------------------------------------------------- sums

  /** The sum of `f` over a bucket. */
  function SumOf(items: seq<Item>, f: Item -> real): real
  {
    if |items| == 0 then 0.0 else SumOf(items[..|items| - 1], f) + f(items[|items| - 1])
  }

  /** A sum of contributions that never exceed another's never exceeds it. */
  lemma {:induction false} SumOfMonotone(items: seq<Item>, f: Item -> real, g: Item -> real)
    requires forall it :: it in items ==> f(it) <= g(it)
    ensures SumOf(items, f) <= SumOf(items, g)
  {
    if |items| > 0 {
      assert items[|items| - 1] in items;
      assert forall it :: it in items[..|items| - 1] ==> it in items;
      SumOfMonotone(items[..|items| - 1], f, g);
    }
  }

  /** A sum of non-negative contributions is non-negative. */
  lemma {:induction false} SumOfNonNegative(items: seq<Item>, f: Item -> real)
    requires forall it :: it in items ==> f(it) >= 0.0
    ensures SumOf(items, f) >= 0.0
  {
    if |items| > 0 {
      assert items[|items| - 1] in items;
      assert forall it :: it in items[..|items| - 1] ==> it in items;
      SumOfNonNegative(items[..|items| - 1], f);
    }
  }

  /** What both installments-by-month endpoints return: the buckets, the
      per-month summaries, and debt, collected amount and balance per month. */
  datatype MonthlyReport = MonthlyReport(
    installments: seq<seq<Item>>,
    datos: seq<MonthSummary>,
    debtPerMonth: seq<real>,
    amountPerMonth: seq<real>,
    balancePerMonth: seq<real>)

  /** `balance[i] = monto[i] - deuda[i]` for the twelve months. */
  method BalancePerMonth(amount: seq<real>, debt: seq<real>) returns (balance: seq<real>)
    requires |amount| == 12 && |debt| == 12
    ensures |balance| == 12 && forall m :: 0 <= m < 12 ==> balance[m] == amount[m] - debt[m]
  {
    balance := seq(12, _ => 0.0);
    for i := 0 to 12
      invariant |balance| == 12
      invariant forall m :: 0 <= m < i ==> balance[m] == amount[m] - debt[m]
    {
      balance := balance[i := amount[i] - debt[i]];
    }
  }

  /** The nested loop over months and their items that adds one contribution
      to each of two twelve-entry accumulators, as in
      `deuda_por_mes[i] += value` / `monto_por_mes[i] += value`. */
  method SumTwoPerMonth(grouped: seq<seq<Item>>, f: Item -> real, g: Item -> real)
    returns (accF: seq<real>, accG: seq<real>)
    requires |grouped| == 12
    ensures |accF| == 12 && |accG| == 12
    ensures forall m :: 0 <= m < 12 ==> accF[m] == SumOf(grouped[m], f) && accG[m] == SumOf(grouped[m], g)
  {
    accF, accG := seq(12, _ => 0.0), seq(12, _ => 0.0);
    for i := 0 to 12
      invariant |accF| == 12 && |accG| == 12
      invariant forall m :: 0 <= m < i ==> accF[m] == SumOf(grouped[m], f) && accG[m] == SumOf(grouped[m], g)
      invariant forall m :: i <= m < 12 ==> accF[m] == 0.0 && accG[m] == 0.0
    {
      var items := grouped[i];
      for j := 0 to |items|
        invariant |accF| == 12 && |accG| == 12
        invariant forall m :: 0 <= m < i ==> accF[m] == SumOf(grouped[m], f) && accG[m] == SumOf(grouped[m], g)
        invariant forall m :: i < m < 12 ==> accF[m] == 0.0 && accG[m] == 0.0
        invariant accF[i] == SumOf(items[..j], f) && accG[i] == SumOf(items[..j], g)
      {
        assert items[..j + 1][..j] == items[..j];
        accF := accF[i := accF[i] + f(items[j])];
        accG := accG[i := accG[i] + g(items[j])];
      }
      assert items[..|items|] == items;
    }
  }
}
