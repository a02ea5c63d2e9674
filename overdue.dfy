/** The overdue-installments endpoint of the first statistics service: the
    "Vencida" installments, their value and number per month (the month read
    back from the rendered due date), the month-over-month change of the
    numbers, and a comparison between two chosen months. */
module OverdueStats {
  import opened Wrappers
  import opened Text
  import opened Dates
  import opened MonthlyBuckets
  import MoraStats

  /** The dictionary each selected row becomes; dates rendered "YYYY-MM-DD". */
  datatype OverdueItem = OverdueItem(
    id: int, creditId: int, number: int, dueDate: Option<string>,
    value: real, state: string, paymentDate: Option<string>)

  function IsoOf(d: Option<CalDate>): (r: Option<string>)
    ensures r.Some? <==> d.Some?
    ensures d.Some? ==> r.value == Iso(d.value)
  {
    match d case None => None case Some(x) => Some(Iso(x))
  }

  function ToOverdueItem(r: Installment): OverdueItem
  {
    OverdueItem(r.id, r.creditId, r.number, IsoOf(r.dueDate), r.value, r.state, IsoOf(r.paymentDate))
  }

  /** The selected rows' items; their due dates can all be read back. */
  function ToOverdueItems(rows: seq<Installment>): (items: seq<OverdueItem>)
    ensures |items| == |rows| && forall k :: 0 <= k < |rows| ==> items[k] == ToOverdueItem(rows[k])
    ensures Lookupable(items)
  {
    if |rows| == 0 then []
    else
      var r := rows[|rows| - 1];
      MonthOfIsoOf(r.dueDate);
      ToOverdueItems(rows[..|rows| - 1]) + [ToOverdueItem(r)]
  }

  /** The `if month == "01" ... elif month == "12"` chain: the 0-based month
      of a two-digit month number. */
  function MonthOfNumberText(t: string): (r: Option<nat>)
    ensures r.Some? ==> r.value < 12
  {
    if t == "01" then Some(0) else if t == "02" then Some(1) else if t == "03" then Some(2)
    else if t == "04" then Some(3) else if t == "05" then Some(4) else if t == "06" then Some(5)
    else if t == "07" then Some(6) else if t == "08" then Some(7) else if t == "09" then Some(8)
    else if t == "10" then Some(9) else if t == "11" then Some(10) else if t == "12" then Some(11)
    else None
  }

  /** `due_date.split("-")[1]` mapped through the chain; `None` where the
      indexing raises or no branch matches (the table lookup then raises). */
  function MonthOfDueText(due: string): (r: Option<nat>)
    ensures r.Some? ==> r.value < 12
  {
    var parts := Split(due, '-');
    if |parts| < 2 then None else MonthOfNumberText(parts[1])
  }

  lemma PadTwo(k: nat)
    requires k < 100
    ensures Pad(k, 2) == [DigitChar(k / 10), DigitChar(k % 10)]
  {
    var hi, lo := k / 10, k % 10;
    assert hi < 10 && hi % 10 == hi && hi / 10 == 0;
    assert Pad(k, 2) == Pad(hi, 1) + [DigitChar(lo)];
    assert Pad(hi, 1) == Pad(0, 0) + [DigitChar(hi)];
  }

  lemma MonthOfNumberTextOfPad(k: nat)
    requires 1 <= k <= 12
    ensures MonthOfNumberText(Pad(k, 2)) == Some(k - 1)
  {
    if k <= 4 {
      EarlyMonthOfPad(k);
    } else if k <= 8 {
      MiddleMonthOfPad(k);
    } else {
      LateMonthOfPad(k);
    }
  }

  lemma EarlyMonthOfPad(k: nat)
    requires 1 <= k <= 4
    ensures MonthOfNumberText(Pad(k, 2)) == Some(k - 1)
  {
    PadTwo(k);
    if k == 1 {
      assert [DigitChar(0), DigitChar(1)] == "01";
    } else if k == 2 {
      assert [DigitChar(0), DigitChar(2)] == "02";
    } else if k == 3 {
      assert [DigitChar(0), DigitChar(3)] == "03";
    } else if k == 4 {
      assert [DigitChar(0), DigitChar(4)] == "04";
    }
  }

  lemma MiddleMonthOfPad(k: nat)
    requires 5 <= k <= 8
    ensures MonthOfNumberText(Pad(k, 2)) == Some(k - 1)
  {
    PadTwo(k);
    if k == 5 {
      assert [DigitChar(0), DigitChar(5)] == "05";
    } else if k == 6 {
      assert [DigitChar(0), DigitChar(6)] == "06";
    } else if k == 7 {
      assert [DigitChar(0), DigitChar(7)] == "07";
    } else if k == 8 {
      assert [DigitChar(0), DigitChar(8)] == "08";
    }
  }

  lemma LateMonthOfPad(k: nat)
    requires 9 <= k <= 12
    ensures MonthOfNumberText(Pad(k, 2)) == Some(k - 1)
  {
    PadTwo(k);
    if k == 9 {
      assert [DigitChar(0), DigitChar(9)] == "09";
    } else if k == 10 {
      assert [DigitChar(1), DigitChar(0)] == "10";
    } else if k == 11 {
      assert [DigitChar(1), DigitChar(1)] == "11";
    } else if k == 12 {
      assert [DigitChar(1), DigitChar(2)] == "12";
    }
  }

  /** Reading the month back from a rendered date gives the date's month. */
  lemma MonthOfIso(d: CalDate)
    ensures MonthOfDueText(Iso(d)) == Some(d.month - 1)
  {
    var y, m, dd := Pad(d.year, 4), Pad(d.month, 2), Pad(d.day, 2);
    assert '-' !in y && '-' !in m && '-' !in dd by {
      assert forall i :: 0 <= i < |y| ==> IsDigit(y[i]);
      assert forall i :: 0 <= i < |m| ==> IsDigit(m[i]);
      assert forall i :: 0 <= i < |dd| ==> IsDigit(dd[i]);
    }
    assert Iso(d) == y + ['-'] + (m + ['-'] + dd);
    SplitFirstField(y, '-', m + ['-'] + dd);
    SplitFirstField(m, '-', dd);
    SplitNoSeparator(dd, '-');
    assert Split(Iso(d), '-') == [y, m, dd];
    MonthOfNumberTextOfPad(d.month);
  }

  lemma MonthOfIsoOf(d: Option<CalDate>)
    ensures d.Some? ==> MonthOfDueText(Iso(d.value)) == Some(d.value.month - 1)
  {
    if d.Some? {
      MonthOfIso(d.value);
    }
  }

  /** The lookup succeeds for every item with a due date. */
  predicate Lookupable(items: seq<OverdueItem>)
  {
    forall k :: 0 <= k < |items| && items[k].dueDate.Some? ==> MonthOfDueText(items[k].dueDate.value).Some?
  }

  /** `cantidad_cuotas_vencidas_mes[month]`: `[0]` the summed value, `[1]` the
      number of installments. */
  datatype MonthTotal = MonthTotal(value: real, count: nat)

  function ZeroTotals(): (t: seq<MonthTotal>)
    ensures |t| == 12 && forall m :: 0 <= m < 12 ==> t[m] == MonthTotal(0.0, 0)
  {
    seq(12, _ => MonthTotal(0.0, 0))
  }

  function AddToMonth(t: seq<MonthTotal>, m: nat, v: real): (r: seq<MonthTotal>)
    requires |t| == 12 && m < 12
  {
    t[m := MonthTotal(t[m].value + v, t[m].count + 1)]
  }

  /** The table built from a list of items. */
  function Totals(items: seq<OverdueItem>): (t: seq<MonthTotal>)
    requires Lookupable(items)
    ensures |t| == 12
  {
    if |items| == 0 then ZeroTotals()
    else
      var init, it := items[..|items| - 1], items[|items| - 1];
      assert Lookupable(init) by { assert forall k :: 0 <= k < |init| ==> init[k] == items[k]; }
      var t := Totals(init);
      if it.dueDate.Some? then AddToMonth(t, MonthOfDueText(it.dueDate.value).value, it.value) else t
  }

  function ValueOf(it: Item): real { it.value }

  /** One more item adds its value and one to its month's entry. */
  lemma TotalsSnoc(items: seq<OverdueItem>, it: OverdueItem)
    requires Lookupable(items + [it])
    ensures Lookupable(items)
    ensures it.dueDate.Some? ==> MonthOfDueText(it.dueDate.value).Some?
    ensures Totals(items + [it]) == if it.dueDate.Some? then AddToMonth(Totals(items), MonthOfDueText(it.dueDate.value).value, it.value) else Totals(items)
  {
    assert (items + [it])[..|items|] == items;
    assert (items + [it])[|items|] == it;
  }

  lemma SumOfSnoc(items: seq<Item>, x: Item, f: Item -> real)
    ensures SumOf(items + [x], f) == SumOf(items, f) + f(x)
  {
    assert (items + [x])[..|items|] == items;
  }

  /** Each month's entry of the table holds the summed value and the number
      of that month's rows: the same rows the month buckets hold. */
  lemma {:induction false} TotalsAreBuckets(rows: seq<Installment>, m: nat)
    requires m < 12
    ensures Totals(ToOverdueItems(rows))[m] == MonthTotal(SumOf(MonthBucket(rows, m), ValueOf), |MonthBucket(rows, m)|)
  {
    if |rows| > 0 {
      var init, r := rows[..|rows| - 1], rows[|rows| - 1];
      TotalsAreBuckets(init, m);
      var items0 := ToOverdueItems(init);
      assert ToOverdueItems(rows) == items0 + [ToOverdueItem(r)];
      TotalsSnoc(items0, ToOverdueItem(r));
      var b := MonthBucket(init, m);
      assert MonthBucket(rows, m) == b + ItemIfInMonth(r, m);
      var t0 := Totals(items0);
      match r.dueDate
      case None =>
        assert Totals(ToOverdueItems(rows)) == t0;
        assert MonthBucket(rows, m) == b;
      case Some(due) =>
        MonthOfIso(due);
        var t1 := AddToMonth(t0, due.month - 1, r.value);
        assert Totals(ToOverdueItems(rows)) == t1;
        if due.month == m + 1 {
          assert MonthBucket(rows, m) == b + [ToItem(r, due)];
          SumOfSnoc(b, ToItem(r, due), ValueOf);
          assert SumOf(MonthBucket(rows, m), ValueOf) == SumOf(b, ValueOf) + r.value;
          assert |MonthBucket(rows, m)| == |b| + 1;
          assert t1[m] == MonthTotal(t0[m].value + r.value, t0[m].count + 1);
          assert t1[m] == MonthTotal(SumOf(MonthBucket(rows, m), ValueOf), |MonthBucket(rows, m)|);
        } else {
          assert MonthBucket(rows, m) == b;
          assert t1[m] == t0[m];
        }
    }
  }

  /** The inner loop: the table rebuilt from every item appended so far. */
  method RebuildTotals(items: seq<OverdueItem>) returns (r: Result<seq<MonthTotal>, string>)
    ensures r.Ok? <==> Lookupable(items)
    ensures r.Ok? ==> r.value == Totals(items)
  {
    var t := ZeroTotals();
    for j := 0 to |items|
      invariant Lookupable(items[..j]) && t == Totals(items[..j])
    {
      assert items[..j + 1][..j] == items[..j];
      var it := items[j];
      if it.dueDate.Some? {
        var m := MonthOfDueText(it.dueDate.value);
        if m.None? {
          return Err("KeyError");
        }
        t := AddToMonth(t, m.value, it.value);
      }
    }
    assert items[..|items|] == items;
    r := Ok(t);
  }

  /** The row loop as written: each row's item is appended and the table is
      rebuilt from scratch; the table exists only once a row was seen, so with
      no "Vencida" row the month-over-month loop reads an unbound name. */
  method OverdueTotalsAsWritten(rows: seq<Installment>) returns (r: Result<seq<MonthTotal>, string>)
    ensures r.Err? <==> |Where(rows, MoraStats.IsVencida)| == 0
    ensures r.Ok? ==> r.value == Totals(ToOverdueItems(Where(rows, MoraStats.IsVencida)))
  {
    var selected := Where(rows, MoraStats.IsVencida);
    var items: seq<OverdueItem> := [];
    var table: Option<seq<MonthTotal>> := None;
    for k := 0 to |selected|
      invariant items == ToOverdueItems(selected[..k])
      invariant k == 0 <==> table.None?
      invariant table.Some? ==> Lookupable(items) && table.value == Totals(items)
    {
      assert selected[..k + 1][..k] == selected[..k];
      items := items + [ToOverdueItem(selected[k])];
      assert items == ToOverdueItems(selected[..k + 1]);
      var t := RebuildTotals(items);
      table := Some(t.value);
    }
    assert selected[..|selected|] == selected;
    if table.None? {
      return Err("UnboundLocalError");
    }
    r := Ok(table.value);
  }

  /** The table as evidently intended: all zeros when there is no overdue
      installment, else what the row loop builds. */
  method OverdueTotals(rows: seq<Installment>) returns (t: seq<MonthTotal>)
    ensures |t| == 12
    ensures forall m :: 0 <= m < 12 ==>
      t[m] == MonthTotal(SumOf(MonthBucket(Where(rows, MoraStats.IsVencida), m), ValueOf),
                         |MonthBucket(Where(rows, MoraStats.IsVencida), m)|)
  {
    var selected := Where(rows, MoraStats.IsVencida);
    forall m | 0 <= m < 12
      ensures Totals(ToOverdueItems(selected))[m] ==
        MonthTotal(SumOf(MonthBucket(selected, m), ValueOf), |MonthBucket(selected, m)|)
    {
      TotalsAreBuckets(selected, m);
    }
    if |selected| == 0 {
      return ZeroTotals();
    }
    var r := OverdueTotalsAsWritten(rows);
    t := r.value;
  }

  // ---------------------------------------------------------------- month-over-month

  /** Python's `round` on a number: the nearest integer, ties to the even one. */
  function RoundHalfEven(x: real): (r: int)
    ensures (r as real) - x <= 0.5 && x - (r as real) <= 0.5
    ensures ((r as real) - x == 0.5 || x - (r as real) == 0.5) ==> r % 2 == 0
  {
    var f := x.Floor;
    var d := x - (f as real);
    if d < 0.5 then f else if d > 0.5 then f + 1 else if f % 2 == 0 then f else f + 1
  }

  /** `f"{n}%"`. */
  function PercentText(n: int): (s: string)
    ensures |s| > 0 && s[|s| - 1] == '%'
  {
    IntText(n) + "%"
  }

  /** The number in a percentage text reads back as the rounded percentage. */
  lemma PercentTextReadsBack(n: int)
    ensures var s := PercentText(n); ParseInt(s[..|s| - 1]) == Some(n)
  {
    var s := PercentText(n);
    assert s[..|s| - 1] == IntText(n);
    ParseIntText(n);
  }

  /** The change of a month's count against the previous month's, as a rounded
      percentage; 0 when there is no previous month or its count is 0. */
  function MomPercent(prev: Option<nat>, cur: nat): (r: int)
    ensures prev == None || prev == Some(0) ==> r == 0
    ensures prev.Some? && prev.value > 0 ==>
      RoundHalfEven(((cur as real) - (prev.value as real)) / (prev.value as real) * 100.0) == r
  {
    if prev == None || prev == Some(0) then 0
    else RoundHalfEven(((cur as real) - (prev.value as real)) / (prev.value as real) * 100.0)
  }

  /** A month's count that doubles, stays, or falls to 0 gives +100%, 0% and
      -100%. */
  lemma MomPercentLandmarks(prev: nat)
    requires prev > 0
    ensures MomPercent(Some(prev), 2 * prev) == 100
    ensures MomPercent(Some(prev), prev) == 0
    ensures MomPercent(Some(prev), 0) == -100
  {
    MomPercentDoubled(prev);
    MomPercentSteady(prev);
    MomPercentEmptied(prev);
  }

  lemma MomPercentDoubled(prev: nat)
    requires prev > 0
    ensures MomPercent(Some(prev), 2 * prev) == 100
  {
    var p := prev as real;
    assert ((2 * prev) as real - p) / p * 100.0 == 100.0 by {
      assert (2 * prev) as real - p == p;
      assert p / p == 1.0;
    }
    RoundWhole(100);
  }

  lemma MomPercentSteady(prev: nat)
    requires prev > 0
    ensures MomPercent(Some(prev), prev) == 0
  {
    var p := prev as real;
    assert (p - p) / p * 100.0 == 0.0;
    RoundWhole(0);
  }

  lemma MomPercentEmptied(prev: nat)
    requires prev > 0
    ensures MomPercent(Some(prev), 0) == -100
  {
    var p := prev as real;
    assert ((0 as nat) as real - p) / p * 100.0 == -100.0 by {
      assert (0 as nat) as real - p == -p;
      assert (-p) / p == -1.0;
    }
    RoundWhole(-100);
  }

  lemma RoundWhole(n: int)
    ensures RoundHalfEven(n as real) == n
  {
  }

  datatype MonthOverdue = MonthOverdue(value: real, count: nat, mom: string)

  /** The loop appending each month's month-over-month text. */
  method MonthOverMonth(t: seq<MonthTotal>) returns (months: seq<MonthOverdue>)
    requires |t| == 12
    ensures |months| == 12
    ensures forall m :: 0 <= m < 12 ==> months[m].value == t[m].value && months[m].count == t[m].count
    ensures months[0].mom == "0%"
    ensures forall m :: 1 <= m < 12 ==> months[m].mom == PercentText(MomPercent(Some(t[m - 1].count), t[m].count))
  {
    months := [];
    var prev: Option<nat> := None;
    for i := 0 to 12
      invariant |months| == i
      invariant prev == (if i == 0 then None else Some(t[i - 1].count))
      invariant forall m :: 0 <= m < i ==> months[m].value == t[m].value && months[m].count == t[m].count
      invariant i > 0 ==> months[0].mom == "0%"
      invariant forall m :: 1 <= m < i ==> months[m].mom == PercentText(MomPercent(Some(t[m - 1].count), t[m].count))
    {
      var cur := t[i].count;
      var mom := if prev == None || prev == Some(0) then "0%" else PercentText(MomPercent(prev, cur));
      assert i == 0 ==> mom == "0%";
      months := months + [MonthOverdue(t[i].value, cur, mom)];
      prev := Some(cur);
    }
  }

  // ---------------------------------------------------------------- comparison of two months

  /** A value of `MonthEnum`; the web framework rejects any other name before
      the endpoint runs. */
  type MonthName = s: string | s in MONTHS witness "Enero"

  const DEFAULT_REFERENCE_MONTH: MonthName := "Enero"
  const DEFAULT_COMPARE_MONTH: MonthName := "Febrero"

  datatype MonthComparison = MonthComparison(
    referenceMonth: string, compareMonth: string, refCount: nat, cmpCount: nat,
    deltaAbs: nat, direction: string, deltaPercent: string)

  const CANNOT_COMPARE := "no se puede comparar"

  /** `"aumentó"`, `"disminuyó"` or `"igual"` as the count went up, down or
      stayed. */
  function Direction(refCount: nat, cmpCount: nat): (d: string)
    ensures d == "aumentó" <==> cmpCount > refCount
    ensures d == "disminuyó" <==> cmpCount < refCount
    ensures d == "igual" <==> cmpCount == refCount
  {
    if cmpCount > refCount then "aumentó" else if cmpCount < refCount then "disminuyó" else "igual"
  }

  /** The change in percent of the reference count, or the notice that a
      reference month without installments cannot be compared. */
  function DeltaPercent(refCount: nat, cmpCount: nat): (p: string)
    ensures p == CANNOT_COMPARE <==> refCount == 0
    ensures refCount > 0 ==> p == PercentText(MomPercent(Some(refCount), cmpCount))
  {
    if refCount == 0 then CANNOT_COMPARE
    else
      var p := PercentText(RoundHalfEven(((cmpCount - refCount) as real) / (refCount as real) * 100.0));
      assert p[|p| - 1] == '%';
      p
  }

  /** The comparison of the compared month's count against the reference
      month's. */
  function CompareMonths(refName: MonthName, cmpName: MonthName, months: seq<MonthOverdue>): (c: MonthComparison)
    requires |months| == 12
    ensures MonthIndex(refName).Some? && MonthIndex(cmpName).Some?
    ensures c.referenceMonth == refName && c.compareMonth == cmpName
    ensures c.refCount == months[MonthIndex(refName).value].count
    ensures c.cmpCount == months[MonthIndex(cmpName).value].count
    ensures c.deltaAbs as int == if c.cmpCount >= c.refCount then c.cmpCount - c.refCount else c.refCount - c.cmpCount
    ensures c.direction == Direction(c.refCount, c.cmpCount)
    ensures c.deltaPercent == DeltaPercent(c.refCount, c.cmpCount)
  {
    MonthIndexOfMember(refName);
    MonthIndexOfMember(cmpName);
    var refCount := months[MonthIndex(refName).value].count;
    var cmpCount := months[MonthIndex(cmpName).value].count;
    var delta := cmpCount - refCount;
    MonthComparison(refName, cmpName, refCount, cmpCount, if delta < 0 then -delta else delta,
                    Direction(refCount, cmpCount), DeltaPercent(refCount, cmpCount))
  }

  /** Comparing a month with itself gives no change. */
  lemma CompareWithItself(name: MonthName, months: seq<MonthOverdue>)
    requires |months| == 12
    ensures CompareMonths(name, name, months).deltaAbs == 0
    ensures CompareMonths(name, name, months).direction == "igual"
  {
  }

  datatype OverdueReport = OverdueReport(months: seq<MonthOverdue>, comparison: MonthComparison)

  /** `get_overdue_installments`, corrected: the per-month table is
      `OverdueTotals`, so a table with no "Vencida" row gives twelve zero
      months where as written (`OverdueTotalsAsWritten`) the endpoint
      fails. */
  method OverdueInstallments(rows: seq<Installment>, monthRef: MonthName, monthCmp: MonthName) returns (rep: OverdueReport)
    ensures |rep.months| == 12
    ensures forall m :: 0 <= m < 12 ==>
      && rep.months[m].count == |MonthBucket(Where(rows, MoraStats.IsVencida), m)|
      && rep.months[m].value == SumOf(MonthBucket(Where(rows, MoraStats.IsVencida), m), ValueOf)
    ensures rep.months[0].mom == "0%"
    ensures forall m :: 1 <= m < 12 ==> rep.months[m].mom == PercentText(MomPercent(Some(rep.months[m - 1].count), rep.months[m].count))
    ensures rep.comparison == CompareMonths(monthRef, monthCmp, rep.months)
  {
    var t := OverdueTotals(rows);
    var months := MonthOverMonth(t);
    rep := OverdueReport(months, CompareMonths(monthRef, monthCmp, months));
  }
}
