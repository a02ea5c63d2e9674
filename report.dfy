/** The PDF report service: the conditions its filters put on the query of
    credits joined with their clients, the manager shown for each credit,
    the statistics of the selected credits, and the report's file name and
    result. The PDF itself becomes a parameter: its size, or the error
    writing it raised. */
module Reports {
  import opened Wrappers
  import opened Text
  import opened Dates

  /** A row of the credits-joined-with-clients query. */
  datatype Record = Record(creditId: int, paymentReference: int, amount: Option<int>, disbursementDate: CalDate,
                           creditState: string, clientId: int, clientName: string, clientDocument: string,
                           clientZone: Option<string>)

  /** `ReportFilters`; the schema requires the two debt ages to be at least 0. */
  datatype Filters = Filters(creditState: Option<string>, clientZone: Option<string>, managerId: Option<int>,
                             debtAgeMin: Option<nat>, debtAgeMax: Option<nat>)

  /** A portfolio row: a manager responsible for an installment of a credit. */
  datatype Assignment = Assignment(creditId: int, managerId: int, managerName: string)

  /** Python truthiness of an optional string and an optional id. */
  predicate Truthy(s: Option<string>) { s.Some? && s.value != "" }
  predicate TruthyId(n: Option<int>) { n.Some? && n.value != 0 }

  // ---------------------------------------------------------------- the conditions

  /** One condition of the query's `WHERE`; dates are compared through their
      day numbers, as Python compares them. */
  datatype Condition =
    | StateIs(state: string)
    | ZoneIs(zone: string)
    | DisbursedBy(ordinal: int)
    | DisbursedFrom(ordinal: int)
    | ManagedBy(managerId: int)

  /** Whether some installment of the credit is managed by the manager. */
  predicate Manages(assignments: seq<Assignment>, creditId: int, managerId: int)
  {
    exists k :: 0 <= k < |assignments| && assignments[k] == Assignment(creditId, managerId, assignments[k].managerName)
  }

  predicate Holds(c: Condition, r: Record, assignments: seq<Assignment>)
  {
    match c
    case StateIs(s) => r.creditState == s
    case ZoneIs(z) => r.clientZone == Some(z)
    case DisbursedBy(o) => Ordinal(r.disbursementDate) <= o
    case DisbursedFrom(o) => Ordinal(r.disbursementDate) >= o
    case ManagedBy(m) => Manages(assignments, r.creditId, m)
  }

  /** `and_(*conditions)`, and no `WHERE` at all for an empty list. */
  predicate AllHold(conditions: seq<Condition>, r: Record, assignments: seq<Assignment>)
  {
    forall i :: 0 <= i < |conditions| ==> Holds(conditions[i], r, assignments)
  }

  const OUT_OF_RANGE := "date value out of range"

  /** `today - timedelta(days=d)` falls before 0001-01-01, the first day
      Python's dates have, and raises. */
  predicate AgeOverflows(today: CalDate, age: Option<nat>)
  {
    age.Some? && Ordinal(today) - age.value < 1
  }

  predicate Overflows(f: Filters, today: CalDate)
  {
    AgeOverflows(today, f.debtAgeMin) || AgeOverflows(today, f.debtAgeMax)
  }

  /** The selection the filters describe, in terms of the debt's age in days
      and of the period's two dates, both included. */
  predicate Selected(filters: Option<Filters>, periodStart: Option<CalDate>, periodEnd: Option<CalDate>,
                     today: CalDate, r: Record, assignments: seq<Assignment>)
  {
    var age := Ordinal(today) - Ordinal(r.disbursementDate);
    && (filters.Some? ==>
          var f := filters.value;
          && (Truthy(f.creditState) ==> r.creditState == f.creditState.value)
          && (Truthy(f.clientZone) ==> r.clientZone == f.clientZone)
          && (f.debtAgeMin.Some? ==> age >= f.debtAgeMin.value)
          && (f.debtAgeMax.Some? ==> age <= f.debtAgeMax.value)
          && (TruthyId(f.managerId) ==> Manages(assignments, r.creditId, f.managerId.value)))
    && (periodStart.Some? ==> !Before(r.disbursementDate, periodStart.value))
    && (periodEnd.Some? ==> !Before(periodEnd.value, r.disbursementDate))
  }

  /** No filter and no period: nothing to ask of a row. */
  predicate Unfiltered(filters: Option<Filters>, periodStart: Option<CalDate>, periodEnd: Option<CalDate>)
  {
    && periodStart.None? && periodEnd.None?
    && (filters.Some? ==>
          && !Truthy(filters.value.creditState) && !Truthy(filters.value.clientZone)
          && filters.value.debtAgeMin.None? && filters.value.debtAgeMax.None? && !TruthyId(filters.value.managerId))
  }

  /** The condition list `_collect_data` appends to, in its order. */
  method Conditions(filters: Option<Filters>, periodStart: Option<CalDate>, periodEnd: Option<CalDate>, today: CalDate)
    returns (r: Result<seq<Condition>, string>)
    ensures r.Err? <==> filters.Some? && Overflows(filters.value, today)
    ensures r.Err? ==> r.error == OUT_OF_RANGE
    ensures r.Ok? ==> forall rec, assignments :: AllHold(r.value, rec, assignments) <==> Selected(filters, periodStart, periodEnd, today, rec, assignments)
    ensures r.Ok? && Unfiltered(filters, periodStart, periodEnd) ==> r.value == []
  {
    var conditions: seq<Condition> := [];
    if filters.Some? {
      var part := FilterPart(filters.value, today);
      if part.Err? {
        return Err(part.error);
      }
      conditions := part.value;
    }
    ghost var filterPart := conditions;
    assert filterPart == FilterConditions(filters, today);
    if periodStart.Some? {
      conditions := conditions + [DisbursedFrom(Ordinal(periodStart.value))];
    }
    if periodEnd.Some? {
      conditions := conditions + [DisbursedBy(Ordinal(periodEnd.value))];
    }
    assert conditions == filterPart + PeriodConditions(periodStart, periodEnd);
    ghost var datePart := conditions;
    if filters.Some? && TruthyId(filters.value.managerId) {
      conditions := conditions + [ManagedBy(filters.value.managerId.value)];
    }
    assert conditions == datePart + ManagerCondition(filters);
    ConditionsSelect(filters, periodStart, periodEnd, today);
    assert Unfiltered(filters, periodStart, periodEnd) ==> conditions == [];
    r := Ok(conditions);
  }

  /** The appends for the filters' state, zone and debt-age fields. */
  method FilterPart(f: Filters, today: CalDate) returns (r: Result<seq<Condition>, string>)
    ensures r.Err? <==> Overflows(f, today)
    ensures r.Err? ==> r.error == OUT_OF_RANGE
    ensures r.Ok? ==> r.value == FilterConditions(Some(f), today)
  {
    var conditions: seq<Condition> := [];
    if Truthy(f.creditState) {
      conditions := conditions + [StateIs(f.creditState.value)];
    }
    if Truthy(f.clientZone) {
      conditions := conditions + [ZoneIs(f.clientZone.value)];
    }
    assert conditions == StateCondition(f) + ZoneCondition(f);
    if f.debtAgeMin.Some? || f.debtAgeMax.Some? {
      var todayOrdinal := Ordinal(today);
      if f.debtAgeMin.Some? {
        if todayOrdinal - f.debtAgeMin.value < 1 {
          return Err(OUT_OF_RANGE);
        }
        conditions := conditions + [DisbursedBy(todayOrdinal - f.debtAgeMin.value)];
      }
      if f.debtAgeMax.Some? {
        if todayOrdinal - f.debtAgeMax.value < 1 {
          return Err(OUT_OF_RANGE);
        }
        conditions := conditions + [DisbursedFrom(todayOrdinal - f.debtAgeMax.value)];
      }
    }
    r := Ok(conditions);
  }

  /** The conditions of the filters' first four fields. */
  function FilterConditions(filters: Option<Filters>, today: CalDate): seq<Condition>
    requires filters.Some? ==> !Overflows(filters.value, today)
  {
    if filters.None? then []
    else
      var f := filters.value;
      StateCondition(f) + ZoneCondition(f) + MinAgeCondition(f, today) + MaxAgeCondition(f, today)
  }

  function StateCondition(f: Filters): seq<Condition>
  {
    if Truthy(f.creditState) then [StateIs(f.creditState.value)] else []
  }

  function ZoneCondition(f: Filters): seq<Condition>
  {
    if Truthy(f.clientZone) then [ZoneIs(f.clientZone.value)] else []
  }

  function MinAgeCondition(f: Filters, today: CalDate): seq<Condition>
  {
    if f.debtAgeMin.Some? then [DisbursedBy(Ordinal(today) - f.debtAgeMin.value)] else []
  }

  function MaxAgeCondition(f: Filters, today: CalDate): seq<Condition>
  {
    if f.debtAgeMax.Some? then [DisbursedFrom(Ordinal(today) - f.debtAgeMax.value)] else []
  }

  function PeriodConditions(periodStart: Option<CalDate>, periodEnd: Option<CalDate>): seq<Condition>
  {
    (if periodStart.Some? then [DisbursedFrom(Ordinal(periodStart.value))] else [])
    + (if periodEnd.Some? then [DisbursedBy(Ordinal(periodEnd.value))] else [])
  }

  function ManagerCondition(filters: Option<Filters>): seq<Condition>
  {
    if filters.Some? && TruthyId(filters.value.managerId) then [ManagedBy(filters.value.managerId.value)] else []
  }

  lemma AllHoldConcat(a: seq<Condition>, b: seq<Condition>, r: Record, assignments: seq<Assignment>)
    ensures AllHold(a + b, r, assignments) <==> AllHold(a, r, assignments) && AllHold(b, r, assignments)
  {
    if AllHold(a, r, assignments) && AllHold(b, r, assignments) {
      forall i | 0 <= i < |a + b| ensures Holds((a + b)[i], r, assignments) {
        if i >= |a| { assert (a + b)[i] == b[i - |a|]; }
      }
    }
    if AllHold(a + b, r, assignments) {
      forall i | 0 <= i < |a| ensures Holds(a[i], r, assignments) {
        assert (a + b)[i] == a[i];
      }
      forall i | 0 <= i < |b| ensures Holds(b[i], r, assignments) {
        assert (a + b)[|a| + i] == b[i];
      }
    }
  }

  lemma AllHoldSingle(c: Condition, r: Record, assignments: seq<Assignment>)
    ensures AllHold([c], r, assignments) <==> Holds(c, r, assignments)
    ensures AllHold([], r, assignments)
  {
    assert [c][0] == c;
  }

  /** The built conditions hold of a row exactly when the row is selected. */
  lemma ConditionsSelect(filters: Option<Filters>, periodStart: Option<CalDate>, periodEnd: Option<CalDate>, today: CalDate)
    requires filters.Some? ==> !Overflows(filters.value, today)
    ensures forall rec, assignments ::
      AllHold(FilterConditions(filters, today) + PeriodConditions(periodStart, periodEnd) + ManagerCondition(filters), rec, assignments)
      <==> Selected(filters, periodStart, periodEnd, today, rec, assignments)
  {
    forall rec, assignments
      ensures AllHold(FilterConditions(filters, today) + PeriodConditions(periodStart, periodEnd) + ManagerCondition(filters), rec, assignments)
          <==> Selected(filters, periodStart, periodEnd, today, rec, assignments)
    {
      SelectOne(filters, periodStart, periodEnd, today, rec, assignments);
    }
  }

  lemma SelectOne(filters: Option<Filters>, periodStart: Option<CalDate>, periodEnd: Option<CalDate>, today: CalDate,
                  rec: Record, assignments: seq<Assignment>)
    requires filters.Some? ==> !Overflows(filters.value, today)
    ensures AllHold(FilterConditions(filters, today) + PeriodConditions(periodStart, periodEnd) + ManagerCondition(filters), rec, assignments)
      <==> Selected(filters, periodStart, periodEnd, today, rec, assignments)
  {
    var a, b, c := FilterConditions(filters, today), PeriodConditions(periodStart, periodEnd), ManagerCondition(filters);
    AllHoldConcat(a + b, c, rec, assignments);
    AllHoldConcat(a, b, rec, assignments);
    FilterConditionsSelect(filters, today, rec, assignments);
    PeriodConditionsSelect(periodStart, periodEnd, rec, assignments);
    ManagerConditionSelect(filters, rec, assignments);
  }

  lemma FilterConditionsSelect(filters: Option<Filters>, today: CalDate, rec: Record, assignments: seq<Assignment>)
    requires filters.Some? ==> !Overflows(filters.value, today)
    ensures AllHold(FilterConditions(filters, today), rec, assignments) <==>
      (filters.Some? ==>
          var f := filters.value;
          var age := Ordinal(today) - Ordinal(rec.disbursementDate);
          && (Truthy(f.creditState) ==> rec.creditState == f.creditState.value)
          && (Truthy(f.clientZone) ==> rec.clientZone == f.clientZone)
          && (f.debtAgeMin.Some? ==> age >= f.debtAgeMin.value)
          && (f.debtAgeMax.Some? ==> age <= f.debtAgeMax.value))
  {
    if filters.Some? {
      var f := filters.value;
      var s, z, lo, hi := StateCondition(f), ZoneCondition(f), MinAgeCondition(f, today), MaxAgeCondition(f, today);
      AllHoldConcat(s + z + lo, hi, rec, assignments);
      AllHoldConcat(s + z, lo, rec, assignments);
      AllHoldConcat(s, z, rec, assignments);
      AllHoldSingle(StateIs(""), rec, assignments);
      if Truthy(f.creditState) { AllHoldSingle(StateIs(f.creditState.value), rec, assignments); }
      if Truthy(f.clientZone) { AllHoldSingle(ZoneIs(f.clientZone.value), rec, assignments); }
      if f.debtAgeMin.Some? { AllHoldSingle(DisbursedBy(Ordinal(today) - f.debtAgeMin.value), rec, assignments); }
      if f.debtAgeMax.Some? { AllHoldSingle(DisbursedFrom(Ordinal(today) - f.debtAgeMax.value), rec, assignments); }
    }
  }

  lemma ManagerConditionSelect(filters: Option<Filters>, rec: Record, assignments: seq<Assignment>)
    ensures AllHold(ManagerCondition(filters), rec, assignments) <==>
      (filters.Some? && TruthyId(filters.value.managerId) ==> Manages(assignments, rec.creditId, filters.value.managerId.value))
  {
    if filters.Some? && TruthyId(filters.value.managerId) {
      AllHoldSingle(ManagedBy(filters.value.managerId.value), rec, assignments);
    } else {
      AllHoldSingle(ManagedBy(0), rec, assignments);
    }
  }

  lemma PeriodConditionsSelect(periodStart: Option<CalDate>, periodEnd: Option<CalDate>, rec: Record, assignments: seq<Assignment>)
    ensures AllHold(PeriodConditions(periodStart, periodEnd), rec, assignments) <==>
      && (periodStart.Some? ==> !Before(rec.disbursementDate, periodStart.value))
      && (periodEnd.Some? ==> !Before(periodEnd.value, rec.disbursementDate))
  {
    var a := if periodStart.Some? then [DisbursedFrom(Ordinal(periodStart.value))] else [];
    var b := if periodEnd.Some? then [DisbursedBy(Ordinal(periodEnd.value))] else [];
    AllHoldConcat(a, b, rec, assignments);
    if periodStart.Some? {
      AllHoldSingle(DisbursedFrom(Ordinal(periodStart.value)), rec, assignments);
      OrdinalOrder(rec.disbursementDate, periodStart.value);
    } else {
      AllHoldSingle(DisbursedFrom(0), rec, assignments);
    }
    if periodEnd.Some? {
      AllHoldSingle(DisbursedBy(Ordinal(periodEnd.value)), rec, assignments);
      OrdinalOrder(periodEnd.value, rec.disbursementDate);
    }
  }

  /** The rows of `s` that satisfy `p`, in order: what the database returns
      for a `WHERE`. */
  function Filter(s: seq<Record>, p: Record -> bool): (r: seq<Record>)
    ensures |r| <= |s|
    ensures forall x :: x in r <==> x in s && p(x)
  {
    if |s| == 0 then []
    else
      var init := Filter(s[..|s| - 1], p);
      assert forall x :: x in s <==> x in s[..|s| - 1] || x == s[|s| - 1];
      if p(s[|s| - 1]) then init + [s[|s| - 1]] else init
  }

  lemma {:induction false} FilterSame(s: seq<Record>, p: Record -> bool, q: Record -> bool)
    requires forall x :: x in s ==> p(x) == q(x)
    ensures Filter(s, p) == Filter(s, q)
  {
    if |s| > 0 {
      assert forall x :: x in s[..|s| - 1] ==> x in s;
      FilterSame(s[..|s| - 1], p, q);
      assert s[|s| - 1] in s;
    }
  }

  // ---------------------------------------------------------------- managers

  /** The manager name of the first assignment of the credit, if any. */
  function FirstManager(assignments: seq<Assignment>, creditId: int): Option<string>
  {
    if |assignments| == 0 then None
    else
      var earlier := FirstManager(assignments[..|assignments| - 1], creditId);
      var last := assignments[|assignments| - 1];
      if earlier.None? && last.creditId == creditId then Some(last.managerName) else earlier
  }

  /** The name `FirstManager` finds is that of an assignment of the credit
      with none of the credit's assignments before it, and it finds none
      only when the credit has no assignment. */
  lemma {:induction false} FirstManagerIsFirst(assignments: seq<Assignment>, creditId: int)
    ensures FirstManager(assignments, creditId).None? <==> forall k :: 0 <= k < |assignments| ==> assignments[k].creditId != creditId
    ensures FirstManager(assignments, creditId).Some? ==>
      exists k :: && 0 <= k < |assignments| && assignments[k].creditId == creditId
                  && assignments[k].managerName == FirstManager(assignments, creditId).value
                  && forall j :: 0 <= j < k ==> assignments[j].creditId != creditId
  {
    if |assignments| > 0 {
      var init := assignments[..|assignments| - 1];
      FirstManagerIsFirst(init, creditId);
      assert forall k :: 0 <= k < |init| ==> init[k] == assignments[k];
      if FirstManager(init, creditId).Some? {
        var k :| && 0 <= k < |init| && init[k].creditId == creditId
                 && init[k].managerName == FirstManager(init, creditId).value
                 && forall j :: 0 <= j < k ==> init[j].creditId != creditId;
        assert assignments[k] == init[k];
      } else if assignments[|assignments| - 1].creditId == creditId {
        assert forall j :: 0 <= j < |init| ==> assignments[j].creditId != creditId;
      }
    }
  }

  predicate HasCredit(records: seq<Record>, creditId: int)
  {
    exists i :: 0 <= i < |records| && records[i].creditId == creditId
  }

  /** The `credit_managers` loop over the manager rows of the selected
      credits: the first name met for each credit is kept. */
  method CreditManagers(records: seq<Record>, assignments: seq<Assignment>) returns (managers: map<int, string>)
    ensures forall id :: id in managers <==> HasCredit(records, id) && FirstManager(assignments, id).Some?
    ensures forall id :: id in managers ==> managers[id] == FirstManager(assignments, id).value
  {
    managers := map[];
    if |records| == 0 {
      return;
    }
    for k := 0 to |assignments|
      invariant forall id :: id in managers <==> HasCredit(records, id) && FirstManager(assignments[..k], id).Some?
      invariant forall id :: id in managers ==> managers[id] == FirstManager(assignments[..k], id).value
    {
      assert assignments[..k + 1][..k] == assignments[..k];
      var row := assignments[k];
      if HasCredit(records, row.creditId) && row.creditId !in managers {
        managers := managers[row.creditId := row.managerName];
      }
    }
    assert assignments[..|assignments|] == assignments;
  }

  const UNASSIGNED := "Sin asignar"

  /** `credit_managers.get(credit_id, "Sin asignar")`. */
  function ManagerName(managers: map<int, string>, creditId: int): string
  {
    if creditId in managers then managers[creditId] else UNASSIGNED
  }

  // ---------------------------------------------------------------- statistics

  /** One entry of `credits_data`. */
  datatype CreditRow = CreditRow(creditId: int, paymentReference: int, clientName: string, clientDocument: string,
                                 amount: Option<int>, disbursementDate: CalDate, creditState: string,
                                 clientZone: Option<string>, managerName: string)

  function RowOf(r: Record, managers: map<int, string>): CreditRow
  {
    CreditRow(r.creditId, r.paymentReference, r.clientName, r.clientDocument, r.amount, r.disbursementDate,
              r.creditState, r.clientZone, ManagerName(managers, r.creditId))
  }

  datatype Statistics = Statistics(totalClients: nat, totalCredits: nat, totalAmount: int)

  /** `record.disbursement_amount or 0`. */
  function AmountOrZero(r: Record): int
  {
    if r.amount.Some? then r.amount.value else 0
  }

  function TotalAmount(records: seq<Record>): int
  {
    if |records| == 0 then 0 else TotalAmount(records[..|records| - 1]) + AmountOrZero(records[|records| - 1])
  }

  /** The client ids of the records: `clients_set`. */
  function ClientIds(records: seq<Record>): set<int>
  {
    set i | 0 <= i < |records| :: records[i].clientId
  }

  lemma ClientIdsStep(records: seq<Record>, i: int)
    requires 0 <= i < |records|
    ensures ClientIds(records[..i + 1]) == ClientIds(records[..i]) + {records[i].clientId}
  {
    var a, b := records[..i + 1], records[..i];
    forall c | c in ClientIds(a) ensures c in ClientIds(b) + {records[i].clientId} {
      var j :| 0 <= j < |a| && a[j].clientId == c;
      if j < i { assert b[j] == a[j]; }
    }
    forall c | c in ClientIds(b) ensures c in ClientIds(a) {
      var j :| 0 <= j < |b| && b[j].clientId == c;
      assert a[j] == b[j];
    }
    assert a[i] == records[i];
  }

  /** There are never more distinct clients than credits, and at least one
      client as soon as there is a credit. */
  lemma {:induction false} ClientsAtMostCredits(records: seq<Record>)
    ensures |ClientIds(records)| <= |records|
    ensures |records| > 0 ==> |ClientIds(records)| >= 1
  {
    if |records| > 0 {
      var n := |records| - 1;
      ClientsAtMostCredits(records[..n]);
      ClientIdsStep(records, n);
      assert records[..n + 1] == records;
    }
  }

  /** The total is additive: the total of two batches of credits is the sum
      of their totals. */
  lemma {:induction false} TotalAmountAppend(a: seq<Record>, b: seq<Record>)
    ensures TotalAmount(a + b) == TotalAmount(a) + TotalAmount(b)
    decreases |b|
  {
    if |b| > 0 {
      var n := |b| - 1;
      assert (a + b)[..|a + b| - 1] == a + b[..n];
      TotalAmountAppend(a, b[..n]);
    } else {
      assert a + b == a;
    }
  }

  /** The loop over the records building `credits_data`, `total_amount` and
      `clients_set`. */
  method Aggregate(records: seq<Record>, managers: map<int, string>) returns (credits: seq<CreditRow>, stats: Statistics)
    ensures |credits| == |records| && forall i :: 0 <= i < |records| ==> credits[i] == RowOf(records[i], managers)
    ensures stats == Statistics(|ClientIds(records)|, |records|, TotalAmount(records))
  {
    credits := [];
    var totalAmount := 0;
    var clients: set<int> := {};
    for i := 0 to |records|
      invariant |credits| == i && forall j :: 0 <= j < i ==> credits[j] == RowOf(records[j], managers)
      invariant totalAmount == TotalAmount(records[..i])
      invariant clients == ClientIds(records[..i])
    {
      var record := records[i];
      credits := credits + [RowOf(record, managers)];
      assert records[..i + 1][..i] == records[..i];
      totalAmount := totalAmount + (if record.amount.Some? then record.amount.value else 0);
      ClientIdsStep(records, i);
      clients := clients + {record.clientId};
    }
    assert records[..|records|] == records;
    stats := Statistics(|clients|, |credits|, totalAmount);
  }

  datatype ReportData = ReportData(credits: seq<CreditRow>, stats: Statistics)

  /** The rows the filters select, in the query's order. */
  function SelectedRecords(rows: seq<Record>, assignments: seq<Assignment>, filters: Option<Filters>,
                           periodStart: Option<CalDate>, periodEnd: Option<CalDate>, today: CalDate): seq<Record>
  {
    Filter(rows, rec => Selected(filters, periodStart, periodEnd, today, rec, assignments))
  }

  /** The manager name a selected credit is shown with. */
  function ShownManager(assignments: seq<Assignment>, creditId: int): string
  {
    match FirstManager(assignments, creditId)
    case Some(name) => name
    case None => UNASSIGNED
  }

  /** The entry of `credits_data` a selected record is shown as: the
      record's fields and the manager shown for its credit. */
  function ShownRow(r: Record, assignments: seq<Assignment>): CreditRow
  {
    CreditRow(r.creditId, r.paymentReference, r.clientName, r.clientDocument, r.amount, r.disbursementDate,
              r.creditState, r.clientZone, ShownManager(assignments, r.creditId))
  }

  /** `_collect_data` over the credits `rows` joined with their clients and
      the portfolio's `assignments`. */
  method CollectData(rows: seq<Record>, assignments: seq<Assignment>, filters: Option<Filters>,
                     periodStart: Option<CalDate>, periodEnd: Option<CalDate>, today: CalDate)
    returns (r: Result<ReportData, string>)
    ensures r.Err? <==> filters.Some? && Overflows(filters.value, today)
    ensures r.Err? ==> r.error == OUT_OF_RANGE
    ensures r.Ok? ==>
      var selected := SelectedRecords(rows, assignments, filters, periodStart, periodEnd, today);
      && r.value.stats == Statistics(|ClientIds(selected)|, |selected|, TotalAmount(selected))
      && |r.value.credits| == |selected|
      && forall i :: 0 <= i < |selected| ==>
           && r.value.credits[i] == ShownRow(selected[i], assignments)
           && r.value.credits[i].creditId == selected[i].creditId
           && r.value.credits[i].amount == selected[i].amount
           && r.value.credits[i].managerName == ShownManager(assignments, selected[i].creditId)
  {
    var conditions := Conditions(filters, periodStart, periodEnd, today);
    if conditions.Err? {
      return Err(conditions.error);
    }
    var records := Filter(rows, rec => AllHold(conditions.value, rec, assignments));
    FilterSame(rows, rec => AllHold(conditions.value, rec, assignments),
               rec => Selected(filters, periodStart, periodEnd, today, rec, assignments));
    var managers := CreditManagers(records, assignments);
    var credits, stats := Aggregate(records, managers);
    forall i | 0 <= i < |records| ensures ManagerName(managers, records[i].creditId) == ShownManager(assignments, records[i].creditId) {
      assert HasCredit(records, records[i].creditId);
    }
    r := Ok(ReportData(credits, stats));
  }

  // ---------------------------------------------------------------- the credits table

  /** A value of a credit's entry as Python holds it: the payment reference
      is an integer column; the names are strings. */
  datatype PyValue = PyInt(number: int) | PyStr(text: string)

  const NOT_SUBSCRIPTABLE := "'int' object is not subscriptable"
  const NONE_FORMAT := "unsupported format string passed to NoneType.__format__"

  /** `value[:k]`: an integer cannot be sliced and raises `TypeError`. */
  function Slice(v: PyValue, k: nat): (r: Result<string, string>)
    ensures r.Err? <==> v.PyInt?
    ensures r.Err? ==> r.error == NOT_SUBSCRIPTABLE
    ensures v.PyStr? ==> r == Ok(Take(v.text, k))
  {
    match v
    case PyInt(_) => Err(NOT_SUBSCRIPTABLE)
    case PyStr(t) => Ok(Take(t, k))
  }

  /** `f"${amount:,}"`: a dollar sign and the amount with its thousands
      grouped; a missing amount cannot be formatted and raises `TypeError`. */
  function AmountCell(amount: Option<int>): (r: Result<string, string>)
    ensures r.Err? <==> amount.None?
    ensures r.Err? ==> r.error == NONE_FORMAT
    ensures r.Ok? ==> |r.value| >= 2 && r.value[0] == '$'
  {
    match amount
    case None => Err(NONE_FORMAT)
    case Some(a) => Ok("$" + (if a < 0 then "-" + Grouped(-a) else Grouped(a)))
  }

  /** The amount cell reads back as the amount: its text after the dollar
      sign, without the commas, is the amount's `str`. */
  lemma {:induction false} AmountCellReadsBack(a: int)
    ensures AmountCell(Some(a)).Ok?
    ensures ParseInt(DropCommas(AmountCell(Some(a)).value[1..])) == Some(a)
  {
    var t := AmountCell(Some(a)).value;
    if a < 0 {
      var g := Grouped(-a);
      assert t[1..] == "-" + g;
      NegatedGroupParses(g, -a);
    } else {
      assert t[1..] == Grouped(a);
      GroupedParses(a);
    }
  }

  lemma {:induction false} NegatedGroupParses(g: string, n: nat)
    requires g == Grouped(n)
    ensures ParseInt(DropCommas("-" + g)) == Some(-(n as int))
  {
    var d := DropCommas(g);
    assert DigitPart(d) && DigitsValue(DropUnderscores(d)) == n by {
      GroupedParses(n);
    }
    assert ParseInt("-" + d) == Some(-(n as int)) by {
      ParseNegated(d);
    }
    DropCommasSign(g);
  }

  /** `strftime("%d/%m/%Y")`. */
  function DateCell(d: CalDate): (r: string)
    ensures |r| == 10 && r[2] == '/' && r[5] == '/'
  {
    Pad(d.day, 2) + "/" + Pad(d.month, 2) + "/" + Pad(d.year, 4)
  }

  /** The day, month and year fields of the date cell read back as the
      date's. */
  lemma {:induction false} DateCellReadsBack(d: CalDate)
    ensures ParseInt(DateCell(d)[..2]) == Some(d.day)
    ensures ParseInt(DateCell(d)[3..5]) == Some(d.month)
    ensures ParseInt(DateCell(d)[6..]) == Some(d.year)
  {
    var r := DateCell(d);
    assert r[..2] == Pad(d.day, 2) && r[3..5] == Pad(d.month, 2) && r[6..] == Pad(d.year, 4);
    assert Pow10(2) == 100 && Pow10(4) == 10000;
    PadParses(d.day, 2);
    PadParses(d.month, 2);
    PadParses(d.year, 4);
  }

  const HEADERS: seq<string> := ["Ref. Pago", "Cliente", "Documento", "Monto", "Fecha", "Estado", "Gestor"]

  /** One row of the credits table, its cells evaluated left to right as
      the list display does: `reference` is how the payment reference
      reaches the table, and the first cell that raises stops the row. */
  function CreditCells(c: CreditRow, reference: PyValue): (r: Result<seq<string>, string>)
    ensures r.Err? <==> reference.PyInt? || c.amount.None?
    ensures reference.PyInt? ==> r == Err(NOT_SUBSCRIPTABLE)
    ensures reference.PyStr? && c.amount.None? ==> r == Err(NONE_FORMAT)
    ensures r.Ok? ==>
      && |r.value| == |HEADERS|
      && r.value[0] == Take(reference.text, 15) && r.value[1] == Take(c.clientName, 20)
      && r.value[2] == c.clientDocument && r.value[3] == AmountCell(c.amount).value
      && r.value[4] == DateCell(c.disbursementDate) && r.value[5] == c.creditState
      && r.value[6] == Take(c.managerName, 15)
  {
    match Slice(reference, 15)
    case Err(e) => Err(e)
    case Ok(ref) =>
      match AmountCell(c.amount)
      case Err(e) => Err(e)
      case Ok(amount) =>
        Ok([ref, Take(c.clientName, 20), c.clientDocument, amount, DateCell(c.disbursementDate),
            c.creditState, Take(c.managerName, 15)])
  }

  const SHOWN := 100

  /** `data["credits"][:100]`: the credits the table lists. */
  function Shown(credits: seq<CreditRow>): (r: seq<CreditRow>)
    ensures |r| == if |credits| <= SHOWN then |credits| else SHOWN
    ensures r == credits[..|r|]
    ensures |credits| <= SHOWN ==> r == credits
  {
    if |credits| <= SHOWN then credits else credits[..SHOWN]
  }

  /** The loop building `table_data`: the header row, then one row per
      listed credit, stopping at the first credit whose row raises. */
  method CreditTable(credits: seq<CreditRow>, reference: CreditRow -> PyValue) returns (r: Result<seq<seq<string>>, string>)
    ensures r.Err? <==> exists i :: 0 <= i < |Shown(credits)| && CreditCells(Shown(credits)[i], reference(Shown(credits)[i])).Err?
    ensures r.Err? ==>
      exists i :: 0 <= i < |Shown(credits)|
        && (forall j :: 0 <= j < i ==> CreditCells(Shown(credits)[j], reference(Shown(credits)[j])).Ok?)
        && CreditCells(Shown(credits)[i], reference(Shown(credits)[i])).Err?
        && r.error == CreditCells(Shown(credits)[i], reference(Shown(credits)[i])).error
    ensures r.Ok? ==>
      && |r.value| == |Shown(credits)| + 1 && r.value[0] == HEADERS
      && forall i :: 0 <= i < |Shown(credits)| ==> r.value[i + 1] == CreditCells(Shown(credits)[i], reference(Shown(credits)[i])).value
  {
    var shown := Shown(credits);
    var table := [HEADERS];
    for i := 0 to |shown|
      invariant |table| == i + 1 && table[0] == HEADERS
      invariant forall j :: 0 <= j < i ==> CreditCells(shown[j], reference(shown[j])).Ok?
      invariant forall j :: 0 <= j < i ==> table[j + 1] == CreditCells(shown[j], reference(shown[j])).value
    {
      var cells := CreditCells(shown[i], reference(shown[i]));
      if cells.Err? {
        return Err(cells.error);
      }
      table := table + [cells.value];
    }
    r := Ok(table);
  }

  /** How the payment reference reaches the table as written: the integer
      itself. */
  function RawReference(c: CreditRow): PyValue { PyInt(c.paymentReference) }

  /** How the payment reference reaches the table as evidently intended:
      its decimal text. */
  function ReferenceText(c: CreditRow): PyValue { PyStr(IntText(c.paymentReference)) }

  /** As written, no credit's row can be built: slicing the integer
      reference raises before any other cell. With the reference as text,
      a row fails only for a missing amount, and its first cell is the
      reference's first fifteen characters. */
  lemma {:induction false} ReferenceCellCases(c: CreditRow)
    ensures CreditCells(c, RawReference(c)) == Err(NOT_SUBSCRIPTABLE)
    ensures CreditCells(c, ReferenceText(c)).Err? <==> c.amount.None?
    ensures CreditCells(c, ReferenceText(c)).Ok? ==>
      CreditCells(c, ReferenceText(c)).value[0] == Take(IntText(c.paymentReference), 15)
  {
  }

  /** Some credit among the first hundred has no amount. */
  predicate MissingAmountShown(records: seq<Record>)
  {
    exists i :: 0 <= i < |records| && i < SHOWN && records[i].amount.None?
  }

  // ---------------------------------------------------------------- the report

  /** `datetime.now()` to the second. */
  datatype Moment = Moment(date: CalDate, hour: int, minute: int, second: int)
  type Now = m: Moment | 0 <= m.hour < 24 && 0 <= m.minute < 60 && 0 <= m.second < 60 witness Moment(Date(2000, 1, 1), 0, 0, 0)

  /** `strftime("%Y%m%d_%H%M%S")`. */
  function Stamp(now: Now): (s: string)
    ensures |s| == 15 && s[8] == '_'
    ensures forall i :: 0 <= i < 15 && i != 8 ==> IsDigit(s[i])
  {
    Pad(now.date.year, 4) + Pad(now.date.month, 2) + Pad(now.date.day, 2) + "_"
    + Pad(now.hour, 2) + Pad(now.minute, 2) + Pad(now.second, 2)
  }

  /** The report's file name: the report name with its spaces turned into
      underscores, an underscore, the stamp and ".pdf". */
  function FileName(reportName: string, now: Now): (f: string)
    ensures |f| == |reportName| + 20
    ensures f[..|reportName|] == ReplaceChar(reportName, ' ', '_') && ' ' !in f[..|reportName|]
    ensures f[|reportName|] == '_' && f[|reportName| + 1..|reportName| + 16] == Stamp(now)
    ensures f[|f| - 4..] == ".pdf"
  {
    var renamed := ReplaceChar(reportName, ' ', '_');
    assert forall i :: 0 <= i < |renamed| ==> renamed[i] != ' ';
    renamed + "_" + Stamp(now) + ".pdf"
  }

  /** The spaces of the name are the underscores of the file name that the
      name did not already have. */
  lemma FileNameKeepsName(reportName: string, now: Now, i: int)
    requires 0 <= i < |reportName|
    ensures FileName(reportName, now)[i] == '_' <==> reportName[i] == ' ' || reportName[i] == '_'
    ensures FileName(reportName, now)[i] != '_' ==> FileName(reportName, now)[i] == reportName[i]
  {
    assert FileName(reportName, now)[i] == FileName(reportName, now)[..|reportName|][i];
  }

  /** The result dictionary of `generate_report`. */
  datatype ReportResult =
    | Completed(filePath: string, fileSize: nat, totalClients: nat, totalCredits: nat, totalAmount: int)
    | Failed(errorMessage: string)

  /** `generate_report` as evidently intended, with the reference shown as
      its text: the data, the file name under the output directory, the
      credits table (whose row fails for a listed credit without an amount),
      and the PDF's size once `doc.build` has written it (`pdf`, or the
      message of the error it raised); every error becomes a failed
      result. */
  method GenerateReport(outputDir: string, reportName: string, rows: seq<Record>, assignments: seq<Assignment>,
                        filters: Option<Filters>, periodStart: Option<CalDate>, periodEnd: Option<CalDate>,
                        today: CalDate, now: Now, pdf: Result<nat, string>)
    returns (r: ReportResult)
    ensures var selected := SelectedRecords(rows, assignments, filters, periodStart, periodEnd, today);
      r.Completed? <==> !(filters.Some? && Overflows(filters.value, today)) && !MissingAmountShown(selected) && pdf.Ok?
    ensures filters.Some? && Overflows(filters.value, today) ==> r == Failed(OUT_OF_RANGE)
    ensures var selected := SelectedRecords(rows, assignments, filters, periodStart, periodEnd, today);
      !(filters.Some? && Overflows(filters.value, today)) && MissingAmountShown(selected) ==> r == Failed(NONE_FORMAT)
    ensures var selected := SelectedRecords(rows, assignments, filters, periodStart, periodEnd, today);
      !(filters.Some? && Overflows(filters.value, today)) && !MissingAmountShown(selected) && pdf.Err? ==> r == Failed(pdf.error)
    ensures r.Completed? ==>
      var selected := SelectedRecords(rows, assignments, filters, periodStart, periodEnd, today);
      && r.filePath == outputDir + "/" + FileName(reportName, now)
      && r.fileSize == pdf.value
      && r.totalClients == |ClientIds(selected)| <= r.totalCredits == |selected|
      && r.totalAmount == TotalAmount(selected)
  {
    var data := CollectData(rows, assignments, filters, periodStart, periodEnd, today);
    if data.Err? {
      return Failed(data.error);
    }
    var selected := SelectedRecords(rows, assignments, filters, periodStart, periodEnd, today);
    var filename := FileName(reportName, now);
    var filepath := outputDir + "/" + filename;
    var credits := data.value.credits;
    forall i | 0 <= i < |Shown(credits)|
      ensures Shown(credits)[i] == credits[i] && credits[i].amount == selected[i].amount
    {
    }
    if |credits| > 0 {
      var table := CreditTable(credits, ReferenceText);
      if table.Err? {
        assert MissingAmountShown(selected);
        return Failed(table.error);
      }
    }
    assert !MissingAmountShown(selected);
    if pdf.Err? {
      return Failed(pdf.error);
    }
    ClientsAtMostCredits(selected);
    var stats := data.value.stats;
    r := Completed(filepath, pdf.value, stats.totalClients, stats.totalCredits, stats.totalAmount);
  }

  /** `generate_report` as written: the integer reference is sliced, so a
      report that selects any credit fails with `TypeError` before the PDF
      is written; one that selects none completes with the PDF's size. */
  method GenerateReportAsWritten(outputDir: string, reportName: string, rows: seq<Record>, assignments: seq<Assignment>,
                                 filters: Option<Filters>, periodStart: Option<CalDate>, periodEnd: Option<CalDate>,
                                 today: CalDate, now: Now, pdf: Result<nat, string>)
    returns (r: ReportResult)
    ensures filters.Some? && Overflows(filters.value, today) ==> r == Failed(OUT_OF_RANGE)
    ensures var selected := SelectedRecords(rows, assignments, filters, periodStart, periodEnd, today);
      !(filters.Some? && Overflows(filters.value, today)) && |selected| > 0 ==> r == Failed(NOT_SUBSCRIPTABLE)
    ensures var selected := SelectedRecords(rows, assignments, filters, periodStart, periodEnd, today);
      !(filters.Some? && Overflows(filters.value, today)) && |selected| == 0 ==>
        r == if pdf.Err? then Failed(pdf.error) else Completed(outputDir + "/" + FileName(reportName, now), pdf.value, 0, 0, 0)
  {
    var data := CollectData(rows, assignments, filters, periodStart, periodEnd, today);
    if data.Err? {
      return Failed(data.error);
    }
    var filename := FileName(reportName, now);
    var filepath := outputDir + "/" + filename;
    var credits := data.value.credits;
    if |credits| > 0 {
      var table := CreditTable(credits, RawReference);
      assert CreditCells(Shown(credits)[0], RawReference(Shown(credits)[0])).Err?;
      return Failed(table.error);
    }
    if pdf.Err? {
      return Failed(pdf.error);
    }
    var selected := SelectedRecords(rows, assignments, filters, periodStart, periodEnd, today);
    assert ClientIds(selected) == {};
    var stats := data.value.stats;
    r := Completed(filepath, pdf.value, stats.totalClients, stats.totalCredits, stats.totalAmount);
  }
}
