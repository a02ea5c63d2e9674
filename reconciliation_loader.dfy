/** The reconciliation workbook loader of the analytics service: every row of
    the first sheet is a payment received through some channel; a row whose
    payment reference names exactly one credit becomes a reconciliation and
    cancels that credit, and every other row is skipped with its reason. */
module ReconciliationLoader {
  import opened Wrappers
  import opened Text
  import opened Dates

  // ---------------------------------------------------------------- the sheet

  /** The columns the loader reads. */
  datatype Column = Fecha | ReferenciaPago | Valor | CanalPago | Observaciones

  const REQUIRED: seq<Column> := [Fecha, ReferenciaPago, Valor, CanalPago]

  /** The columns of `cols` the header lacks, in their order. */
  function Missing(cols: seq<Column>, header: set<Column>): (m: seq<Column>)
    ensures |m| <= |cols|
    ensures forall c :: c in m <==> c in cols && c !in header
  {
    if |cols| == 0 then []
    else (if cols[0] in header then [] else [cols[0]]) + Missing(cols[1..], header)
  }

  /** The required columns the header lacks. */
  function MissingColumns(header: set<Column>): seq<Column>
  {
    Missing(REQUIRED, header)
  }

  /** A row as pandas reads it: `Fecha` as a date cell (`Blank` for NaN);
      `Referencia_Pago` as its text, or None for NaN; `Valor` as
      `int(float(value))`, or None when that conversion raises; `Canal_Pago`
      as its text; `Observaciones` as its text, or None when the column is
      absent or the cell is NaN. */
  datatype Row = Row(fecha: DateCell, reference: Option<string>, amount: Option<int>, channel: string,
                     observation: Option<string>)

  /** The first sheet of the workbook: its column headers in order (the
      loader's and any others), and its rows. */
  datatype Sheet = Sheet(columns: seq<string>, rows: seq<Row>)

  /** The header each column goes by in the workbook. */
  function ColumnName(c: Column): string
  {
    match c
    case Fecha => "Fecha"
    case ReferenciaPago => "Referencia_Pago"
    case Valor => "Valor"
    case CanalPago => "Canal_Pago"
    case Observaciones => "Observaciones"
  }

  const COLUMNS: seq<Column> := [Fecha, ReferenciaPago, Valor, CanalPago, Observaciones]

  /** The loader's columns among the sheet's headers: `col in excel_data.columns`. */
  function Header(sheet: Sheet): (h: set<Column>)
    ensures forall c :: c in h <==> ColumnName(c) in sheet.columns
  {
    set c | c in COLUMNS && ColumnName(c) in sheet.columns
  }

  // ---------------------------------------------------------------- the database

  datatype Credit = Credit(id: nat, reference: string, state: string)

  datatype Reconciliation = Reconciliation(id: nat, transacted: CalDate, reference: string, amount: int,
                                           channel: string, observation: Option<string>)

  /** The credits and reconciliations the session sees; the flush of a new
      reconciliation numbers it with `nextId`. */
  datatype Db = Db(credits: seq<Credit>, reconciliations: seq<Reconciliation>, nextId: nat)

  const CANCELLED := "Cancelado"

  /** What `select(Credit).where(payment_reference == ...).scalar_one_or_none()`
      finds: no credit, the only one, or several (which raises). */
  datatype Match = NoMatch | Unique(index: nat) | Several

  function FindCredit(credits: seq<Credit>, reference: string): (m: Match)
    ensures m.Unique? ==> m.index < |credits|
  {
    if |credits| == 0 then NoMatch
    else
      var rest := FindCredit(credits[1..], reference);
      if credits[0].reference != reference then (if rest.Unique? then Unique(rest.index + 1) else rest)
      else if rest.NoMatch? then Unique(0)
      else Several
  }

  /** The three answers of the query, in terms of the credits carrying the
      reference. */
  lemma {:induction false} FindCreditCases(credits: seq<Credit>, reference: string)
    ensures FindCredit(credits, reference).NoMatch? <==>
              forall k :: 0 <= k < |credits| ==> credits[k].reference != reference
    ensures FindCredit(credits, reference).Unique? ==>
              && credits[FindCredit(credits, reference).index].reference == reference
              && forall k :: 0 <= k < |credits| && k != FindCredit(credits, reference).index ==>
                   credits[k].reference != reference
    ensures FindCredit(credits, reference).Several? ==>
              exists a, b :: 0 <= a < b < |credits| && credits[a].reference == reference && credits[b].reference == reference
  {
    if |credits| > 0 {
      var rest := credits[1..];
      FindCreditCases(rest, reference);
      assert forall k :: 1 <= k < |credits| ==> credits[k] == rest[k - 1];
      var m := FindCredit(rest, reference);
      if m.Several? {
        var a, b :| 0 <= a < b < |rest| && rest[a].reference == reference && rest[b].reference == reference;
        assert credits[a + 1] == rest[a] && credits[b + 1] == rest[b];
      }
      if credits[0].reference == reference && m.Unique? {
        assert credits[m.index + 1] == rest[m.index];
      }
      if credits[0].reference != reference && m.NoMatch? {
        forall k | 0 <= k < |credits| ensures credits[k].reference != reference {
          if k > 0 {
            assert credits[k] == rest[k - 1];
          }
        }
      }
    }
  }

  // ---------------------------------------------------------------- results

  /** What a row can report. */
  datatype Issue = Incomplete | BadDate | UnknownReference(reference: string) | BadAmount
                 | NonPositiveAmount(amount: int) | UnknownChannel(channel: string) | RowFailed

  /** A message of the results: the missing columns, or an issue reported
      under the loader's row counter. */
  datatype Note = MissingColumnsNote(columns: seq<Column>) | AtRow(row: int, issue: Issue)

  datatype Results = Results(loaded: nat, skipped: nat, errors: seq<Note>, warnings: seq<Note>,
                             createdIds: seq<nat>, invalidReferences: seq<string>, creditsUpdated: nat,
                             updatedCreditIds: seq<nat>)

  const NO_RESULTS := Results(0, 0, [], [], [], [], 0, [])

  /** `self.channel_mapping`: both spellings of each of the four channels. */
  const CHANNELS: Vocabulary :=
    [("Oficina", "Oficina"), ("Corresponsal", "Corresponsal"), ("Transferencia", "Transferencia"),
     ("Sucursal", "Sucursal"), ("oficina", "Oficina"), ("corresponsal", "Corresponsal"),
     ("transferencia", "Transferencia"), ("sucursal", "Sucursal")]

  const CHANNEL_NAMES: set<string> := {"Oficina", "Corresponsal", "Transferencia", "Sucursal"}

  /** `channel_mapping.get(raw.strip(), "Oficina")`. */
  function ChannelOf(raw: string): string
  {
    Lookup(CHANNELS, Strip(raw), "Oficina")
  }

  /** Every stored channel is one of the four channel names. */
  lemma ChannelIsNamed(raw: string)
    ensures ChannelOf(raw) in CHANNEL_NAMES
  {
    LookupCases(CHANNELS, Strip(raw), "Oficina");
    forall i | 0 <= i < |CHANNELS| ensures CHANNELS[i].1 in CHANNEL_NAMES {
      if i == 0 {} else if i == 1 {} else if i == 2 {} else if i == 3 {}
      else if i == 4 {} else if i == 5 {} else if i == 6 {} else {}
    }
  }

  /** The lower-case spelling of a channel is stored as the capitalised one. */
  lemma LowerCaseChannels()
    ensures Lookup(CHANNELS, "oficina", "Oficina") == Lookup(CHANNELS, "Oficina", "Oficina") == "Oficina"
    ensures Lookup(CHANNELS, "corresponsal", "Oficina") == Lookup(CHANNELS, "Corresponsal", "Oficina") == "Corresponsal"
    ensures Lookup(CHANNELS, "transferencia", "Oficina") == Lookup(CHANNELS, "Transferencia", "Oficina")
              == "Transferencia"
    ensures Lookup(CHANNELS, "sucursal", "Oficina") == Lookup(CHANNELS, "Sucursal", "Oficina") == "Sucursal"
  {
  }

  // ---------------------------------------------------------------- one row

  /** Where the body of the row loop leaves a row: at a `continue` with the
      issue it reports, in the row's `except` clause, or loaded as a
      reconciliation of the credit at index `credit`. */
  datatype Verdict = Continue(issue: Issue) | Failure | Load(credit: nat, reconciliation: Reconciliation)

  function Assess(db: Db, r: Row): (v: Verdict)
    ensures v.Load? ==> v.credit < |db.credits|
  {
    if r.fecha.Blank? || r.reference.None? then Continue(Incomplete)
    else if r.fecha.Unparsable? then Continue(BadDate)
    else
      var reference := Strip(r.reference.value);
      match FindCredit(db.credits, reference)
      case NoMatch => Continue(UnknownReference(reference))
      case Several => Failure
      case Unique(k) =>
        if r.amount.None? then Continue(BadAmount)
        else
          Load(k, Reconciliation(db.nextId, r.fecha.date, reference, r.amount.value, ChannelOf(r.channel),
                                 if r.observation.Some? then Some(Strip(r.observation.value)) else None))
  }

  /** The loop's own state: the results, the database, and the row counter
      `i` that labels the messages. */
  datatype Tally = Tally(results: Results, db: Db, row: int)

  /** A skipped row at a `continue`: the counter stays where it is. */
  function Skip(t: Tally, issue: Issue): Tally
  {
    var res := t.results.(skipped := t.results.skipped + 1);
    var note := AtRow(t.row, issue);
    t.(results := if issue.Incomplete? then res.(warnings := res.warnings + [note])
                  else if issue.UnknownReference? then
                    res.(invalidReferences := res.invalidReferences + [issue.reference], errors := res.errors + [note])
                  else res.(errors := res.errors + [note]))
  }

  /** A loaded row: the reconciliation is added and numbered, its credit is
      cancelled, and a non-positive amount or an unknown channel only adds a
      warning. */
  function Admit(t: Tally, k: nat, rec: Reconciliation, rawChannel: string): Tally
    requires k < |t.db.credits|
  {
    var amountWarning := if rec.amount <= 0 then [AtRow(t.row, NonPositiveAmount(rec.amount))] else [];
    var channelWarning := if HasKey(CHANNELS, Strip(rawChannel)) then [] else [AtRow(t.row, UnknownChannel(Strip(rawChannel)))];
    var res := t.results;
    Tally(res.(warnings := res.warnings + amountWarning + channelWarning, createdIds := res.createdIds + [rec.id],
               updatedCreditIds := res.updatedCreditIds + [t.db.credits[k].id],
               creditsUpdated := res.creditsUpdated + 1, loaded := res.loaded + 1),
          t.db.(credits := t.db.credits[k := t.db.credits[k].(state := CANCELLED)],
                reconciliations := t.db.reconciliations + [rec], nextId := t.db.nextId + 1),
          t.row + 1)
  }

  /** One pass of the row loop. */
  function Step(t: Tally, r: Row): Tally
  {
    match Assess(t.db, r)
    case Continue(issue) => Skip(t, issue)
    case Failure =>
      t.(results := t.results.(errors := t.results.errors + [AtRow(t.row, RowFailed)],
                               skipped := t.results.skipped + 1),
         row := t.row + 1)
    case Load(k, rec) => Admit(t, k, rec, r.channel)
  }

  function Run(t: Tally, rows: seq<Row>): Tally
  {
    if |rows| == 0 then t else Step(Run(t, rows[..|rows| - 1]), rows[|rows| - 1])
  }

  const START_ROW := 2

  /** `load_reconciliations_from_excel` on a sheet that could be read: the
      results and the database it leaves. */
  function LoadSheet(sheet: Sheet, db: Db): (Results, Db)
  {
    if MissingColumns(Header(sheet)) != [] then (NO_RESULTS.(errors := [MissingColumnsNote(MissingColumns(Header(sheet)))]), db)
    else
      var t := Run(Tally(NO_RESULTS, db, START_ROW), sheet.rows);
      (t.results, t.db)
  }

  // ---------------------------------------------------------------- properties

  /** The counters of loaded rows, updated credits, created ids and updated
      credit ids agree. */
  predicate Balanced(res: Results)
  {
    res.loaded == res.creditsUpdated == |res.createdIds| == |res.updatedCreditIds|
  }

  predicate IsFailure(n: Note)
  {
    n.AtRow? && n.issue.RowFailed?
  }

  /** The rows that ended in the `except` clause of the row loop. */
  function Failures(notes: seq<Note>): nat
  {
    if |notes| == 0 then 0
    else Failures(notes[..|notes| - 1]) + (if IsFailure(notes[|notes| - 1]) then 1 else 0)
  }

  lemma FailuresSnoc(notes: seq<Note>, n: Note)
    ensures Failures(notes + [n]) == Failures(notes) + (if IsFailure(n) then 1 else 0)
  {
    assert (notes + [n])[..|notes|] == notes;
  }

  /** A row is loaded exactly when its date parses, its reference names
      exactly one credit and its amount converts; the sign of the amount
      does not matter. */
  predicate Loadable(db: Db, r: Row)
  {
    && r.fecha.Parsed?
    && r.reference.Some?
    && FindCredit(db.credits, Strip(r.reference.value)).Unique?
    && r.amount.Some?
  }

  /** One row adds to exactly one of the two counters; the counter moves on
      exactly for loaded and failed rows; a loaded row adds one
      reconciliation and takes one id. */
  lemma StepAccounting(t: Tally, r: Row)
    requires Balanced(t.results)
    ensures var u := Step(t, r);
      && Balanced(u.results)
      && u.results.loaded + u.results.skipped == t.results.loaded + t.results.skipped + 1
      && u.row + t.results.loaded + Failures(t.results.errors) == t.row + u.results.loaded + Failures(u.results.errors)
      && |u.db.reconciliations| + t.results.loaded == |t.db.reconciliations| + u.results.loaded
      && u.db.nextId + t.results.loaded == t.db.nextId + u.results.loaded
  {
    match Assess(t.db, r)
    case Continue(issue) =>
      assert Step(t, r) == Skip(t, issue);
      SkipAccounting(t, issue);
    case Failure =>
      FailuresSnoc(t.results.errors, AtRow(t.row, RowFailed));
    case Load(k, rec) =>
      assert Step(t, r) == Admit(t, k, rec, r.channel);
  }

  lemma SkipAccounting(t: Tally, issue: Issue)
    requires !issue.RowFailed?
    ensures var u := Skip(t, issue);
      && u.results.loaded == t.results.loaded && u.results.creditsUpdated == t.results.creditsUpdated
      && u.results.createdIds == t.results.createdIds && u.results.updatedCreditIds == t.results.updatedCreditIds
      && u.results.skipped == t.results.skipped + 1
      && u.row == t.row && u.db == t.db
      && Failures(u.results.errors) == Failures(t.results.errors)
  {
    if !issue.Incomplete? {
      FailuresSnoc(t.results.errors, AtRow(t.row, issue));
    }
  }

  /** What a loaded row stores: a reconciliation numbered by the session,
      with the stripped reference, the converted amount (even when it is not
      positive) and the normalised channel, and the credit carrying that
      reference cancelled; a non-positive amount and an unknown channel each
      add one warning. */
  lemma StepLoads(t: Tally, r: Row)
    ensures Step(t, r).results.loaded == t.results.loaded + (if Loadable(t.db, r) then 1 else 0)
    ensures !Loadable(t.db, r) ==> Step(t, r).db.reconciliations == t.db.reconciliations
    ensures Loadable(t.db, r) ==>
              var u := Step(t, r);
              var k := FindCredit(t.db.credits, Strip(r.reference.value)).index;
              && u.db.reconciliations ==
                   t.db.reconciliations + [Reconciliation(t.db.nextId, r.fecha.date, Strip(r.reference.value),
                                                          r.amount.value, ChannelOf(r.channel), u.db.reconciliations[|t.db.reconciliations|].observation)]
              && u.db.credits[k].reference == Strip(r.reference.value)
              && u.db.credits[k].state == CANCELLED
              && |u.results.warnings| == |t.results.warnings| + (if r.amount.value <= 0 then 1 else 0)
                                          + (if HasKey(CHANNELS, Strip(r.channel)) then 0 else 1)
  {
    if Loadable(t.db, r) {
      FindCreditCases(t.db.credits, Strip(r.reference.value));
    }
  }

  /** The credits keep their ids and their references. */
  predicate SameCredits(before: seq<Credit>, after: seq<Credit>)
  {
    && |before| == |after|
    && forall k :: 0 <= k < |before| ==> before[k].id == after[k].id && before[k].reference == after[k].reference
  }

  predicate Cancelled(credits: seq<Credit>, id: nat)
  {
    exists k :: 0 <= k < |credits| && credits[k].id == id && credits[k].state == CANCELLED
  }

  /** Every credit id the results report is cancelled, and every credit that
      changed was cancelled and is reported. */
  predicate Settled(before: seq<Credit>, after: seq<Credit>, ids: seq<nat>)
  {
    && SameCredits(before, after)
    && (forall x :: x in ids ==> Cancelled(after, x))
    && (forall k :: 0 <= k < |after| && after[k] != before[k] ==> after[k].state == CANCELLED && after[k].id in ids)
  }

  lemma StepSettles(before: seq<Credit>, t: Tally, r: Row)
    requires Settled(before, t.db.credits, t.results.updatedCreditIds)
    ensures Settled(before, Step(t, r).db.credits, Step(t, r).results.updatedCreditIds)
  {
    var u := Step(t, r);
    match Assess(t.db, r)
    case Continue(issue) =>
    case Failure =>
    case Load(k, rec) =>
      var c := t.db.credits;
      assert u.db.credits == c[k := c[k].(state := CANCELLED)];
      assert u.results.updatedCreditIds == t.results.updatedCreditIds + [c[k].id];
      forall x | x in u.results.updatedCreditIds ensures Cancelled(u.db.credits, x) {
        if x == c[k].id {
          assert u.db.credits[k].id == x;
        } else {
          assert Cancelled(c, x);
          var k' :| 0 <= k' < |c| && c[k'].id == x && c[k'].state == CANCELLED;
          assert u.db.credits[k'].id == x;
        }
      }
  }

  /** Every message of a row carries a counter value between `lo` and `hi`. */
  predicate LabelledWithin(notes: seq<Note>, lo: int, hi: int)
  {
    forall n :: n in notes && n.AtRow? ==> lo <= n.row <= hi
  }

  lemma StepLabels(lo: int, t: Tally, r: Row)
    requires lo <= t.row
    requires LabelledWithin(t.results.errors, lo, t.row) && LabelledWithin(t.results.warnings, lo, t.row)
    ensures t.row <= Step(t, r).row
    ensures LabelledWithin(Step(t, r).results.errors, lo, Step(t, r).row)
    ensures LabelledWithin(Step(t, r).results.warnings, lo, Step(t, r).row)
  {
  }

  /** The whole loop: the two counters share out the rows, the counter ends
      at the start plus the loaded and the failed rows, and each loaded row
      adds one reconciliation. */
  lemma {:induction false} RunAccounting(t: Tally, rows: seq<Row>)
    requires Balanced(t.results)
    ensures var u := Run(t, rows);
      && Balanced(u.results)
      && u.results.loaded + u.results.skipped == t.results.loaded + t.results.skipped + |rows|
      && u.row + t.results.loaded + Failures(t.results.errors) == t.row + u.results.loaded + Failures(u.results.errors)
      && |u.db.reconciliations| + t.results.loaded == |t.db.reconciliations| + u.results.loaded
      && u.db.nextId + t.results.loaded == t.db.nextId + u.results.loaded
  {
    if |rows| > 0 {
      RunAccounting(t, rows[..|rows| - 1]);
      StepAccounting(Run(t, rows[..|rows| - 1]), rows[|rows| - 1]);
    }
  }

  lemma {:induction false} RunSettles(before: seq<Credit>, t: Tally, rows: seq<Row>)
    requires Settled(before, t.db.credits, t.results.updatedCreditIds)
    ensures Settled(before, Run(t, rows).db.credits, Run(t, rows).results.updatedCreditIds)
  {
    if |rows| > 0 {
      RunSettles(before, t, rows[..|rows| - 1]);
      StepSettles(before, Run(t, rows[..|rows| - 1]), rows[|rows| - 1]);
    }
  }

  lemma {:induction false} RunLabels(lo: int, t: Tally, rows: seq<Row>)
    requires lo <= t.row
    requires LabelledWithin(t.results.errors, lo, t.row) && LabelledWithin(t.results.warnings, lo, t.row)
    ensures t.row <= Run(t, rows).row
    ensures LabelledWithin(Run(t, rows).results.errors, lo, Run(t, rows).row)
    ensures LabelledWithin(Run(t, rows).results.warnings, lo, Run(t, rows).row)
  {
    if |rows| > 0 {
      RunLabels(lo, t, rows[..|rows| - 1]);
      StepLabels(lo, Run(t, rows[..|rows| - 1]), rows[|rows| - 1]);
    }
  }

  /** A sheet missing a required column loads nothing and reports exactly
      the missing columns. */
  lemma MissingColumnStopsLoad(sheet: Sheet, db: Db, c: Column)
    requires c in REQUIRED && c !in Header(sheet)
    ensures var (res, db') := LoadSheet(sheet, db);
      && db' == db
      && res.loaded == 0 && res.skipped == 0 && res.warnings == []
      && |res.errors| == 1 && res.errors[0].MissingColumnsNote? && c in res.errors[0].columns
  {
    assert c in MissingColumns(Header(sheet));
  }

  /** `load_reconciliations_from_excel` on a sheet with every required
      column: every row is loaded or skipped, the counters agree, each
      reconciliation belongs to one loaded row, the credits keep their ids
      and references, exactly the reported credits changed and they are
      cancelled, and every message is labelled between 2 and the final
      counter, which is 2 plus the loaded and the failed rows. */
  lemma LoadReport(sheet: Sheet, db: Db)
    requires MissingColumns(Header(sheet)) == []
    ensures var (res, db') := LoadSheet(sheet, db);
      && Balanced(res)
      && res.loaded + res.skipped == |sheet.rows|
      && |db'.reconciliations| == |db.reconciliations| + res.loaded
      && db'.nextId == db.nextId + res.loaded
      && Settled(db.credits, db'.credits, res.updatedCreditIds)
      && LabelledWithin(res.errors, START_ROW, START_ROW + res.loaded + Failures(res.errors))
      && LabelledWithin(res.warnings, START_ROW, START_ROW + res.loaded + Failures(res.errors))
  {
    var t := Tally(NO_RESULTS, db, START_ROW);
    RunAccounting(t, sheet.rows);
    RunSettles(db.credits, t, sheet.rows);
    RunLabels(START_ROW, t, sheet.rows);
  }

  /** The counter is not advanced at a `continue`: two incomplete rows are
      both reported as row 2. */
  lemma IncompleteRowsShareLabel(db: Db, r1: Row, r2: Row)
    requires r1.reference.None? && r2.reference.None?
    ensures Run(Tally(NO_RESULTS, db, START_ROW), [r1, r2]).results.warnings == [AtRow(2, Incomplete), AtRow(2, Incomplete)]
  {
    var t := Tally(NO_RESULTS, db, START_ROW);
    assert [r1, r2][..1] == [r1];
    assert [r1][..0] == [];
    assert Run(t, [r1]) == Step(t, r1) == Skip(t, Incomplete);
    var t1 := Skip(t, Incomplete);
    assert t1.row == 2 && t1.results.warnings == [AtRow(2, Incomplete)];
    assert Run(t, [r1, r2]) == Step(t1, r2) == Skip(t1, Incomplete);
  }

  // ---------------------------------------------------------------- the loader

  /** The body of the row loop on row `row` under counter `i`: every
      `continue` becomes a return with the counter unchanged. */
  method ProcessRow(results0: Results, db0: Db, i0: int, row: Row) returns (results: Results, db: Db, i: int)
    ensures Tally(results, db, i) == Step(Tally(results0, db0, i0), row)
  {
    results, db, i := results0, db0, i0;
    ghost var t := Tally(results0, db0, i0);
    if row.fecha.Blank? || row.reference.None? {
      results := results.(skipped := results.skipped + 1);
      results := results.(warnings := results.warnings + [AtRow(i, Incomplete)]);
      return;
    }
    if row.fecha.Unparsable? {
      results := results.(errors := results.errors + [AtRow(i, BadDate)]);
      results := results.(skipped := results.skipped + 1);
      return;
    }
    var transacted := row.fecha.date;
    var reference := Strip(row.reference.value);
    var found := FindCredit(db.credits, reference);
    if found.NoMatch? {
      results := results.(skipped := results.skipped + 1);
      results := results.(invalidReferences := results.invalidReferences + [reference]);
      results := results.(errors := results.errors + [AtRow(i, UnknownReference(reference))]);
      return;
    }
    if found.Several? {
      // `scalar_one_or_none` raises, and the row's `except` reports it
      results := results.(errors := results.errors + [AtRow(i, RowFailed)]);
      results := results.(skipped := results.skipped + 1);
    } else {
      var k := found.index;
      if row.amount.None? {
        results := results.(errors := results.errors + [AtRow(i, BadAmount)]);
        results := results.(skipped := results.skipped + 1);
        return;
      }
      var amount := row.amount.value;
      if amount <= 0 {
        results := results.(warnings := results.warnings + [AtRow(i, NonPositiveAmount(amount))]);
      }
      var rawChannel := Strip(row.channel);
      var channel := Lookup(CHANNELS, rawChannel, "Oficina");
      if !HasKey(CHANNELS, rawChannel) {
        results := results.(warnings := results.warnings + [AtRow(i, UnknownChannel(rawChannel))]);
      }
      var observation := if row.observation.Some? then Some(Strip(row.observation.value)) else None;
      var rec := Reconciliation(db.nextId, transacted, reference, amount, channel, observation);
      assert Assess(t.db, row) == Load(k, rec);
      assert Step(t, row) == Admit(t, k, rec, row.channel);
      assert results.warnings == results0.warnings
                                 + (if amount <= 0 then [AtRow(i, NonPositiveAmount(amount))] else [])
                                 + (if HasKey(CHANNELS, rawChannel) then [] else [AtRow(i, UnknownChannel(rawChannel))]);
      db := db.(reconciliations := db.reconciliations + [rec], nextId := db.nextId + 1);
      var credit := db.credits[k];
      db := db.(credits := db.credits[k := credit.(state := CANCELLED)]);
      results := results.(createdIds := results.createdIds + [rec.id]);
      results := results.(updatedCreditIds := results.updatedCreditIds + [credit.id]);
      results := results.(creditsUpdated := results.creditsUpdated + 1);
      results := results.(loaded := results.loaded + 1);
      assert Tally(results, db, i + 1) == Admit(t, k, rec, row.channel);
    }
    i := i + 1;
  }

  /** The message of the `UnboundLocalError` Python 3.11 and later raise
      when `results` is read before it was ever assigned. */
  const UNBOUND_RESULTS := "cannot access local variable 'results' where it is not associated with a value"

  /** The error that leaves the loader's `except` handler: once `results`
      is assigned, the message is appended and the caught error re-raised;
      before that, the append itself raises `UnboundLocalError`. */
  function RaisedByHandler(results: Option<Results>, error: string): (m: string)
    ensures results.Some? ==> m == error
    ensures results.None? ==> m == UNBOUND_RESULTS
  {
    match results
    case Some(_) => error
    case None => UNBOUND_RESULTS
  }

  /** A read error is lost as written: `read_excel` runs before `results`
      is assigned, so every read error reaches the caller as the same
      `UnboundLocalError` message. */
  lemma ReadErrorLostAsWritten(e1: string, e2: string)
    requires e1 != e2
    ensures RaisedByHandler(None, e1) == RaisedByHandler(None, e2)
    ensures RaisedByHandler(None, e1) != e1 || RaisedByHandler(None, e2) != e2
  {
  }

  /** `load_reconciliations_from_excel` as written: a workbook that cannot
      be read raises what the handler raises with `results` unassigned, and
      nothing is changed. A readable workbook behaves as in the corrected
      method. */
  method LoadReconciliationsFromExcelAsWritten(book: Result<Sheet, string>, db0: Db) returns (r: Result<Results, string>, db: Db)
    ensures book.Err? ==> r == Err(RaisedByHandler(None, book.error)) && db == db0
    ensures book.Ok? ==> r.Ok? && (r.value, db) == LoadSheet(book.value, db0)
  {
    if book.Err? {
      return Err(RaisedByHandler(None, book.error)), db0;
    }
    r, db := LoadReconciliationsFromExcel(book, db0);
  }

  /** `load_reconciliations_from_excel` as evidently intended: a workbook
      that cannot be read is re-raised with its own error, as the handler
      does once `results` is assigned, and nothing is changed; a sheet
      missing a required column returns one error and loads nothing;
      otherwise every row is processed in order and the session is
      committed. */
  method LoadReconciliationsFromExcel(book: Result<Sheet, string>, db0: Db) returns (r: Result<Results, string>, db: Db)
    ensures book.Err? ==> r == Err(book.error) && db == db0
    ensures book.Ok? ==> r.Ok? && (r.value, db) == LoadSheet(book.value, db0)
  {
    db := db0;
    if book.Err? {
      return Err(book.error), db;
    }
    var sheet := book.value;
    var results := NO_RESULTS;
    var missing := MissingColumns(Header(sheet));
    if missing != [] {
      results := results.(errors := results.errors + [MissingColumnsNote(missing)]);
      assert results.errors == [MissingColumnsNote(missing)];
      return Ok(results), db;
    }
    var i := START_ROW;
    var rows := sheet.rows;
    for j := 0 to |rows|
      invariant Tally(results, db, i) == Run(Tally(NO_RESULTS, db0, START_ROW), rows[..j])
    {
      assert rows[..j + 1][..j] == rows[..j];
      results, db, i := ProcessRow(results, db, i, rows[j]);
    }
    assert rows[..|rows|] == rows;
    r := Ok(results);
  }

  // ---------------------------------------------------------------- validation

  /** One message of the format check. */
  datatype Check = ColumnsMissing(columns: seq<Column>) | EmptySheet | DuplicateReferences(count: nat)
                 | Unreadable(message: string)

  /** The report of `validate_excel_format`; for a workbook that cannot be
      read it holds only the verdict and the messages. */
  datatype Validation =
    | Checked(valid: bool, totalRows: nat, columnsFound: seq<string>, errors: seq<Check>, warnings: seq<Check>)
    | Refused(valid: bool, errors: seq<Check>, warnings: seq<Check>)

  /** The `Referencia_Pago` column. */
  function References(rows: seq<Row>): (refs: seq<Option<string>>)
    ensures |refs| == |rows|
    ensures forall i :: 0 <= i < |rows| ==> refs[i] == rows[i].reference
  {
    seq(|rows|, i requires 0 <= i < |rows| => rows[i].reference)
  }

  /** `Series.duplicated().sum()`: the entries equal to an earlier entry, a
      missing cell being equal to a missing cell. */
  function Duplicated(refs: seq<Option<string>>): nat
  {
    if |refs| == 0 then 0
    else Duplicated(refs[..|refs| - 1]) + (if refs[|refs| - 1] in refs[..|refs| - 1] then 1 else 0)
  }

  /** The duplicates are what the distinct values leave over. */
  lemma {:induction false} DuplicatedCountsRepeats(refs: seq<Option<string>>)
    ensures Duplicated(refs) + |set x | x in refs| == |refs|
  {
    if |refs| > 0 {
      var p, y := refs[..|refs| - 1], refs[|refs| - 1];
      DuplicatedCountsRepeats(p);
      assert refs == p + [y];
      var before := set x | x in p;
      assert (set x | x in refs) == before + {y};
      if y in p {
        assert y in before;
        assert before + {y} == before;
      } else {
        assert y !in before;
        assert |before + {y}| == |before| + 1;
      }
    }
  }

  /** There is a duplicate exactly when two entries are equal. */
  lemma {:induction false} DuplicatedIffRepeat(refs: seq<Option<string>>)
    ensures Duplicated(refs) > 0 <==> exists i, j :: 0 <= i < j < |refs| && refs[i] == refs[j]
  {
    if |refs| > 0 {
      var p, y := refs[..|refs| - 1], refs[|refs| - 1];
      DuplicatedIffRepeat(p);
      if y in p {
        var i :| 0 <= i < |p| && p[i] == y;
        assert refs[i] == refs[|refs| - 1];
      } else if Duplicated(p) > 0 {
        var i, j :| 0 <= i < j < |p| && p[i] == p[j];
        assert refs[i] == refs[j];
      }
      if exists i, j :: 0 <= i < j < |refs| && refs[i] == refs[j] {
        var i, j :| 0 <= i < j < |refs| && refs[i] == refs[j];
        if j < |p| {
          assert p[i] == p[j];
        } else {
          assert p[i] == y;
        }
      }
    }
  }

  /** Two rows share a reference exactly when the column has a duplicate. */
  lemma DuplicatedRows(rows: seq<Row>)
    ensures Duplicated(References(rows)) > 0 <==>
              exists i, j :: 0 <= i < j < |rows| && rows[i].reference == rows[j].reference
  {
    var refs := References(rows);
    DuplicatedIffRepeat(refs);
    if exists i, j :: 0 <= i < j < |rows| && rows[i].reference == rows[j].reference {
      var i, j :| 0 <= i < j < |rows| && rows[i].reference == rows[j].reference;
      assert refs[i] == refs[j];
    }
  }

  /** The sheet has two rows with the same reference. */
  predicate RepeatsReference(rows: seq<Row>)
  {
    exists i, j :: 0 <= i < j < |rows| && rows[i].reference == rows[j].reference
  }

  /** `validate_excel_format`: the sheet is valid exactly when it has every
      required column and at least one row; the errors name the missing
      columns and then the empty sheet; a warning counts the duplicated
      references, and there is one exactly when two rows share a
      reference. A workbook that cannot be read is invalid with only its
      error. */
  method ValidateExcelFormat(book: Result<Sheet, string>) returns (v: Validation)
    ensures book.Err? ==> v == Refused(false, [Unreadable(book.error)], [])
    ensures book.Ok? ==> v.Checked? && v.totalRows == |book.value.rows| && v.columnsFound == book.value.columns
    ensures book.Ok? ==> (v.valid <==> MissingColumns(Header(book.value)) == [] && |book.value.rows| > 0)
    ensures book.Ok? ==> (v.valid <==> v.errors == [])
    ensures book.Ok? ==>
              v.errors == (if MissingColumns(Header(book.value)) == [] then [] else [ColumnsMissing(MissingColumns(Header(book.value)))])
                          + (if |book.value.rows| == 0 then [EmptySheet] else [])
    ensures book.Ok? ==> v.warnings == [] || v.warnings == [DuplicateReferences(Duplicated(References(book.value.rows)))]
    ensures book.Ok? ==> (v.warnings != [] <==> ReferenciaPago in Header(book.value) && RepeatsReference(book.value.rows))
  {
    if book.Err? {
      return Refused(false, [Unreadable(book.error)], []);
    }
    var sheet := book.value;
    var valid := true;
    var errors: seq<Check> := [];
    var warnings: seq<Check> := [];
    var missing := MissingColumns(Header(sheet));
    if missing != [] {
      valid := false;
      errors := errors + [ColumnsMissing(missing)];
    }
    if |sheet.rows| == 0 {
      valid := false;
      errors := errors + [EmptySheet];
    }
    if ReferenciaPago in Header(sheet) {
      var duplicates := Duplicated(References(sheet.rows));
      DuplicatedRows(sheet.rows);
      if duplicates > 0 {
        warnings := warnings + [DuplicateReferences(duplicates)];
      }
    }
    v := Checked(valid, |sheet.rows|, sheet.columns, errors, warnings);
  }
}
