/** The workbook loader of the credit-management service: seven sheets are
    read in a fixed order, every row becomes one database record (or one
    error), and the identifiers the workbook uses are remapped to the ones
    the database hands out. */
module CreditLoader {
  import opened Wrappers
  import opened Text
  import opened Dates

  // ---------------------------------------------------------------- state strings

  /** `table.get(str(value).strip(), default)`. */
  function Normalize(table: Vocabulary, default: string, raw: string): string
  {
    Lookup(table, Strip(raw), default)
  }

  const CLIENT_STATUS: Vocabulary :=
    [("Activo", "Activo"), ("Castigado", "Castigado"), ("En mora", "En Mora"), ("En Mora", "En Mora")]
  const MANAGER_ZONE: Vocabulary := [("Rural", "Rural"), ("Urbana", "Urbano"), ("Urbano", "Urbano")]
  const CREDIT_STATE: Vocabulary :=
    [("Vigente", "Vigente"), ("Cancelado", "Cancelado"), ("En Mora", "En Mora"), ("Pendiente", "Pendiente")]
  const INSTALLMENT_STATE: Vocabulary :=
    [("Pagada", "Pagada"), ("Pendiente", "Pendiente"), ("Vencida", "Vencida"), ("Promesa de pago", "Promesa de pago")]
  const CONTACT_METHOD: Vocabulary :=
    [("Telefono", "Telefono"), ("Correo", "Correo"), ("WhatsApp", "WhatsApp"), ("Visita", "Visita")]
  const CONTACT_RESULT: Vocabulary :=
    [("Efectiva", "Efectiva"), ("Sin respuesta", "Sin respuesta"), ("Numero errado", "Numero errado"),
     ("Promesa de pago", "Promesa de pago")]
  const ALERT_TYPE: Vocabulary :=
    [("No respuesta", "No respuesta"), ("Riesgo de mora", "Riesgo de mora"), ("Requiere visita", "Requiere visita")]
  const CHANNEL: Vocabulary :=
    [("Oficina", "Oficina"), ("Corresponsal", "Corresponsal"), ("Transferencia", "Transferencia"),
     ("Sucursal", "Sucursal")]

  /** A stored spelling: non-empty, with no blank at either end. */
  predicate Stored(v: string)
  {
    |v| > 0 && !IsSpace(v[0]) && !IsSpace(v[|v| - 1])
  }

  lemma StoredStrip(v: string)
    requires Stored(v)
    ensures Strip(v) == v
  {
  }

  /** A vocabulary whose default and values are stored spellings, each of
      them sent to itself. */
  predicate Canonical(table: Vocabulary, default: string)
  {
    && Stored(default) && Lookup(table, default, default) == default
    && forall i :: 0 <= i < |table| ==> Stored(table[i].1) && Lookup(table, table[i].1, default) == table[i].1
  }

  /** Every stored state is the default or one of the vocabulary's values,
      and normalising a stored state again leaves it as it is. */
  lemma NormalizeIdempotent(table: Vocabulary, default: string, raw: string)
    requires Canonical(table, default)
    ensures Normalize(table, default, raw) == default || Normalize(table, default, raw) in Values(table)
    ensures Normalize(table, default, Normalize(table, default, raw)) == Normalize(table, default, raw)
  {
    var r := Normalize(table, default, raw);
    LookupCases(table, Strip(raw), default);
    if r == default {
      StoredStrip(default);
    } else {
      var i :| 0 <= i < |table| && table[i].1 == r;
      StoredStrip(r);
    }
  }

  lemma ClientStatusCanonical()
    ensures Canonical(CLIENT_STATUS, "Activo")
  {
  }

  lemma ManagerZoneCanonical()
    ensures Canonical(MANAGER_ZONE, "Rural")
  {
  }

  lemma CreditStateCanonical()
    ensures Canonical(CREDIT_STATE, "Pendiente")
  {
  }

  lemma InstallmentStateCanonical()
    ensures Canonical(INSTALLMENT_STATE, "Pendiente")
  {
  }

  lemma ContactMethodCanonical()
    ensures Canonical(CONTACT_METHOD, "Telefono")
  {
  }

  lemma ContactResultCanonical()
    ensures Canonical(CONTACT_RESULT, "Sin respuesta")
  {
  }

  lemma AlertTypeCanonical()
    ensures Canonical(ALERT_TYPE, "No respuesta")
  {
  }

  lemma ChannelCanonical()
    ensures Canonical(CHANNEL, "Oficina")
  {
  }

  /** "En mora" in the workbook is stored as "En Mora". */
  lemma OverdueStatusRepaired()
    ensures Normalize(CLIENT_STATUS, "Activo", "En mora") == "En Mora"
  {
    assert Strip("En mora") == "En mora" by { StoredStrip("En mora"); }
    assert Lookup(CLIENT_STATUS, "En mora", "Activo") == "En Mora";
  }

  /** "Urbana" in the workbook is stored as "Urbano". */
  lemma UrbanZoneRepaired()
    ensures Normalize(MANAGER_ZONE, "Rural", "Urbana") == "Urbano"
  {
    assert Strip("Urbana") == "Urbana" by { StoredStrip("Urbana"); }
    assert Lookup(MANAGER_ZONE, "Urbana", "Rural") == "Urbano";
  }

  /** An unknown client status is stored as "Activo". */
  lemma UnknownStatusActive()
    ensures Normalize(CLIENT_STATUS, "Activo", "Mora") == "Activo"
  {
    assert Strip("Mora") == "Mora" by { StoredStrip("Mora"); }
    assert Lookup(CLIENT_STATUS, "Mora", "Activo") == "Activo";
  }

  /** `str(value).strip().lower() in ['si', 'yes', 'true']`. */
  predicate ManuallyGenerated(raw: string)
  {
    Lower(Strip(raw)) in ["si", "yes", "true"]
  }

  lemma LowerCharSpace(ch: char)
    ensures IsSpace(LowerChar(ch)) == IsSpace(ch)
  {
  }

  lemma {:induction false} StripLeftLower(s: string)
    ensures StripLeft(Lower(s)) == Lower(StripLeft(s))
    decreases |s|
  {
    if |s| > 0 {
      LowerCharSpace(s[0]);
      assert Lower(s)[1..] == Lower(s[1..]);
      if IsSpace(s[0]) {
        StripLeftLower(s[1..]);
      }
    }
  }

  lemma {:induction false} StripRightLower(s: string)
    ensures StripRight(Lower(s)) == Lower(StripRight(s))
    decreases |s|
  {
    if |s| > 0 {
      LowerCharSpace(s[|s| - 1]);
      assert Lower(s)[..|s| - 1] == Lower(s[..|s| - 1]);
      if IsSpace(s[|s| - 1]) {
        StripRightLower(s[..|s| - 1]);
      }
    }
  }

  lemma LowerIdempotent(s: string)
    ensures Lower(Lower(s)) == Lower(s)
  {
  }

  /** The manual flag does not depend on the case the workbook writes it in. */
  lemma ManualFlagIgnoresCase(raw: string)
    ensures ManuallyGenerated(Lower(raw)) == ManuallyGenerated(raw)
  {
    StripLeftLower(raw);
    StripRightLower(StripLeft(raw));
    LowerIdempotent(Strip(raw));
  }

  // ---------------------------------------------------------------- rows and records


  /** One workbook row, its cells already read. An `Option` cell is `None`
      when the conversion the loader applies to it (`int(...)`,
      `int(float(...))`, `to_datetime`) raises. A row of one sheet handed to
      another sheet's step lacks that sheet's columns. */
  datatype Row =
    | ClientRow(clientKey: Option<int>, name: string, document: string, phone: string, email: string,
                address: Option<string>, zone: Option<string>, status: string)
    | ManagerRow(managerKey: Option<int>, managerName: string, assignedZone: string)
    | CreditRow(creditKey: Option<int>, creditClient: Option<int>, disbursed: Option<CalDate>, creditState: string,
                amount: Option<int>, reference: string, interestRate: Option<int>, totalQuotas: Option<int>)
    | InstallmentRow(installmentKey: Option<int>, installmentCredit: Option<int>, due: Option<CalDate>,
                     paidOn: DateCell, installmentState: string, number: Option<int>, value: Option<int>)
    | PortfolioRow(portfolioInstallment: Option<int>, portfolioManager: Option<int>, contactMethod: string,
                   contactResult: string, managed: Option<CalDate>, portfolioNote: Option<string>)
    | AlertRow(alertCredit: Option<int>, alerted: Option<CalDate>, manual: string,
               alertClient: Option<Option<int>>, alertType: string)
    | TransactionRow(transacted: Option<CalDate>, paymentReference: string, channel: string,
                     paidAmount: Option<int>, transactionNote: Option<string>)

  datatype Client = Client(id: nat, name: string, document: string, phone: string, email: string,
                           address: string, zone: Option<string>, status: string)
  datatype Manager = Manager(id: nat, name: string, zone: string)
  datatype Credit = Credit(id: nat, clientId: nat, state: string, amount: int, reference: string,
                           disbursed: CalDate, interestRate: int, totalQuotas: int)
  datatype Installment = Installment(id: nat, creditId: nat, state: string, number: int, value: int,
                                     due: CalDate, paid: Option<CalDate>)
  datatype Portfolio = Portfolio(installmentId: nat, managerId: nat, contactMethod: string, contactResult: string,
                                 managed: CalDate, observation: Option<string>)
  datatype Alert = Alert(creditId: nat, clientId: nat, alertType: string, manual: bool, alerted: CalDate)
  datatype Reconciliation = Reconciliation(channel: string, reference: string, amount: int,
                                           transacted: CalDate, observation: Option<string>)

  /** What the session holds: the records added so far, and the next
      identifier a flush hands out. */
  datatype Session = Session(nextId: nat, clients: seq<Client>, managers: seq<Manager>, credits: seq<Credit>,
                             installments: seq<Installment>, portfolios: seq<Portfolio>, alerts: seq<Alert>,
                             reconciliations: seq<Reconciliation>)

  datatype Sheet = Clients | Managers | Credits | Installments | Portfolios | Alerts | Reconciliations

  /** Why a row was refused: a cell that does not convert (or a column the
      sheet lacks), or a reference to a row that was not loaded. */
  datatype Reason = BadCell | ClientNotFound(client: int) | CreditNotFound(credit: int)
                  | InstallmentNotFound(installment: int) | ManagerNotFound(manager: int)
                  | AlertClientNotFound(alertClient: int)

  datatype RowError = RowError(sheet: Sheet, reason: Reason)

  /** The `results` dictionary. */
  datatype Results = Results(clients: nat, credits: nat, installments: nat, managers: nat, portfolios: nat,
                             alerts: nat, reconciliations: nat, errors: seq<RowError>)

  const NO_RESULTS := Results(0, 0, 0, 0, 0, 0, 0, [])

  function Count(r: Results, sheet: Sheet): nat
  {
    match sheet
    case Clients => r.clients
    case Managers => r.managers
    case Credits => r.credits
    case Installments => r.installments
    case Portfolios => r.portfolios
    case Alerts => r.alerts
    case Reconciliations => r.reconciliations
  }

  function Counted(r: Results, sheet: Sheet): Results
  {
    match sheet
    case Clients => r.(clients := r.clients + 1)
    case Managers => r.(managers := r.managers + 1)
    case Credits => r.(credits := r.credits + 1)
    case Installments => r.(installments := r.installments + 1)
    case Portfolios => r.(portfolios := r.portfolios + 1)
    case Alerts => r.(alerts := r.alerts + 1)
    case Reconciliations => r.(reconciliations := r.reconciliations + 1)
  }

  /** The number of errors a sheet contributed. */
  function ErrorsOf(errors: seq<RowError>, sheet: Sheet): nat
  {
    if |errors| == 0 then 0
    else ErrorsOf(errors[..|errors| - 1], sheet) + (if errors[|errors| - 1].sheet == sheet then 1 else 0)
  }

  /** The loader's state: its four identifier mappings (with the order in
      which client keys were first inserted, which the alert fallback reads),
      the session and the results. */
  datatype LoaderState = LoaderState(clientMapping: map<int, nat>, clientOrder: seq<int>,
                                     managerMapping: map<int, nat>, creditMapping: map<int, nat>,
                                     installmentMapping: map<int, nat>, session: Session, results: Results)

  function Failed(s: LoaderState, sheet: Sheet, reason: Reason): LoaderState
  {
    s.(results := s.results.(errors := s.results.errors + [RowError(sheet, reason)]))
  }


  // ---------------------------------------------------------------- what one row comes to

  /** A record ready to be added to the session. */
  datatype Record = ClientRecord(client: Client) | ManagerRecord(manager: Manager) | CreditRecord(credit: Credit)
                  | InstallmentRecord(installment: Installment) | PortfolioRecord(portfolio: Portfolio)
                  | AlertRecord(alert: Alert) | TransactionRecord(transaction: Reconciliation)

  /** What a row comes to: refused before anything is added, or a record
      added together with the workbook key read after the flush. */
  datatype Decision = Refused(reason: Reason) | Added(record: Record, key: Option<int>)

  /** The sheets whose records are flushed for an identifier and then
      remembered under their workbook key. */
  predicate Keyed(sheet: Sheet)
  {
    sheet == Clients || sheet == Managers || sheet == Credits || sheet == Installments
  }

  function RecordSheet(rec: Record): Sheet
  {
    match rec
    case ClientRecord(_) => Clients
    case ManagerRecord(_) => Managers
    case CreditRecord(_) => Credits
    case InstallmentRecord(_) => Installments
    case PortfolioRecord(_) => Portfolios
    case AlertRecord(_) => Alerts
    case TransactionRecord(_) => Reconciliations
  }

  /** The identifier a flush gave a record; the other records are numbered
      only at commit, which the loader never reads. */
  function RecordId(rec: Record): nat
  {
    match rec
    case ClientRecord(c) => c.id
    case ManagerRecord(m) => m.id
    case CreditRecord(c) => c.id
    case InstallmentRecord(i) => i.id
    case _ => 0
  }

  /** `session.add(record)`, with the flush that numbers the keyed records. */
  function Insert(p: Session, rec: Record): Session
  {
    match rec
    case ClientRecord(c) => p.(nextId := p.nextId + 1, clients := p.clients + [c])
    case ManagerRecord(m) => p.(nextId := p.nextId + 1, managers := p.managers + [m])
    case CreditRecord(c) => p.(nextId := p.nextId + 1, credits := p.credits + [c])
    case InstallmentRecord(i) => p.(nextId := p.nextId + 1, installments := p.installments + [i])
    case PortfolioRecord(x) => p.(portfolios := p.portfolios + [x])
    case AlertRecord(a) => p.(alerts := p.alerts + [a])
    case TransactionRecord(t) => p.(reconciliations := p.reconciliations + [t])
  }

  /** `self.<sheet>_mapping[key] = record.id`; a client key keeps its place in
      the mapping's insertion order when it is already there. */
  function Remember(s: LoaderState, sheet: Sheet, k: int, id: nat): LoaderState
  {
    match sheet
    case Clients =>
      s.(clientMapping := s.clientMapping[k := id],
         clientOrder := if k in s.clientMapping then s.clientOrder else s.clientOrder + [k])
    case Managers => s.(managerMapping := s.managerMapping[k := id])
    case Credits => s.(creditMapping := s.creditMapping[k := id])
    case Installments => s.(installmentMapping := s.installmentMapping[k := id])
    case _ => s
  }

  /** The body of every `_process_*` loop around one row's decision: a refusal
      only adds its error; an added record stays in the session, and a keyed
      record whose key does not convert is reported after its flush. */
  function Apply(s: LoaderState, sheet: Sheet, d: Decision): LoaderState
  {
    match d
    case Refused(reason) => Failed(s, sheet, reason)
    case Added(rec, key) => Admit(s.(session := Insert(s.session, rec)), sheet, key, RecordId(rec))
  }

  /** What follows the flush of a record numbered `id`. */
  function Admit(s: LoaderState, sheet: Sheet, key: Option<int>, id: nat): LoaderState
  {
    if !Keyed(sheet) then s.(results := Counted(s.results, sheet))
    else if key.None? then Failed(s, sheet, BadCell)
    else Remember(s, sheet, key.value, id).(results := Counted(s.results, sheet))
  }

  // ---------------------------------------------------------------- one row of each sheet

  function NewClient(id: nat, r: Row): Client
    requires r.ClientRow?
  {
    Client(id, Strip(r.name), Strip(r.document), Strip(r.phone), Strip(r.email),
           if r.address.Some? then Strip(r.address.value) else "",
           if r.zone.Some? then Some(Strip(r.zone.value)) else None,
           Normalize(CLIENT_STATUS, "Activo", r.status))
  }

  /** A client row: the client is added and flushed before its key is read. */
  function ClientDecision(s: LoaderState, r: Row): Decision
  {
    if !r.ClientRow? then Refused(BadCell)
    else Added(ClientRecord(NewClient(s.session.nextId, r)), r.clientKey)
  }

  function NewManager(id: nat, r: Row): Manager
    requires r.ManagerRow?
  {
    Manager(id, Strip(r.managerName), Normalize(MANAGER_ZONE, "Rural", r.assignedZone))
  }

  function ManagerDecision(s: LoaderState, r: Row): Decision
  {
    if !r.ManagerRow? then Refused(BadCell)
    else Added(ManagerRecord(NewManager(s.session.nextId, r)), r.managerKey)
  }

  predicate CreditCellsRead(r: Row)
  {
    r.CreditRow? && r.disbursed.Some? && r.amount.Some? && r.interestRate.Some? && r.totalQuotas.Some?
  }

  function NewCredit(id: nat, client: nat, r: Row): Credit
    requires CreditCellsRead(r)
  {
    Credit(id, client, Normalize(CREDIT_STATE, "Pendiente", r.creditState), r.amount.value, r.reference,
           r.disbursed.value, r.interestRate.value, r.totalQuotas.value)
  }

  /** A credit row: its client must already be mapped; every other cell is
      converted before the credit is added. */
  function CreditDecision(s: LoaderState, r: Row): Decision
  {
    if !r.CreditRow? || r.creditClient.None? then Refused(BadCell)
    else if r.creditClient.value !in s.clientMapping then Refused(ClientNotFound(r.creditClient.value))
    else if !CreditCellsRead(r) then Refused(BadCell)
    else Added(CreditRecord(NewCredit(s.session.nextId, s.clientMapping[r.creditClient.value], r)), r.creditKey)
  }

  predicate InstallmentCellsRead(r: Row)
  {
    r.InstallmentRow? && r.due.Some? && !r.paidOn.Unparsable? && r.number.Some? && r.value.Some?
  }

  function NewInstallment(id: nat, credit: nat, r: Row): Installment
    requires InstallmentCellsRead(r)
  {
    Installment(id, credit, Normalize(INSTALLMENT_STATE, "Pendiente", r.installmentState), r.number.value,
                r.value.value, r.due.value, if r.paidOn.Parsed? then Some(r.paidOn.date) else None)
  }

  /** An installment row: its credit must already be mapped; a blank payment
      date means unpaid. */
  function InstallmentDecision(s: LoaderState, r: Row): Decision
  {
    if !r.InstallmentRow? || r.installmentCredit.None? then Refused(BadCell)
    else if r.installmentCredit.value !in s.creditMapping then Refused(CreditNotFound(r.installmentCredit.value))
    else if !InstallmentCellsRead(r) then Refused(BadCell)
    else
      Added(InstallmentRecord(NewInstallment(s.session.nextId, s.creditMapping[r.installmentCredit.value], r)),
            r.installmentKey)
  }

  function NewPortfolio(installment: nat, manager: nat, r: Row): Portfolio
    requires r.PortfolioRow? && r.managed.Some?
  {
    Portfolio(installment, manager, Normalize(CONTACT_METHOD, "Telefono", r.contactMethod),
              Normalize(CONTACT_RESULT, "Sin respuesta", r.contactResult), r.managed.value,
              if r.portfolioNote.Some? then Some(Strip(r.portfolioNote.value)) else None)
  }

  /** A management row: both its installment and its manager must already be
      mapped, the installment being checked first. */
  function PortfolioDecision(s: LoaderState, r: Row): Decision
  {
    if !r.PortfolioRow? || r.portfolioInstallment.None? || r.portfolioManager.None? then Refused(BadCell)
    else if r.portfolioInstallment.value !in s.installmentMapping then
      Refused(InstallmentNotFound(r.portfolioInstallment.value))
    else if r.portfolioManager.value !in s.managerMapping then Refused(ManagerNotFound(r.portfolioManager.value))
    else if r.managed.None? then Refused(BadCell)
    else
      Added(PortfolioRecord(NewPortfolio(s.installmentMapping[r.portfolioInstallment.value],
                                         s.managerMapping[r.portfolioManager.value], r)), None)
  }

  /** The only fact about the mappings the steps rely on: the client
      insertion order lists mapped keys. */
  predicate OrderListsKeys(s: LoaderState)
  {
    forall i :: 0 <= i < |s.clientOrder| ==> s.clientOrder[i] in s.clientMapping
  }

  /** The client an alert is filed under: a given key must be mapped; without
      one, the client first inserted into the mapping, or 1 when none was.
      The order lists only mapped keys in every state the loader reaches
      (`Integrity`), so the membership test below never fails there. */
  function AlertClient(s: LoaderState, cell: Option<Option<int>>): (r: Result<nat, Reason>)
    ensures r.Ok? && cell.Some? ==>
              cell.value.Some? && cell.value.value in s.clientMapping && r.value == s.clientMapping[cell.value.value]
    ensures r.Ok? && cell.None? && OrderListsKeys(s) && s.clientOrder != [] ==>
              r.value == s.clientMapping[s.clientOrder[0]]
  {
    match cell
    case None =>
      if |s.clientOrder| > 0 && s.clientOrder[0] in s.clientMapping then Ok(s.clientMapping[s.clientOrder[0]]) else Ok(1)
    case Some(None) => Err(BadCell)
    case Some(Some(k)) => if k in s.clientMapping then Ok(s.clientMapping[k]) else Err(AlertClientNotFound(k))
  }

  function NewAlert(credit: nat, client: nat, r: Row): Alert
    requires r.AlertRow? && r.alerted.Some?
  {
    Alert(credit, client, Normalize(ALERT_TYPE, "No respuesta", r.alertType), ManuallyGenerated(r.manual),
          r.alerted.value)
  }

  function AlertDecision(s: LoaderState, r: Row): Decision
  {
    if !r.AlertRow? || r.alertCredit.None? then Refused(BadCell)
    else if r.alertCredit.value !in s.creditMapping then Refused(CreditNotFound(r.alertCredit.value))
    else if r.alerted.None? then Refused(BadCell)
    else
      match AlertClient(s, r.alertClient)
      case Err(e) => Refused(e)
      case Ok(client) => Added(AlertRecord(NewAlert(s.creditMapping[r.alertCredit.value], client, r)), None)
  }

  function NewTransaction(r: Row): Reconciliation
    requires r.TransactionRow? && r.transacted.Some? && r.paidAmount.Some?
  {
    Reconciliation(Normalize(CHANNEL, "Oficina", r.channel), r.paymentReference, r.paidAmount.value,
                   r.transacted.value, if r.transactionNote.Some? then Some(Strip(r.transactionNote.value)) else None)
  }

  function TransactionDecision(r: Row): Decision
  {
    if !r.TransactionRow? || r.transacted.None? || r.paidAmount.None? then Refused(BadCell)
    else Added(TransactionRecord(NewTransaction(r)), None)
  }

  function Decide(sheet: Sheet, s: LoaderState, r: Row): Decision
  {
    match sheet
    case Clients => ClientDecision(s, r)
    case Managers => ManagerDecision(s, r)
    case Credits => CreditDecision(s, r)
    case Installments => InstallmentDecision(s, r)
    case Portfolios => PortfolioDecision(s, r)
    case Alerts => AlertDecision(s, r)
    case Reconciliations => TransactionDecision(r)
  }

  /** Every decision adds a record of its own sheet. */
  predicate Fits(sheet: Sheet, d: Decision)
  {
    d.Added? ==> RecordSheet(d.record) == sheet
  }

  lemma DecisionFits(sheet: Sheet, s: LoaderState, r: Row)
    ensures Fits(sheet, Decide(sheet, s, r))
  {
  }

  function Step(sheet: Sheet, s: LoaderState, r: Row): (t: LoaderState)
  {
    Apply(s, sheet, Decide(sheet, s, r))
  }

  /** Every row of a sheet, in order. */
  function Fold(sheet: Sheet, s: LoaderState, rows: seq<Row>): (t: LoaderState)
  {
    if |rows| == 0 then s else Step(sheet, Fold(sheet, s, rows[..|rows| - 1]), rows[|rows| - 1])
  }

  // ---------------------------------------------------------------- the workbook

  function SheetName(sheet: Sheet): string
  {
    match sheet
    case Clients => "Clientes"
    case Managers => "Gestores"
    case Credits => "Créditos"
    case Installments => "Detalle Cuotas"
    case Portfolios => "Cartera"
    case Alerts => "Alertas"
    case Reconciliations => "Conciliaciones"
  }

  /** A workbook, by the sheets it holds: `Workbook[sheet]` is the sheet
      named `SheetName(sheet)`; a sheet under any other name is never read. */
  type Workbook = map<Sheet, seq<Row>>

  /** `excel_data.get(name, pd.DataFrame())`: a missing sheet has no rows. */
  function SheetRows(book: Workbook, sheet: Sheet): seq<Row>
  {
    if sheet in book then book[sheet] else []
  }

  const SHEET_ORDER: seq<Sheet> := [Clients, Managers, Credits, Installments, Portfolios, Alerts, Reconciliations]

  /** A sheet's place in the fixed order. */
  function Position(sheet: Sheet): nat
  {
    match sheet
    case Clients => 0
    case Managers => 1
    case Credits => 2
    case Installments => 3
    case Portfolios => 4
    case Alerts => 5
    case Reconciliations => 6
  }

  lemma SheetAt(i: nat)
    requires i < |SHEET_ORDER|
    ensures Position(SHEET_ORDER[i]) == i
  {
    if i == 0 {} else if i == 1 {} else if i == 2 {} else if i == 3 {} else if i == 4 {} else if i == 5 {} else {}
  }

  /** The state once the first `n` sheets of the fixed order are loaded, from
      fresh results. */
  function Stage(s: LoaderState, book: Workbook, n: nat): (t: LoaderState)
    requires n <= |SHEET_ORDER|
  {
    if n == 0 then s.(results := NO_RESULTS)
    else Fold(SHEET_ORDER[n - 1], Stage(s, book, n - 1), SheetRows(book, SHEET_ORDER[n - 1]))
  }

  // ---------------------------------------------------------------- accounting

  /** One row adds one to its sheet's counter or one error of its sheet, and
      nothing else to the results; the counter grows only for an added
      record. */
  lemma ApplyAccounting(s: LoaderState, sheet: Sheet, d: Decision)
    ensures var t := Apply(s, sheet, d);
            && ((Count(t.results, sheet) == Count(s.results, sheet) + 1 && t.results.errors == s.results.errors)
                || (Count(t.results, sheet) == Count(s.results, sheet)
                    && exists reason :: t.results.errors == s.results.errors + [RowError(sheet, reason)]))
            && (Count(t.results, sheet) > Count(s.results, sheet) ==> d.Added?)
            && (forall other :: other != sheet ==> Count(t.results, other) == Count(s.results, other))
  {
    match d
    case Refused(reason) =>
      assert Apply(s, sheet, d) == Failed(s, sheet, reason);
    case Added(rec, key) =>
      var s1 := s.(session := Insert(s.session, rec));
      assert Apply(s, sheet, d) == Admit(s1, sheet, key, RecordId(rec));
      if Keyed(sheet) && key.Some? {
        assert Admit(s1, sheet, key, RecordId(rec)).results == Counted(s.results, sheet);
      } else if Keyed(sheet) {
        assert Admit(s1, sheet, key, RecordId(rec)).results.errors == s.results.errors + [RowError(sheet, BadCell)];
      } else {
        assert Admit(s1, sheet, key, RecordId(rec)).results == Counted(s.results, sheet);
      }
  }

  lemma {:induction false} ErrorsOfAppend(errors: seq<RowError>, e: RowError, sheet: Sheet)
    ensures ErrorsOf(errors + [e], sheet) == ErrorsOf(errors, sheet) + (if e.sheet == sheet then 1 else 0)
  {
    assert (errors + [e])[..|errors|] == errors;
  }

  /** Loading one sheet: every row either raises its sheet's counter or adds
      exactly one error of that sheet; the other sheets' counters and error
      counts stay as they are. */
  lemma {:induction false} FoldAccounting(sheet: Sheet, s: LoaderState, rows: seq<Row>)
    ensures var t := Fold(sheet, s, rows);
            && Count(t.results, sheet) + ErrorsOf(t.results.errors, sheet)
               == Count(s.results, sheet) + ErrorsOf(s.results.errors, sheet) + |rows|
            && (forall other :: other != sheet ==>
                  Count(t.results, other) == Count(s.results, other)
                  && ErrorsOf(t.results.errors, other) == ErrorsOf(s.results.errors, other))
  {
    if |rows| > 0 {
      var before := Fold(sheet, s, rows[..|rows| - 1]);
      FoldAccounting(sheet, s, rows[..|rows| - 1]);
      var d := Decide(sheet, before, rows[|rows| - 1]);
      ApplyAccounting(before, sheet, d);
      var t := Apply(before, sheet, d);
      if t.results.errors != before.results.errors {
        var reason :| t.results.errors == before.results.errors + [RowError(sheet, reason)];
        forall other: Sheet
          ensures ErrorsOf(t.results.errors, other) == ErrorsOf(before.results.errors, other) + (if other == sheet then 1 else 0)
        {
          ErrorsOfAppend(before.results.errors, RowError(sheet, reason), other);
        }
      }
    }
  }

  /** After a load, each sheet's counter plus the errors it contributed is
      the number of rows the sheet had. */
  lemma {:induction false} LoadAccounting(s: LoaderState, book: Workbook, n: nat)
    requires n <= |SHEET_ORDER|
    ensures forall sheet :: Count(Stage(s, book, n).results, sheet) + ErrorsOf(Stage(s, book, n).results.errors, sheet)
                            == if Position(sheet) < n then |SheetRows(book, sheet)| else 0
  {
    if n > 0 {
      LoadAccounting(s, book, n - 1);
      var last := SHEET_ORDER[n - 1];
      SheetAt(n - 1);
      var prev := Stage(s, book, n - 1);
      var cur := Fold(last, prev, SheetRows(book, last));
      assert Stage(s, book, n) == cur;
      FoldAccounting(last, prev, SheetRows(book, last));
      forall sheet
        ensures Count(cur.results, sheet) + ErrorsOf(cur.results.errors, sheet)
                == if Position(sheet) < n then |SheetRows(book, sheet)| else 0
      {
        if sheet == last {
          assert Count(prev.results, sheet) + ErrorsOf(prev.results.errors, sheet) == 0;
        } else {
          assert Position(sheet) != n - 1;
          assert Count(prev.results, sheet) + ErrorsOf(prev.results.errors, sheet)
                 == if Position(sheet) < n - 1 then |SheetRows(book, sheet)| else 0;
        }
      }
    }
  }

  // ---------------------------------------------------------------- refusals

  /** A credit whose client was not loaded is refused with that reason, and
      neither the session nor the credit mapping changes. */
  lemma CreditNeedsClient(s: LoaderState, r: Row)
    requires r.CreditRow? && r.creditClient.Some? && r.creditClient.value !in s.clientMapping
    ensures Step(Credits, s, r) == Failed(s, Credits, ClientNotFound(r.creditClient.value))
    ensures Step(Credits, s, r).creditMapping == s.creditMapping && Step(Credits, s, r).session == s.session
  {
  }

  /** A row is counted only when the rows it refers to are mapped; a
      management row needs both its installment and its manager. */
  lemma CountedRowsAreLinked(sheet: Sheet, s: LoaderState, r: Row)
    requires Count(Step(sheet, s, r).results, sheet) > Count(s.results, sheet)
    ensures sheet == Credits ==> r.CreditRow? && r.creditClient.Some? && r.creditClient.value in s.clientMapping
    ensures sheet == Installments ==>
              r.InstallmentRow? && r.installmentCredit.Some? && r.installmentCredit.value in s.creditMapping
    ensures sheet == Portfolios ==>
              && r.PortfolioRow? && r.portfolioInstallment.Some? && r.portfolioManager.Some?
              && r.portfolioInstallment.value in s.installmentMapping && r.portfolioManager.value in s.managerMapping
    ensures sheet == Alerts ==> r.AlertRow? && r.alertCredit.Some? && r.alertCredit.value in s.creditMapping
  {
    ApplyAccounting(s, sheet, Decide(sheet, s, r));
  }

  /** A client row whose key does not convert is reported, yet its client
      stays in the session (it was flushed first) with no mapping to it. */
  lemma UnkeyedClientStays(s: LoaderState, r: Row)
    requires r.ClientRow? && r.clientKey.None?
    ensures var t := Step(Clients, s, r);
            && t.session.clients == s.session.clients + [NewClient(s.session.nextId, r)]
            && t.clientMapping == s.clientMapping
            && t.results.errors == s.results.errors + [RowError(Clients, BadCell)]
  {
  }

  // ---------------------------------------------------------------- mappings settle before use

  /** A row writes at most its own sheet's mapping. */
  lemma ApplyKeepsOtherMappings(s: LoaderState, sheet: Sheet, d: Decision)
    ensures var t := Apply(s, sheet, d);
            && (sheet != Clients ==> t.clientMapping == s.clientMapping && t.clientOrder == s.clientOrder)
            && (sheet != Managers ==> t.managerMapping == s.managerMapping)
            && (sheet != Credits ==> t.creditMapping == s.creditMapping)
            && (sheet != Installments ==> t.installmentMapping == s.installmentMapping)
  {
    if d.Added? {
      var s1 := s.(session := Insert(s.session, d.record));
      assert Apply(s, sheet, d) == Admit(s1, sheet, d.key, RecordId(d.record));
      AdmitKeepsOtherMappings(s1, sheet, d.key, RecordId(d.record));
    }
  }

  lemma AdmitKeepsOtherMappings(s: LoaderState, sheet: Sheet, key: Option<int>, id: nat)
    ensures var t := Admit(s, sheet, key, id);
            && (sheet != Clients ==> t.clientMapping == s.clientMapping && t.clientOrder == s.clientOrder)
            && (sheet != Managers ==> t.managerMapping == s.managerMapping)
            && (sheet != Credits ==> t.creditMapping == s.creditMapping)
            && (sheet != Installments ==> t.installmentMapping == s.installmentMapping)
  {
    if Keyed(sheet) && key.Some? {
      assert Admit(s, sheet, key, id) == Remember(s, sheet, key.value, id).(results := Counted(s.results, sheet));
    }
  }

  /** Each sheet writes only its own mapping. */
  lemma {:induction false} FoldKeepsOtherMappings(sheet: Sheet, s: LoaderState, rows: seq<Row>)
    ensures var t := Fold(sheet, s, rows);
            && (sheet != Clients ==> t.clientMapping == s.clientMapping && t.clientOrder == s.clientOrder)
            && (sheet != Managers ==> t.managerMapping == s.managerMapping)
            && (sheet != Credits ==> t.creditMapping == s.creditMapping)
            && (sheet != Installments ==> t.installmentMapping == s.installmentMapping)
  {
    if |rows| > 0 {
      var before := Fold(sheet, s, rows[..|rows| - 1]);
      FoldKeepsOtherMappings(sheet, s, rows[..|rows| - 1]);
      ApplyKeepsOtherMappings(before, sheet, Decide(sheet, before, rows[|rows| - 1]));
    }
  }

  /** Once the sheet that builds a mapping is loaded, that mapping no longer
      changes; so the credits, installments, management and alert sheets all
      see the complete mappings of the sheets before them. */
  lemma {:induction false} MappingsSettled(s: LoaderState, book: Workbook, n: nat)
    requires n <= |SHEET_ORDER|
    ensures var t := Stage(s, book, n);
            && (n >= 1 ==> t.clientMapping == Stage(s, book, 1).clientMapping
                           && t.clientOrder == Stage(s, book, 1).clientOrder)
            && (n >= 2 ==> t.managerMapping == Stage(s, book, 2).managerMapping)
            && (n >= 3 ==> t.creditMapping == Stage(s, book, 3).creditMapping)
            && (n >= 4 ==> t.installmentMapping == Stage(s, book, 4).installmentMapping)
  {
    if n > 0 {
      MappingsSettled(s, book, n - 1);
      SheetAt(n - 1);
      FoldKeepsOtherMappings(SHEET_ORDER[n - 1], Stage(s, book, n - 1), SheetRows(book, SHEET_ORDER[n - 1]));
    }
  }

  // ---------------------------------------------------------------- every reference resolves

  function ClientIds(p: Session): set<nat> { set c | c in p.clients :: c.id }
  function ManagerIds(p: Session): set<nat> { set m | m in p.managers :: m.id }
  function CreditIds(p: Session): set<nat> { set c | c in p.credits :: c.id }
  function InstallmentIds(p: Session): set<nat> { set i | i in p.installments :: i.id }

  /** The records a record points at are in the session. */
  predicate Links(p: Session, rec: Record)
  {
    match rec
    case CreditRecord(c) => c.clientId in ClientIds(p)
    case InstallmentRecord(i) => i.creditId in CreditIds(p)
    case PortfolioRecord(x) => x.installmentId in InstallmentIds(p) && x.managerId in ManagerIds(p)
    case AlertRecord(a) => a.creditId in CreditIds(p) && a.clientId in ClientIds(p)
    case _ => true
  }

  predicate MappingsResolve(s: LoaderState)
  {
    && (forall k :: k in s.clientMapping ==> s.clientMapping[k] in ClientIds(s.session))
    && (forall k :: k in s.managerMapping ==> s.managerMapping[k] in ManagerIds(s.session))
    && (forall k :: k in s.creditMapping ==> s.creditMapping[k] in CreditIds(s.session))
    && (forall k :: k in s.installmentMapping ==> s.installmentMapping[k] in InstallmentIds(s.session))
  }

  predicate RecordsResolve(p: Session)
  {
    && (forall c :: c in p.credits ==> Links(p, CreditRecord(c)))
    && (forall i :: i in p.installments ==> Links(p, InstallmentRecord(i)))
    && (forall x :: x in p.portfolios ==> Links(p, PortfolioRecord(x)))
    && (forall a :: a in p.alerts ==> Links(p, AlertRecord(a)))
  }

  /** Referential integrity of what the loader builds: mapped keys point at
      added records, every added record points at added records, the client
      insertion order lists each mapped key once, and a credit can only have
      been mapped once some client was. */
  predicate Integrity(s: LoaderState)
  {
    && OrderListsKeys(s)
    && (forall k :: k in s.clientMapping ==> k in s.clientOrder)
    && (forall i, j :: 0 <= i < j < |s.clientOrder| ==> s.clientOrder[i] != s.clientOrder[j])
    && (s.creditMapping != map[] ==> s.clientOrder != [])
    && MappingsResolve(s)
    && RecordsResolve(s.session)
  }

  lemma InsertGrows(p: Session, rec: Record)
    ensures ClientIds(p) <= ClientIds(Insert(p, rec)) && ManagerIds(p) <= ManagerIds(Insert(p, rec))
    ensures CreditIds(p) <= CreditIds(Insert(p, rec)) && InstallmentIds(p) <= InstallmentIds(Insert(p, rec))
    ensures rec.ClientRecord? ==> RecordId(rec) in ClientIds(Insert(p, rec))
    ensures rec.ManagerRecord? ==> RecordId(rec) in ManagerIds(Insert(p, rec))
    ensures rec.CreditRecord? ==> RecordId(rec) in CreditIds(Insert(p, rec))
    ensures rec.InstallmentRecord? ==> RecordId(rec) in InstallmentIds(Insert(p, rec))
  {
  }

  lemma InsertResolves(p: Session, rec: Record)
    requires RecordsResolve(p) && Links(p, rec)
    ensures RecordsResolve(Insert(p, rec))
  {
    var q := Insert(p, rec);
    InsertGrows(p, rec);
    forall c | c in q.credits ensures Links(q, CreditRecord(c)) {
      if c in p.credits { LinksGrow(p, q, CreditRecord(c)); } else { LinksGrow(p, q, rec); }
    }
    forall i | i in q.installments ensures Links(q, InstallmentRecord(i)) {
      if i in p.installments { LinksGrow(p, q, InstallmentRecord(i)); } else { LinksGrow(p, q, rec); }
    }
    forall x | x in q.portfolios ensures Links(q, PortfolioRecord(x)) {
      if x in p.portfolios { LinksGrow(p, q, PortfolioRecord(x)); } else { LinksGrow(p, q, rec); }
    }
    forall a | a in q.alerts ensures Links(q, AlertRecord(a)) {
      if a in p.alerts { LinksGrow(p, q, AlertRecord(a)); } else { LinksGrow(p, q, rec); }
    }
  }

  /** A link that resolves keeps resolving as the session grows. */
  lemma LinksGrow(p: Session, q: Session, rec: Record)
    requires ClientIds(p) <= ClientIds(q) && ManagerIds(p) <= ManagerIds(q)
    requires CreditIds(p) <= CreditIds(q) && InstallmentIds(p) <= InstallmentIds(q)
    requires Links(p, rec)
    ensures Links(q, rec)
  {
  }

  lemma RememberKeepsIntegrity(s: LoaderState, sheet: Sheet, k: int, id: nat)
    requires Integrity(s) && Keyed(sheet)
    requires sheet == Clients ==> id in ClientIds(s.session)
    requires sheet == Managers ==> id in ManagerIds(s.session)
    requires sheet == Credits ==> id in CreditIds(s.session) && s.clientOrder != []
    requires sheet == Installments ==> id in InstallmentIds(s.session)
    ensures Integrity(Remember(s, sheet, k, id))
  {
    if sheet == Clients && k !in s.clientMapping {
      var t := Remember(s, sheet, k, id);
      forall i, j | 0 <= i < j < |t.clientOrder| ensures t.clientOrder[i] != t.clientOrder[j] {
        if j == |s.clientOrder| {
          assert t.clientOrder[i] in s.clientOrder;
        }
      }
    }
  }

  /** What a decision needs from the state for the integrity to survive it. */
  predicate Sound(s: LoaderState, d: Decision)
  {
    d.Added? ==> Links(s.session, d.record) && (d.record.CreditRecord? ==> s.clientOrder != [])
  }

  lemma InsertKeepsIntegrity(s: LoaderState, rec: Record)
    requires Integrity(s) && Links(s.session, rec)
    ensures Integrity(s.(session := Insert(s.session, rec)))
  {
    InsertGrows(s.session, rec);
    InsertResolves(s.session, rec);
  }

  lemma ResultsKeepIntegrity(s: LoaderState, results: Results)
    requires Integrity(s)
    ensures Integrity(s.(results := results))
  {
  }

  lemma ApplyIntegrity(s: LoaderState, sheet: Sheet, d: Decision)
    requires Integrity(s) && Fits(sheet, d) && Sound(s, d)
    ensures Integrity(Apply(s, sheet, d))
  {
    if d.Refused? {
      ResultsKeepIntegrity(s, Failed(s, sheet, d.reason).results);
    } else {
      var s1 := s.(session := Insert(s.session, d.record));
      assert Apply(s, sheet, d) == Admit(s1, sheet, d.key, RecordId(d.record));
      AdmitIntegrity(s, sheet, d.record, d.key);
    }
  }

  /** Inserting a record whose links resolve, then remembering its key,
      keeps the state consistent. */
  lemma AdmitIntegrity(s: LoaderState, sheet: Sheet, rec: Record, key: Option<int>)
    requires Integrity(s) && Links(s.session, rec) && RecordSheet(rec) == sheet
    requires rec.CreditRecord? ==> s.clientOrder != []
    ensures Integrity(Admit(s.(session := Insert(s.session, rec)), sheet, key, RecordId(rec)))
  {
    var s1 := s.(session := Insert(s.session, rec));
    InsertKeepsIntegrity(s, rec);
    if Keyed(sheet) && key.Some? {
      InsertGrows(s.session, rec);
      var s2 := Remember(s1, sheet, key.value, RecordId(rec));
      RememberKeepsIntegrity(s1, sheet, key.value, RecordId(rec));
      ResultsKeepIntegrity(s2, Counted(s1.results, sheet));
    } else if Keyed(sheet) {
      ResultsKeepIntegrity(s1, Failed(s1, sheet, BadCell).results);
    } else {
      ResultsKeepIntegrity(s1, Counted(s1.results, sheet));
    }
  }

  /** The alert fallback never reaches its `1`: an alert passes the credit
      check only once a credit is mapped, hence once a client is, so its
      client is always a loaded one. */
  lemma AlertDecisionSound(s: LoaderState, r: Row)
    requires Integrity(s)
    ensures Sound(s, AlertDecision(s, r))
  {
    var d := AlertDecision(s, r);
    if d.Added? {
      var credit := r.alertCredit.value;
      assert s.creditMapping[credit] in CreditIds(s.session);
      assert s.clientOrder != [] by {
        assert credit in s.creditMapping;
      }
      var client := AlertClient(s, r.alertClient);
      assert d.record.alert.clientId == client.value;
      if r.alertClient.None? {
        var first := s.clientOrder[0];
        assert first in s.clientMapping;
        assert MappingsResolve(s);
        assert s.clientMapping[first] in ClientIds(s.session);
      } else {
        assert r.alertClient.value.value in s.clientMapping;
        assert s.clientMapping[r.alertClient.value.value] in ClientIds(s.session);
      }
    }
  }

  lemma CreditDecisionSound(s: LoaderState, r: Row)
    requires Integrity(s)
    ensures Sound(s, CreditDecision(s, r))
  {
    if CreditDecision(s, r).Added? {
      var client := r.creditClient.value;
      assert client in s.clientMapping;
      assert s.clientMapping[client] in ClientIds(s.session);
      assert client in s.clientOrder;
    }
  }

  lemma InstallmentDecisionSound(s: LoaderState, r: Row)
    requires Integrity(s)
    ensures Sound(s, InstallmentDecision(s, r))
  {
    if InstallmentDecision(s, r).Added? {
      var credit := r.installmentCredit.value;
      assert credit in s.creditMapping;
      assert s.creditMapping[credit] in CreditIds(s.session);
    }
  }

  lemma PortfolioDecisionSound(s: LoaderState, r: Row)
    requires Integrity(s)
    ensures Sound(s, PortfolioDecision(s, r))
  {
    if PortfolioDecision(s, r).Added? {
      var installment, manager := r.portfolioInstallment.value, r.portfolioManager.value;
      assert installment in s.installmentMapping && manager in s.managerMapping;
      assert s.installmentMapping[installment] in InstallmentIds(s.session);
      assert s.managerMapping[manager] in ManagerIds(s.session);
    }
  }

  /** Every decision taken in a consistent state links only to records
      already in the session. */
  lemma DecisionSound(sheet: Sheet, s: LoaderState, r: Row)
    requires Integrity(s)
    ensures Sound(s, Decide(sheet, s, r))
  {
    match sheet
    case Clients =>
    case Managers =>
    case Credits => CreditDecisionSound(s, r);
    case Installments => InstallmentDecisionSound(s, r);
    case Portfolios => PortfolioDecisionSound(s, r);
    case Alerts => AlertDecisionSound(s, r);
    case Reconciliations =>
  }

  /** Loading a sheet into a consistent state keeps it consistent. */
  lemma {:induction false} FoldIntegrity(sheet: Sheet, s: LoaderState, rows: seq<Row>)
    requires Integrity(s)
    ensures Integrity(Fold(sheet, s, rows))
  {
    if |rows| > 0 {
      var before := Fold(sheet, s, rows[..|rows| - 1]);
      FoldIntegrity(sheet, s, rows[..|rows| - 1]);
      DecisionFits(sheet, before, rows[|rows| - 1]);
      DecisionSound(sheet, before, rows[|rows| - 1]);
      ApplyIntegrity(before, sheet, Decide(sheet, before, rows[|rows| - 1]));
    }
  }

  /** Loading any workbook into a consistent state keeps it consistent. */
  lemma {:induction false} LoadIntegrity(s: LoaderState, book: Workbook, n: nat)
    requires Integrity(s) && n <= |SHEET_ORDER|
    ensures Integrity(Stage(s, book, n))
  {
    if n > 0 {
      LoadIntegrity(s, book, n - 1);
      FoldIntegrity(SHEET_ORDER[n - 1], Stage(s, book, n - 1), SheetRows(book, SHEET_ORDER[n - 1]));
    }
  }

  // ---------------------------------------------------------------- the service

  /** `ExcelLoaderService`: the four mappings are its own fields; the session
      and the results it threads through every sheet are kept beside them. */
  class ExcelLoaderService {
    var clientMapping: map<int, nat>
    var clientOrder: seq<int>
    var creditMapping: map<int, nat>
    var installmentMapping: map<int, nat>
    var managerMapping: map<int, nat>
    var session: Session
    var results: Results

    constructor (session: Session)
      ensures State() == LoaderState(map[], [], map[], map[], map[], session, NO_RESULTS)
    {
      clientMapping := map[];
      clientOrder := [];
      creditMapping := map[];
      installmentMapping := map[];
      managerMapping := map[];
      this.session := session;
      results := NO_RESULTS;
    }

    function State(): LoaderState
      reads this
    {
      LoaderState(clientMapping, clientOrder, managerMapping, creditMapping, installmentMapping, session, results)
    }

    /** The `except` branch of every row loop. */
    method Fail(sheet: Sheet, reason: Reason)
      modifies this
      ensures State() == Failed(old(State()), sheet, reason)
    {
      results := results.(errors := results.errors + [RowError(sheet, reason)]);
    }

    /** `_process_clients`, one row. */
    method ProcessClientRow(r: Row)
      modifies this
      ensures State() == Apply(old(State()), Clients, ClientDecision(old(State()), r))
    {
      if !r.ClientRow? {
        Fail(Clients, BadCell);
        return;
      }
      var client := NewClient(session.nextId, r);
      ghost var s1 := State().(session := Insert(session, ClientRecord(client)));
      session := session.(nextId := session.nextId + 1, clients := session.clients + [client]);
      assert State() == s1;
      if r.clientKey.None? {
        Fail(Clients, BadCell);
        return;
      }
      var k := r.clientKey.value;
      if k !in clientMapping {
        clientOrder := clientOrder + [k];
      }
      clientMapping := clientMapping[k := client.id];
      results := results.(clients := results.clients + 1);
      assert State() == Remember(s1, Clients, k, client.id).(results := Counted(s1.results, Clients));
    }

    /** `_process_managers`, one row. */
    method ProcessManagerRow(r: Row)
      modifies this
      ensures State() == Apply(old(State()), Managers, ManagerDecision(old(State()), r))
    {
      if !r.ManagerRow? {
        Fail(Managers, BadCell);
        return;
      }
      var manager := NewManager(session.nextId, r);
      session := session.(nextId := session.nextId + 1, managers := session.managers + [manager]);
      if r.managerKey.None? {
        Fail(Managers, BadCell);
        return;
      }
      managerMapping := managerMapping[r.managerKey.value := manager.id];
      results := results.(managers := results.managers + 1);
    }

    /** `_process_credits`, one row. */
    method ProcessCreditRow(r: Row)
      modifies this
      ensures State() == Apply(old(State()), Credits, CreditDecision(old(State()), r))
    {
      if !r.CreditRow? || r.creditClient.None? {
        Fail(Credits, BadCell);
        return;
      }
      var client := r.creditClient.value;
      if client !in clientMapping {
        Fail(Credits, ClientNotFound(client));
        return;
      }
      if !CreditCellsRead(r) {
        Fail(Credits, BadCell);
        return;
      }
      var credit := NewCredit(session.nextId, clientMapping[client], r);
      session := session.(nextId := session.nextId + 1, credits := session.credits + [credit]);
      if r.creditKey.None? {
        Fail(Credits, BadCell);
        return;
      }
      creditMapping := creditMapping[r.creditKey.value := credit.id];
      results := results.(credits := results.credits + 1);
    }

    /** `_process_installments`, one row. */
    method ProcessInstallmentRow(r: Row)
      modifies this
      ensures State() == Apply(old(State()), Installments, InstallmentDecision(old(State()), r))
    {
      if !r.InstallmentRow? || r.installmentCredit.None? {
        Fail(Installments, BadCell);
        return;
      }
      var credit := r.installmentCredit.value;
      if credit !in creditMapping {
        Fail(Installments, CreditNotFound(credit));
        return;
      }
      if !InstallmentCellsRead(r) {
        Fail(Installments, BadCell);
        return;
      }
      var installment := NewInstallment(session.nextId, creditMapping[credit], r);
      session := session.(nextId := session.nextId + 1, installments := session.installments + [installment]);
      if r.installmentKey.None? {
        Fail(Installments, BadCell);
        return;
      }
      installmentMapping := installmentMapping[r.installmentKey.value := installment.id];
      results := results.(installments := results.installments + 1);
    }

    /** `_process_portfolio`, one row. */
    method ProcessPortfolioRow(r: Row)
      modifies this
      ensures State() == Apply(old(State()), Portfolios, PortfolioDecision(old(State()), r))
    {
      if !r.PortfolioRow? || r.portfolioInstallment.None? || r.portfolioManager.None? {
        Fail(Portfolios, BadCell);
        return;
      }
      var installment, manager := r.portfolioInstallment.value, r.portfolioManager.value;
      if installment !in installmentMapping {
        Fail(Portfolios, InstallmentNotFound(installment));
        return;
      }
      if manager !in managerMapping {
        Fail(Portfolios, ManagerNotFound(manager));
        return;
      }
      if r.managed.None? {
        Fail(Portfolios, BadCell);
        return;
      }
      var portfolio := NewPortfolio(installmentMapping[installment], managerMapping[manager], r);
      session := session.(portfolios := session.portfolios + [portfolio]);
      results := results.(portfolios := results.portfolios + 1);
    }

    /** `_process_alerts`, one row. */
    method ProcessAlertRow(r: Row)
      modifies this
      ensures State() == Apply(old(State()), Alerts, AlertDecision(old(State()), r))
    {
      if !r.AlertRow? || r.alertCredit.None? {
        Fail(Alerts, BadCell);
        return;
      }
      var credit := r.alertCredit.value;
      if credit !in creditMapping {
        Fail(Alerts, CreditNotFound(credit));
        return;
      }
      if r.alerted.None? {
        Fail(Alerts, BadCell);
        return;
      }
      ghost var s0 := State();
      var client := AlertClient(State(), r.alertClient);
      if client.Err? {
        Fail(Alerts, client.error);
        return;
      }
      var alert := NewAlert(creditMapping[credit], client.value, r);
      assert AlertDecision(s0, r) == Added(AlertRecord(alert), None);
      session := session.(alerts := session.alerts + [alert]);
      results := results.(alerts := results.alerts + 1);
      assert State() == s0.(session := Insert(s0.session, AlertRecord(alert))).(results := Counted(s0.results, Alerts));
    }

    /** `_process_reconciliations`, one row. */
    method ProcessTransactionRow(r: Row)
      modifies this
      ensures State() == Apply(old(State()), Reconciliations, TransactionDecision(r))
    {
      if !r.TransactionRow? || r.transacted.None? || r.paidAmount.None? {
        Fail(Reconciliations, BadCell);
        return;
      }
      var transaction := NewTransaction(r);
      session := session.(reconciliations := session.reconciliations + [transaction]);
      results := results.(reconciliations := results.reconciliations + 1);
    }

    method ProcessRow(sheet: Sheet, r: Row)
      modifies this
      ensures State() == Step(sheet, old(State()), r)
    {
      match sheet
      case Clients => ProcessClientRow(r);
      case Managers => ProcessManagerRow(r);
      case Credits => ProcessCreditRow(r);
      case Installments => ProcessInstallmentRow(r);
      case Portfolios => ProcessPortfolioRow(r);
      case Alerts => ProcessAlertRow(r);
      case Reconciliations => ProcessTransactionRow(r);
    }

    /** One `_process_*` method: an empty sheet is skipped, otherwise every
        row is processed in order, a failing row only adding its error. */
    method ProcessSheet(sheet: Sheet, rows: seq<Row>)
      modifies this
      ensures State() == Fold(sheet, old(State()), rows)
    {
      if |rows| == 0 {
        return;
      }
      for j := 0 to |rows|
        invariant State() == Fold(sheet, old(State()), rows[..j])
      {
        assert rows[..j + 1][..j] == rows[..j];
        ProcessRow(sheet, rows[j]);
      }
      assert rows[..|rows|] == rows;
    }

    /** `load_excel_to_database`: a workbook that cannot be read is re-raised
        with nothing loaded; otherwise the seven sheets are loaded in their
        fixed order and the results are returned. */
    method LoadExcelToDatabase(book: Result<Workbook, string>) returns (r: Result<Results, string>)
      modifies this
      ensures book.Err? ==> r == Err(book.error) && State() == old(State())
      ensures book.Ok? ==> State() == Stage(old(State()), book.value, 7) && r == Ok(results)
    {
      if book.Err? {
        return Err(book.error);
      }
      var sheets := book.value;
      results := NO_RESULTS;
      assert State() == Stage(old(State()), sheets, 0);
      ProcessSheet(Clients, SheetRows(sheets, Clients));
      assert State() == Stage(old(State()), sheets, 1);
      ProcessSheet(Managers, SheetRows(sheets, Managers));
      assert State() == Stage(old(State()), sheets, 2);
      ProcessSheet(Credits, SheetRows(sheets, Credits));
      assert State() == Stage(old(State()), sheets, 3);
      ProcessSheet(Installments, SheetRows(sheets, Installments));
      assert State() == Stage(old(State()), sheets, 4);
      ProcessSheet(Portfolios, SheetRows(sheets, Portfolios));
      assert State() == Stage(old(State()), sheets, 5);
      ProcessSheet(Alerts, SheetRows(sheets, Alerts));
      assert State() == Stage(old(State()), sheets, 6);
      ProcessSheet(Reconciliations, SheetRows(sheets, Reconciliations));
      r := Ok(results);
    }
  }
}
