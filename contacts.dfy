/** `contacts_by_manager`: portfolio contacts grouped per manager, with each
    manager's distinct clients, ordered by number of contacts. The joined
    query becomes the sequence of rows it returns; the per-manager dictionary
    and the per-client dictionary inside it keep insertion order, as Python
    dictionaries do. */
module AnalyticsContacts {
  import opened Wrappers

  /** One row of the portfolio / installment / credit / client / manager join. */
  datatype ContactRow = ContactRow(portfolioId: int, managerId: int, managerName: string, clientId: int, clientName: string)

  datatype ClientRef = ClientRef(id: int, name: string)

  /** A value of the `by_manager` dictionary. */
  datatype ManagerEntry = ManagerEntry(managerId: int, managerName: string, contactsCount: nat, clients: seq<ClientRef>)

  /** One element of the returned `items`. */
  datatype ManagerContacts = ManagerContacts(
    managerId: int, managerName: string, contactsCount: nat, clients: seq<ClientRef>, uniqueClientsCount: nat)

  datatype ContactsReport = ContactsReport(items: seq<ManagerContacts>, count: nat)

  // ---------------------------------------------------------------- what the rows say

  /** The managers that appear in the rows. */
  function ManagerIdsOf(rows: seq<ContactRow>): set<int>
  {
    if |rows| == 0 then {} else ManagerIdsOf(rows[..|rows| - 1]) + {rows[|rows| - 1].managerId}
  }

  /** The number of rows (contacts) of manager `m`. */
  function ContactsOf(rows: seq<ContactRow>, m: int): nat
  {
    if |rows| == 0 then 0
    else ContactsOf(rows[..|rows| - 1], m) + (if rows[|rows| - 1].managerId == m then 1 else 0)
  }

  /** The manager name on the first row of manager `m`. */
  function FirstManagerName(rows: seq<ContactRow>, m: int): Option<string>
  {
    if |rows| == 0 then None
    else
      var f := FirstManagerName(rows[..|rows| - 1], m);
      if f.Some? then f
      else if rows[|rows| - 1].managerId == m then Some(rows[|rows| - 1].managerName)
      else None
  }

  /** The position of the first row of manager `m`, `|rows|` when there is none. */
  function FirstContactIndex(rows: seq<ContactRow>, m: int): (i: nat)
    ensures i <= |rows|
  {
    if |rows| == 0 then 0
    else
      var f := FirstContactIndex(rows[..|rows| - 1], m);
      if f < |rows| - 1 then f
      else if rows[|rows| - 1].managerId == m then |rows| - 1
      else |rows|
  }

  /** The clients manager `m` contacted. */
  function ClientIdsOf(rows: seq<ContactRow>, m: int): set<int>
  {
    if |rows| == 0 then {}
    else
      var r := rows[|rows| - 1];
      ClientIdsOf(rows[..|rows| - 1], m) + (if r.managerId == m then {r.clientId} else {})
  }

  /** The client name on the last row of manager `m` and client `c`. */
  function LastClientName(rows: seq<ContactRow>, m: int, c: int): Option<string>
  {
    if |rows| == 0 then None
    else
      var r := rows[|rows| - 1];
      if r.managerId == m && r.clientId == c then Some(r.clientName)
      else LastClientName(rows[..|rows| - 1], m, c)
  }

  /** The position of the first row of manager `m` and client `c`, `|rows|`
      when there is none. */
  function FirstClientIndex(rows: seq<ContactRow>, m: int, c: int): (i: nat)
    ensures i <= |rows|
  {
    if |rows| == 0 then 0
    else
      var f := FirstClientIndex(rows[..|rows| - 1], m, c);
      var r := rows[|rows| - 1];
      if f < |rows| - 1 then f
      else if r.managerId == m && r.clientId == c then |rows| - 1
      else |rows|
  }

  /** A manager appears in the rows exactly when it has a first row, a first
      name and a contact; one that does not has no clients. */
  lemma {:induction false} ManagerPresence(rows: seq<ContactRow>, m: int)
    ensures m in ManagerIdsOf(rows) <==> FirstContactIndex(rows, m) < |rows|
    ensures m in ManagerIdsOf(rows) <==> FirstManagerName(rows, m).Some?
    ensures m in ManagerIdsOf(rows) <==> ContactsOf(rows, m) > 0
    ensures m !in ManagerIdsOf(rows) ==> ClientIdsOf(rows, m) == {}
  {
    if |rows| > 0 {
      ManagerPresence(rows[..|rows| - 1], m);
    }
  }

  /** A client of manager `m` appears in the rows exactly when it has a first
      row and a last name. */
  lemma {:induction false} ClientPresence(rows: seq<ContactRow>, m: int, c: int)
    ensures c in ClientIdsOf(rows, m) <==> FirstClientIndex(rows, m, c) < |rows|
    ensures c in ClientIdsOf(rows, m) <==> LastClientName(rows, m, c).Some?
  {
    if |rows| > 0 {
      ClientPresence(rows[..|rows| - 1], m, c);
    }
  }

  /** What one more row changes in what the rows say about manager `m`. */
  lemma AppendRowManager(rows: seq<ContactRow>, r: ContactRow, m: int)
    ensures ManagerIdsOf(rows + [r]) == ManagerIdsOf(rows) + {r.managerId}
    ensures ContactsOf(rows + [r], m) == ContactsOf(rows, m) + (if r.managerId == m then 1 else 0)
    ensures FirstManagerName(rows + [r], m)
         == if FirstManagerName(rows, m).Some? then FirstManagerName(rows, m)
            else if r.managerId == m then Some(r.managerName) else None
    ensures FirstContactIndex(rows + [r], m)
         == if FirstContactIndex(rows, m) < |rows| then FirstContactIndex(rows, m)
            else if r.managerId == m then |rows| else |rows| + 1
    ensures ClientIdsOf(rows + [r], m) == ClientIdsOf(rows, m) + (if r.managerId == m then {r.clientId} else {})
  {
    assert (rows + [r])[..|rows|] == rows;
  }

  /** What one more row changes in what the rows say about client `c` of
      manager `m`. */
  lemma AppendRowClient(rows: seq<ContactRow>, r: ContactRow, m: int, c: int)
    ensures LastClientName(rows + [r], m, c)
         == if r.managerId == m && r.clientId == c then Some(r.clientName) else LastClientName(rows, m, c)
    ensures FirstClientIndex(rows + [r], m, c)
         == if FirstClientIndex(rows, m, c) < |rows| then FirstClientIndex(rows, m, c)
            else if r.managerId == m && r.clientId == c then |rows| else |rows| + 1
  {
    assert (rows + [r])[..|rows|] == rows;
  }

  // ---------------------------------------------------------------- the two dictionaries

  /** `m_id in by_manager`, with the entry's position. */
  function FindManager(acc: seq<ManagerEntry>, m: int): (r: Option<nat>)
    ensures r.Some? ==> r.value < |acc| && acc[r.value].managerId == m
    ensures r.None? ==> forall i :: 0 <= i < |acc| ==> acc[i].managerId != m
  {
    if |acc| == 0 then None
    else if acc[|acc| - 1].managerId == m then Some(|acc| - 1)
    else FindManager(acc[..|acc| - 1], m)
  }

  /** `c_id in clients`, with the entry's position. */
  function FindClient(cs: seq<ClientRef>, c: int): (r: Option<nat>)
    ensures r.Some? ==> r.value < |cs| && cs[r.value].id == c
    ensures r.None? ==> forall j :: 0 <= j < |cs| ==> cs[j].id != c
  {
    if |cs| == 0 then None
    else if cs[|cs| - 1].id == c then Some(|cs| - 1)
    else FindClient(cs[..|cs| - 1], c)
  }

  /** `clients[c_id] = {...}`: an existing key keeps its place and takes the
      new value, a new key goes last. */
  function PutClient(cs: seq<ClientRef>, x: ClientRef): seq<ClientRef>
  {
    match FindClient(cs, x.id)
    case Some(j) => cs[j := x]
    case None => cs + [x]
  }

  function TotalContacts(acc: seq<ManagerEntry>): nat
  {
    if |acc| == 0 then 0 else TotalContacts(acc[..|acc| - 1]) + acc[|acc| - 1].contactsCount
  }

  /** Every client listed for manager `m` was contacted by `m` and carries
      the name of its last row. */
  predicate ClientsKnown(rows: seq<ContactRow>, m: int, cs: seq<ClientRef>)
  {
    forall j :: 0 <= j < |cs| ==>
      cs[j].id in ClientIdsOf(rows, m) && LastClientName(rows, m, cs[j].id) == Some(cs[j].name)
  }

  /** Every client manager `m` contacted is listed. */
  predicate ClientsCovered(rows: seq<ContactRow>, m: int, cs: seq<ClientRef>)
  {
    forall c :: c in ClientIdsOf(rows, m) ==> FindClient(cs, c).Some?
  }

  /** The listed clients are in order of their first contact with `m` (so
      each is listed once). */
  predicate ClientsOrdered(rows: seq<ContactRow>, m: int, cs: seq<ClientRef>)
  {
    forall j, j' :: 0 <= j < j' < |cs| ==> FirstClientIndex(rows, m, cs[j].id) < FirstClientIndex(rows, m, cs[j'].id)
  }

  /** A manager's client dictionary as the rows determine it: each client of
      the manager once, in order of first contact, carrying the name of its
      last row; no more clients than contacts. */
  predicate ClientsMatch(rows: seq<ContactRow>, m: int, cs: seq<ClientRef>)
  {
    ClientsKnown(rows, m, cs) && ClientsCovered(rows, m, cs) && ClientsOrdered(rows, m, cs)
    && |cs| <= ContactsOf(rows, m)
  }

  predicate EntryMatches(rows: seq<ContactRow>, e: ManagerEntry)
  {
    && e.contactsCount == ContactsOf(rows, e.managerId)
    && FirstManagerName(rows, e.managerId) == Some(e.managerName)
    && ClientsMatch(rows, e.managerId, e.clients)
  }

  /** Every listed manager appears in the rows and its entry matches them. */
  predicate EntriesKnown(rows: seq<ContactRow>, acc: seq<ManagerEntry>)
  {
    forall i :: 0 <= i < |acc| ==> acc[i].managerId in ManagerIdsOf(rows) && EntryMatches(rows, acc[i])
  }

  /** Every manager that appears in the rows is listed. */
  predicate ManagersCovered(rows: seq<ContactRow>, acc: seq<ManagerEntry>)
  {
    forall m :: m in ManagerIdsOf(rows) ==> FindManager(acc, m).Some?
  }

  /** The managers are listed in order of their first contact (so each is
      listed once). */
  predicate ManagersOrdered(rows: seq<ContactRow>, acc: seq<ManagerEntry>)
  {
    forall i, j :: 0 <= i < j < |acc| ==>
      FirstContactIndex(rows, acc[i].managerId) < FirstContactIndex(rows, acc[j].managerId)
  }

  /** The `by_manager` dictionary as the rows determine it: one entry per
      manager that appears, in order of first contact, each with its contact
      count, first name and client dictionary; the counts add up to the rows. */
  predicate GroupedAs(rows: seq<ContactRow>, acc: seq<ManagerEntry>)
  {
    EntriesKnown(rows, acc) && ManagersCovered(rows, acc) && ManagersOrdered(rows, acc)
    && TotalContacts(acc) == |rows|
  }

  /** One iteration of the grouping loop. */
  function AddContact(acc: seq<ManagerEntry>, r: ContactRow): seq<ManagerEntry>
  {
    var acc1 := if FindManager(acc, r.managerId).None? then acc + [ManagerEntry(r.managerId, r.managerName, 0, [])] else acc;
    var i := if FindManager(acc, r.managerId).Some? then FindManager(acc, r.managerId).value else |acc|;
    acc1[i := acc1[i].(contactsCount := acc1[i].contactsCount + 1,
                       clients := PutClient(acc1[i].clients, ClientRef(r.clientId, r.clientName)))]
  }

  /** An earlier client of manager `m` keeps its facts under one more row. */
  lemma ClientKept(rows: seq<ContactRow>, r: ContactRow, m: int, x: ClientRef)
    requires x.id in ClientIdsOf(rows, m) && LastClientName(rows, m, x.id) == Some(x.name)
    requires !(r.managerId == m && r.clientId == x.id)
    ensures x.id in ClientIdsOf(rows + [r], m) && LastClientName(rows + [r], m, x.id) == Some(x.name)
    ensures FirstClientIndex(rows + [r], m, x.id) == FirstClientIndex(rows, m, x.id) < |rows|
  {
    AppendRowManager(rows, r, m);
    AppendRowClient(rows, r, m, x.id);
    ClientPresence(rows, m, x.id);
  }

  /** Where `clients[c_id] = {...}` puts the row's client. */
  function PutPosition(cs: seq<ClientRef>, c: int): nat
  {
    if FindClient(cs, c).Some? then FindClient(cs, c).value else |cs|
  }

  lemma PutClientShape(cs: seq<ClientRef>, x: ClientRef)
    ensures var cs', jx := PutClient(cs, x), PutPosition(cs, x.id);
      && |cs'| == (if jx < |cs| then |cs| else |cs| + 1)
      && cs'[jx] == x
      && (forall j :: 0 <= j < |cs'| && j != jx ==> j < |cs| && cs'[j] == cs[j])
      && (jx == |cs| ==> forall j :: 0 <= j < |cs| ==> cs[j].id != x.id)
      && (jx < |cs| ==> cs[jx].id == x.id)
  {
    match FindClient(cs, x.id)
    case Some(j0) =>
      assert PutClient(cs, x) == cs[j0 := x];
    case None =>
      assert PutClient(cs, x) == cs + [x];
  }

  lemma ClientsStepKnown(rows: seq<ContactRow>, r: ContactRow, cs: seq<ClientRef>)
    requires ClientsKnown(rows, r.managerId, cs) && ClientsOrdered(rows, r.managerId, cs)
    ensures ClientsKnown(rows + [r], r.managerId, PutClient(cs, ClientRef(r.clientId, r.clientName)))
  {
    var x := ClientRef(r.clientId, r.clientName);
    var cs', jx := PutClient(cs, x), PutPosition(cs, x.id);
    PutClientShape(cs, x);
    AppendRowManager(rows, r, r.managerId);
    AppendRowClient(rows, r, r.managerId, r.clientId);
    forall j | 0 <= j < |cs'| && j != jx
      ensures cs'[j].id in ClientIdsOf(rows + [r], r.managerId)
      ensures LastClientName(rows + [r], r.managerId, cs'[j].id) == Some(cs'[j].name)
    {
      if jx < |cs| {
        assert FirstClientIndex(rows, r.managerId, cs[j].id) != FirstClientIndex(rows, r.managerId, cs[jx].id);
      }
      ClientKept(rows, r, r.managerId, cs[j]);
    }
  }

  lemma ClientsStepCovered(rows: seq<ContactRow>, r: ContactRow, cs: seq<ClientRef>)
    requires ClientsCovered(rows, r.managerId, cs)
    ensures ClientsCovered(rows + [r], r.managerId, PutClient(cs, ClientRef(r.clientId, r.clientName)))
  {
    var x := ClientRef(r.clientId, r.clientName);
    var cs', jx := PutClient(cs, x), PutPosition(cs, x.id);
    PutClientShape(cs, x);
    AppendRowManager(rows, r, r.managerId);
    forall c' | c' in ClientIdsOf(rows + [r], r.managerId)
      ensures FindClient(cs', c').Some?
    {
      if c' != x.id {
        var k := FindClient(cs, c').value;
        assert cs'[k].id == c';
      } else {
        assert cs'[jx].id == c';
      }
    }
  }

  lemma ClientsStepOrdered(rows: seq<ContactRow>, r: ContactRow, cs: seq<ClientRef>)
    requires ClientsKnown(rows, r.managerId, cs) && ClientsCovered(rows, r.managerId, cs)
    requires ClientsOrdered(rows, r.managerId, cs)
    ensures ClientsOrdered(rows + [r], r.managerId, PutClient(cs, ClientRef(r.clientId, r.clientName)))
  {
    var m := r.managerId;
    var x := ClientRef(r.clientId, r.clientName);
    var cs', jx := PutClient(cs, x), PutPosition(cs, x.id);
    PutClientShape(cs, x);
    forall j | 0 <= j < |cs|
      ensures FirstClientIndex(rows + [r], m, cs[j].id) == FirstClientIndex(rows, m, cs[j].id) < |rows|
    {
      AppendRowClient(rows, r, m, cs[j].id);
      ClientPresence(rows, m, cs[j].id);
    }
    AppendRowClient(rows, r, m, x.id);
    ClientPresence(rows, m, x.id);
    if jx == |cs| {
      assert FirstClientIndex(rows + [r], m, x.id) == |rows|;
    } else {
      assert cs[jx].id == x.id;
    }
  }

  /** The client dictionary of the row's manager stays as the rows determine it. */
  lemma ClientsStep(rows: seq<ContactRow>, r: ContactRow, cs: seq<ClientRef>)
    requires ClientsMatch(rows, r.managerId, cs)
    ensures ClientsMatch(rows + [r], r.managerId, PutClient(cs, ClientRef(r.clientId, r.clientName)))
  {
    ClientsStepKnown(rows, r, cs);
    ClientsStepCovered(rows, r, cs);
    ClientsStepOrdered(rows, r, cs);
    PutClientShape(cs, ClientRef(r.clientId, r.clientName));
    AppendRowManager(rows, r, r.managerId);
  }

  /** The client dictionary of another manager is unaffected by the row. */
  lemma ClientsOther(rows: seq<ContactRow>, r: ContactRow, m: int, cs: seq<ClientRef>)
    requires m != r.managerId && ClientsMatch(rows, m, cs)
    ensures ClientsMatch(rows + [r], m, cs)
  {
    AppendRowManager(rows, r, m);
    forall j | 0 <= j < |cs|
      ensures cs[j].id in ClientIdsOf(rows + [r], m) && LastClientName(rows + [r], m, cs[j].id) == Some(cs[j].name)
      ensures FirstClientIndex(rows + [r], m, cs[j].id) == FirstClientIndex(rows, m, cs[j].id)
    {
      ClientKept(rows, r, m, cs[j]);
    }
  }

  lemma {:induction false} TotalContactsUpdate(acc: seq<ManagerEntry>, i: nat, e: ManagerEntry)
    requires i < |acc|
    ensures TotalContacts(acc[i := e]) + acc[i].contactsCount == TotalContacts(acc) + e.contactsCount
  {
    if i < |acc| - 1 {
      assert acc[i := e][..|acc| - 1] == acc[..|acc| - 1][i := e];
      TotalContactsUpdate(acc[..|acc| - 1], i, e);
    } else {
      assert acc[i := e][..|acc| - 1] == acc[..|acc| - 1];
    }
  }

  /** An earlier entry of another manager keeps its facts under one more row. */
  lemma EntryKept(rows: seq<ContactRow>, r: ContactRow, e: ManagerEntry)
    requires e.managerId in ManagerIdsOf(rows) && EntryMatches(rows, e) && e.managerId != r.managerId
    ensures e.managerId in ManagerIdsOf(rows + [r]) && EntryMatches(rows + [r], e)
    ensures FirstContactIndex(rows + [r], e.managerId) == FirstContactIndex(rows, e.managerId) < |rows|
  {
    AppendRowManager(rows, r, e.managerId);
    ManagerPresence(rows, e.managerId);
    ClientsOther(rows, r, e.managerId, e.clients);
  }

  /** Where the row's manager's entry is, or goes. */
  function EntryPosition(acc: seq<ManagerEntry>, m: int): nat
  {
    if FindManager(acc, m).Some? then FindManager(acc, m).value else |acc|
  }

  /** The row's manager's entry before the row: the stored one, or the fresh
      one the loop creates. */
  function EntryBefore(acc: seq<ManagerEntry>, r: ContactRow): ManagerEntry
  {
    var ix := EntryPosition(acc, r.managerId);
    if ix < |acc| then acc[ix] else ManagerEntry(r.managerId, r.managerName, 0, [])
  }

  lemma AddContactShape(acc: seq<ManagerEntry>, r: ContactRow)
    ensures var acc', ix, e := AddContact(acc, r), EntryPosition(acc, r.managerId), EntryBefore(acc, r);
      && |acc'| == (if ix < |acc| then |acc| else |acc| + 1)
      && acc'[ix] == e.(contactsCount := e.contactsCount + 1, clients := PutClient(e.clients, ClientRef(r.clientId, r.clientName)))
      && (forall i :: 0 <= i < |acc'| && i != ix ==> i < |acc| && acc'[i] == acc[i])
      && (ix == |acc| ==> forall i :: 0 <= i < |acc| ==> acc[i].managerId != r.managerId)
      && (ix < |acc| ==> acc[ix].managerId == r.managerId && acc' == acc[ix := acc'[ix]])
      && (ix == |acc| ==> acc' == acc + [acc'[ix]])
  {
  }

  lemma GroupStepKnown(rows: seq<ContactRow>, r: ContactRow, acc: seq<ManagerEntry>)
    requires EntriesKnown(rows, acc) && ManagersCovered(rows, acc) && ManagersOrdered(rows, acc)
    ensures EntriesKnown(rows + [r], AddContact(acc, r))
  {
    var m := r.managerId;
    var acc', ix, e := AddContact(acc, r), EntryPosition(acc, m), EntryBefore(acc, r);
    AddContactShape(acc, r);
    AppendRowManager(rows, r, m);
    ManagerPresence(rows, m);
    assert ClientsMatch(rows, m, e.clients);
    ClientsStep(rows, r, e.clients);
    assert EntryMatches(rows + [r], acc'[ix]);
    forall i | 0 <= i < |acc'| && i != ix
      ensures acc'[i].managerId in ManagerIdsOf(rows + [r]) && EntryMatches(rows + [r], acc'[i])
    {
      if ix < |acc| {
        assert FirstContactIndex(rows, acc[i].managerId) != FirstContactIndex(rows, acc[ix].managerId);
      }
      EntryKept(rows, r, acc[i]);
    }
  }

  lemma GroupStepCovered(rows: seq<ContactRow>, r: ContactRow, acc: seq<ManagerEntry>)
    requires ManagersCovered(rows, acc)
    ensures ManagersCovered(rows + [r], AddContact(acc, r))
  {
    var m := r.managerId;
    var acc', ix := AddContact(acc, r), EntryPosition(acc, m);
    AddContactShape(acc, r);
    AppendRowManager(rows, r, m);
    forall m' | m' in ManagerIdsOf(rows + [r])
      ensures FindManager(acc', m').Some?
    {
      if m' != m {
        var k := FindManager(acc, m').value;
        assert acc'[k].managerId == m';
      } else {
        assert acc'[ix].managerId == m';
      }
    }
  }

  lemma GroupStepOrdered(rows: seq<ContactRow>, r: ContactRow, acc: seq<ManagerEntry>)
    requires EntriesKnown(rows, acc) && ManagersCovered(rows, acc) && ManagersOrdered(rows, acc)
    ensures ManagersOrdered(rows + [r], AddContact(acc, r))
  {
    var m := r.managerId;
    var acc', ix := AddContact(acc, r), EntryPosition(acc, m);
    AddContactShape(acc, r);
    forall i | 0 <= i < |acc|
      ensures FirstContactIndex(rows + [r], acc[i].managerId) == FirstContactIndex(rows, acc[i].managerId) < |rows|
    {
      AppendRowManager(rows, r, acc[i].managerId);
      ManagerPresence(rows, acc[i].managerId);
    }
    AppendRowManager(rows, r, m);
    ManagerPresence(rows, m);
    if ix == |acc| {
      assert FirstContactIndex(rows + [r], m) == |rows|;
    }
  }

  lemma GroupStepTotal(rows: seq<ContactRow>, r: ContactRow, acc: seq<ManagerEntry>)
    requires TotalContacts(acc) == |rows|
    ensures TotalContacts(AddContact(acc, r)) == |rows| + 1
  {
    var acc', ix := AddContact(acc, r), EntryPosition(acc, r.managerId);
    AddContactShape(acc, r);
    if ix < |acc| {
      TotalContactsUpdate(acc, ix, acc'[ix]);
    } else {
      assert acc'[..|acc|] == acc;
    }
  }

  /** One more row keeps the dictionary as the rows determine it. */
  lemma GroupStep(rows: seq<ContactRow>, r: ContactRow, acc: seq<ManagerEntry>)
    requires GroupedAs(rows, acc)
    ensures GroupedAs(rows + [r], AddContact(acc, r))
  {
    GroupStepKnown(rows, r, acc);
    GroupStepCovered(rows, r, acc);
    GroupStepOrdered(rows, r, acc);
    GroupStepTotal(rows, r, acc);
  }

  /** The body of the grouping loop: the row's manager gets an entry if it
      has none, then one more contact and the row's client. */
  method CountContact(acc: seq<ManagerEntry>, r: ContactRow) returns (acc1: seq<ManagerEntry>)
    ensures acc1 == AddContact(acc, r)
  {
    var found := FindManager(acc, r.managerId);
    var pos: nat;
    acc1 := acc;
    if found.None? {
      acc1 := acc1 + [ManagerEntry(r.managerId, r.managerName, 0, [])];
      pos := |acc1| - 1;
    } else {
      pos := found.value;
    }
    acc1 := acc1[pos := acc1[pos].(contactsCount := acc1[pos].contactsCount + 1)];
    acc1 := acc1[pos := acc1[pos].(clients := PutClient(acc1[pos].clients, ClientRef(r.clientId, r.clientName)))];
  }

  /** The grouping loop over the rows. */
  method GroupByManager(rows: seq<ContactRow>) returns (acc: seq<ManagerEntry>)
    ensures GroupedAs(rows, acc)
  {
    acc := [];
    for k := 0 to |rows|
      invariant GroupedAs(rows[..k], acc)
    {
      var r := rows[k];
      assert rows[..k + 1] == rows[..k] + [r];
      var acc1 := CountContact(acc, r);
      GroupStep(rows[..k], r, acc);
      acc := acc1;
    }
    assert rows[..|rows|] == rows;
  }

  // ---------------------------------------------------------------- items and their order

  /** One element of `items`, built from a `by_manager` value. */
  function Summarize(e: ManagerEntry): ManagerContacts
  {
    ManagerContacts(e.managerId, e.managerName, e.contactsCount, e.clients, |e.clients|)
  }

  /** The loop over `by_manager.values()` that builds `items`. */
  method ItemsOf(acc: seq<ManagerEntry>) returns (items: seq<ManagerContacts>)
    ensures |items| == |acc| && forall i :: 0 <= i < |acc| ==> items[i] == Summarize(acc[i])
  {
    items := [];
    for k := 0 to |acc|
      invariant |items| == k && forall i :: 0 <= i < k ==> items[i] == Summarize(acc[i])
    {
      items := items + [Summarize(acc[k])];
    }
  }

  predicate SortedByContacts(s: seq<ManagerContacts>)
  {
    forall i, j :: 0 <= i < j < |s| ==> s[i].contactsCount >= s[j].contactsCount
  }

  /** The elements of `s` with `c` contacts, in their order in `s`. */
  function WithCount(s: seq<ManagerContacts>, c: nat): seq<ManagerContacts>
  {
    if |s| == 0 then [] else (if s[0].contactsCount == c then [s[0]] else []) + WithCount(s[1..], c)
  }

  function ListedContacts(s: seq<ManagerContacts>): nat
  {
    if |s| == 0 then 0 else s[0].contactsCount + ListedContacts(s[1..])
  }

  /** Puts `x` into a list sorted by contacts, descending, before the first
      element with no more contacts than `x`. */
  function InsertByContacts(x: ManagerContacts, s: seq<ManagerContacts>): seq<ManagerContacts>
  {
    if |s| == 0 then [x]
    else if s[0].contactsCount > x.contactsCount then [s[0]] + InsertByContacts(x, s[1..])
    else [x] + s
  }

  lemma {:induction false} InsertByContactsSorted(x: ManagerContacts, s: seq<ManagerContacts>)
    requires SortedByContacts(s)
    ensures SortedByContacts(InsertByContacts(x, s))
    ensures multiset(InsertByContacts(x, s)) == multiset(s) + multiset{x}
  {
    if |s| > 0 && s[0].contactsCount > x.contactsCount {
      InsertByContactsSorted(x, s[1..]);
      var t := InsertByContacts(x, s[1..]);
      assert InsertByContacts(x, s) == [s[0]] + t;
      InsertByContactsHead(x, s[1..]);
      assert s[0].contactsCount >= t[0].contactsCount;
      ConsSorted(s[0], t);
    }
    InsertByContactsPermutes(x, s);
  }

  /** An element with at least as many contacts as the head of a sorted list
      can go in front of it. */
  lemma ConsSorted(h: ManagerContacts, t: seq<ManagerContacts>)
    requires SortedByContacts(t)
    requires |t| > 0 ==> h.contactsCount >= t[0].contactsCount
    ensures SortedByContacts([h] + t)
  {
    var r := [h] + t;
    forall i, j | 0 <= i < j < |r|
      ensures r[i].contactsCount >= r[j].contactsCount
    {
      if i == 0 {
        assert r[j] == t[j - 1];
        assert t[0].contactsCount >= t[j - 1].contactsCount;
      } else {
        assert r[i] == t[i - 1] && r[j] == t[j - 1];
      }
    }
  }

  /** The element the insertion puts first. */
  lemma InsertByContactsHead(x: ManagerContacts, s: seq<ManagerContacts>)
    ensures InsertByContacts(x, s)[0] == if |s| > 0 && s[0].contactsCount > x.contactsCount then s[0] else x
  {
  }

  lemma {:induction false} InsertByContactsPermutes(x: ManagerContacts, s: seq<ManagerContacts>)
    ensures multiset(InsertByContacts(x, s)) == multiset(s) + multiset{x}
  {
    if |s| > 0 && s[0].contactsCount > x.contactsCount {
      var t := InsertByContacts(x, s[1..]);
      InsertByContactsPermutes(x, s[1..]);
      assert InsertByContacts(x, s) == [s[0]] + t;
      assert s == [s[0]] + s[1..];
      assert multiset([s[0]] + t) == multiset{s[0]} + multiset(t);
      assert multiset(s) == multiset{s[0]} + multiset(s[1..]);
    }
  }

  lemma {:induction false} InsertByContactsCounts(x: ManagerContacts, s: seq<ManagerContacts>, c: nat)
    ensures ListedContacts(InsertByContacts(x, s)) == x.contactsCount + ListedContacts(s)
    ensures WithCount(InsertByContacts(x, s), c) == (if x.contactsCount == c then [x] else []) + WithCount(s, c)
  {
    InsertByContactsListed(x, s);
    InsertByContactsWithCount(x, s, c);
  }

  lemma {:induction false} InsertByContactsListed(x: ManagerContacts, s: seq<ManagerContacts>)
    ensures ListedContacts(InsertByContacts(x, s)) == x.contactsCount + ListedContacts(s)
  {
    if |s| > 0 && s[0].contactsCount > x.contactsCount {
      InsertByContactsListed(x, s[1..]);
      var t := InsertByContacts(x, s[1..]);
      assert ([s[0]] + t)[1..] == t;
    } else if |s| > 0 {
      assert ([x] + s)[1..] == s;
    } else {
      assert [x][1..] == [];
    }
  }

  lemma {:induction false} InsertByContactsWithCount(x: ManagerContacts, s: seq<ManagerContacts>, c: nat)
    ensures WithCount(InsertByContacts(x, s), c) == (if x.contactsCount == c then [x] else []) + WithCount(s, c)
  {
    if |s| > 0 && s[0].contactsCount > x.contactsCount {
      InsertByContactsWithCount(x, s[1..], c);
      var t := InsertByContacts(x, s[1..]);
      assert ([s[0]] + t)[1..] == t;
    } else if |s| > 0 {
      assert ([x] + s)[1..] == s;
    } else {
      assert [x][1..] == [];
    }
  }

  /** Inserting the first element into the sorted rest sorts the whole. */
  lemma InsertStep(items: seq<ManagerContacts>, rest: seq<ManagerContacts>)
    requires |items| > 0 && SortedByContacts(rest)
    requires multiset(rest) == multiset(items[1..]) && ListedContacts(rest) == ListedContacts(items[1..])
    requires forall c :: WithCount(rest, c) == WithCount(items[1..], c)
    ensures var r := InsertByContacts(items[0], rest);
      && SortedByContacts(r) && multiset(r) == multiset(items) && ListedContacts(r) == ListedContacts(items)
      && forall c :: WithCount(r, c) == WithCount(items, c)
  {
    var x := items[0];
    var r := InsertByContacts(x, rest);
    InsertByContactsSorted(x, rest);
    assert items == [x] + items[1..];
    assert multiset(items) == multiset(items[1..]) + multiset{x};
    InsertByContactsCounts(x, rest, 0);
    assert ListedContacts(items) == x.contactsCount + ListedContacts(items[1..]);
    forall c
      ensures WithCount(r, c) == WithCount(items, c)
    {
      InsertByContactsCounts(x, rest, c);
      assert WithCount(items, c) == (if x.contactsCount == c then [x] else []) + WithCount(items[1..], c);
    }
  }

  /** `items.sort(key=contacts_count, reverse=True)`: Python's sort is
      stable, and `reverse=True` keeps equal elements in their original
      order, so the result is sorted by contacts, descending, is a
      permutation of its input, and keeps the elements of each contact count
      in input order. */
  function StableSortByContacts(items: seq<ManagerContacts>): (r: seq<ManagerContacts>)
    ensures SortedByContacts(r)
    ensures multiset(r) == multiset(items)
    ensures forall c :: WithCount(r, c) == WithCount(items, c)
    ensures ListedContacts(r) == ListedContacts(items)
  {
    if |items| == 0 then []
    else
      var rest := StableSortByContacts(items[1..]);
      InsertStep(items, rest);
      InsertByContacts(items[0], rest)
  }

  /** Elements ordered by first contact. */
  predicate ContactOrdered(rows: seq<ContactRow>, s: seq<ManagerContacts>)
  {
    forall i, j :: 0 <= i < j < |s| ==>
      FirstContactIndex(rows, s[i].managerId) < FirstContactIndex(rows, s[j].managerId)
  }

  lemma {:induction false} WithCountOrdered(rows: seq<ContactRow>, s: seq<ManagerContacts>, c: nat)
    requires ContactOrdered(rows, s)
    ensures ContactOrdered(rows, WithCount(s, c))
    ensures forall y :: y in WithCount(s, c) ==> y in s
  {
    if |s| > 0 {
      WithCountOrdered(rows, s[1..], c);
      var t := WithCount(s[1..], c);
      forall y | y in t
        ensures FirstContactIndex(rows, s[0].managerId) < FirstContactIndex(rows, y.managerId)
      {
        var k :| 0 <= k < |s[1..]| && s[1..][k] == y;
        assert s[k + 1] == y;
      }
      if s[0].contactsCount == c {
        assert WithCount(s, c) == [s[0]] + t;
        forall i, j | 0 <= i < j < |[s[0]] + t|
          ensures FirstContactIndex(rows, ([s[0]] + t)[i].managerId) < FirstContactIndex(rows, ([s[0]] + t)[j].managerId)
        {
          if i == 0 {
            assert ([s[0]] + t)[j] == t[j - 1];
            assert t[j - 1] in t;
          }
        }
      } else {
        assert WithCount(s, c) == t;
      }
    }
  }

  /** Two elements of `s` with the same contact count appear in `s` in the
      order they have in that count's sub-list. */
  lemma {:induction false} TieFollowsWithCount(rows: seq<ContactRow>, s: seq<ManagerContacts>, i: nat, j: nat)
    requires i < j < |s| && s[i].contactsCount == s[j].contactsCount
    requires ContactOrdered(rows, WithCount(s, s[i].contactsCount))
    ensures FirstContactIndex(rows, s[i].managerId) < FirstContactIndex(rows, s[j].managerId)
  {
    var c := s[i].contactsCount;
    var t := WithCount(s[1..], c);
    if i == 0 {
      assert WithCount(s, c) == [s[0]] + t;
      InCount(s[1..], c, j - 1);
      var k :| 0 <= k < |t| && t[k] == s[j];
      assert ([s[0]] + t)[0] == s[0];
      assert ([s[0]] + t)[k + 1] == s[j];
      assert FirstContactIndex(rows, ([s[0]] + t)[0].managerId) < FirstContactIndex(rows, ([s[0]] + t)[k + 1].managerId);
    } else {
      assert WithCount(s, c) == (if s[0].contactsCount == c then [s[0]] else []) + t;
      assert ContactOrdered(rows, t) by {
        var p := if s[0].contactsCount == c then [s[0]] else [];
        forall a, b | 0 <= a < b < |t|
          ensures FirstContactIndex(rows, t[a].managerId) < FirstContactIndex(rows, t[b].managerId)
        {
          assert (p + t)[a + |p|] == t[a];
          assert (p + t)[b + |p|] == t[b];
        }
      }
      TieFollowsWithCount(rows, s[1..], i - 1, j - 1);
    }
  }

  lemma {:induction false} InCount(s: seq<ManagerContacts>, c: nat, k: nat)
    requires k < |s| && s[k].contactsCount == c
    ensures s[k] in WithCount(s, c)
  {
    if k > 0 {
      InCount(s[1..], c, k - 1);
    }
  }

  lemma {:induction false} ListedOfSummaries(acc: seq<ManagerEntry>, items: seq<ManagerContacts>)
    requires |items| == |acc| && forall i :: 0 <= i < |acc| ==> items[i] == Summarize(acc[i])
    ensures ListedContacts(items) == TotalContacts(acc)
  {
    if |acc| > 0 {
      var n := |acc| - 1;
      ListedOfSummaries(acc[..n], items[..n]);
      ListedSnoc(items[..n], items[n]);
      assert items == items[..n] + [items[n]];
    }
  }

  lemma {:induction false} ListedSnoc(s: seq<ManagerContacts>, x: ManagerContacts)
    ensures ListedContacts(s + [x]) == ListedContacts(s) + x.contactsCount
  {
    if |s| > 0 {
      assert (s + [x])[1..] == s[1..] + [x];
      ListedSnoc(s[1..], x);
    }
  }

  /** A listed manager as the rows determine it. */
  predicate ItemMatches(rows: seq<ContactRow>, it: ManagerContacts)
  {
    && it.managerId in ManagerIdsOf(rows)
    && EntryMatches(rows, ManagerEntry(it.managerId, it.managerName, it.contactsCount, it.clients))
    && it.uniqueClientsCount == |it.clients|
  }

  /** The summaries of a grouped dictionary match the rows, follow the order
      of first contact, cover every manager and add up to the rows. */
  lemma SummariesMatch(rows: seq<ContactRow>, acc: seq<ManagerEntry>, items: seq<ManagerContacts>)
    requires GroupedAs(rows, acc)
    requires |items| == |acc| && forall i :: 0 <= i < |acc| ==> items[i] == Summarize(acc[i])
    ensures forall i :: 0 <= i < |items| ==> ItemMatches(rows, items[i])
    ensures ContactOrdered(rows, items)
    ensures forall m :: m in ManagerIdsOf(rows) ==> exists i :: 0 <= i < |items| && items[i].managerId == m
    ensures ListedContacts(items) == |rows|
  {
    ListedOfSummaries(acc, items);
    forall i | 0 <= i < |items|
      ensures ItemMatches(rows, items[i])
    {
      assert ManagerEntry(items[i].managerId, items[i].managerName, items[i].contactsCount, items[i].clients) == acc[i];
    }
    forall m | m in ManagerIdsOf(rows)
      ensures exists i :: 0 <= i < |items| && items[i].managerId == m
    {
      var k := FindManager(acc, m).value;
      assert items[k].managerId == m;
    }
  }

  /** What holds of every element, and of coverage, survives the sort. */
  lemma SortKeepsMembers(rows: seq<ContactRow>, items: seq<ManagerContacts>, sorted: seq<ManagerContacts>)
    requires multiset(sorted) == multiset(items)
    requires forall i :: 0 <= i < |items| ==> ItemMatches(rows, items[i])
    requires forall m :: m in ManagerIdsOf(rows) ==> exists i :: 0 <= i < |items| && items[i].managerId == m
    ensures forall i :: 0 <= i < |sorted| ==> ItemMatches(rows, sorted[i])
    ensures forall m :: m in ManagerIdsOf(rows) ==> exists i :: 0 <= i < |sorted| && sorted[i].managerId == m
  {
    forall i | 0 <= i < |sorted|
      ensures ItemMatches(rows, sorted[i])
    {
      assert sorted[i] in multiset(items);
      var k :| 0 <= k < |items| && items[k] == sorted[i];
    }
    forall m | m in ManagerIdsOf(rows)
      ensures exists i :: 0 <= i < |sorted| && sorted[i].managerId == m
    {
      var k :| 0 <= k < |items| && items[k].managerId == m;
      assert items[k] in multiset(sorted);
      var i :| 0 <= i < |sorted| && sorted[i] == items[k];
    }
  }

  /** Ties in the sorted list keep the order of first contact, so no manager
      is listed twice. */
  lemma SortKeepsTies(rows: seq<ContactRow>, items: seq<ManagerContacts>, sorted: seq<ManagerContacts>)
    requires ContactOrdered(rows, items)
    requires forall c :: WithCount(sorted, c) == WithCount(items, c)
    requires forall i :: 0 <= i < |sorted| ==> ItemMatches(rows, sorted[i])
    ensures forall i, j :: 0 <= i < j < |sorted| && sorted[i].contactsCount == sorted[j].contactsCount ==>
      FirstContactIndex(rows, sorted[i].managerId) < FirstContactIndex(rows, sorted[j].managerId)
    ensures forall i, j :: 0 <= i < j < |sorted| ==> sorted[i].managerId != sorted[j].managerId
  {
    forall i, j | 0 <= i < j < |sorted| && sorted[i].contactsCount == sorted[j].contactsCount
      ensures FirstContactIndex(rows, sorted[i].managerId) < FirstContactIndex(rows, sorted[j].managerId)
    {
      WithCountOrdered(rows, items, sorted[i].contactsCount);
      TieFollowsWithCount(rows, sorted, i, j);
    }
    forall i, j | 0 <= i < j < |sorted|
      ensures sorted[i].managerId != sorted[j].managerId
    {
      assert ItemMatches(rows, sorted[i]) && ItemMatches(rows, sorted[j]);
    }
  }

  /** `contacts_by_manager`: one item per manager that appears in the rows,
      with its contact count, its first name and its distinct clients (each
      once, in order of first contact, with the name of its last row) and
      their number; items sorted by contacts, descending, managers with equal
      counts in order of first contact; the counts add up to the rows. */
  method ContactsByManager(rows: seq<ContactRow>) returns (rep: ContactsReport)
    ensures rep.count == |rep.items|
    ensures forall i :: 0 <= i < |rep.items| ==> ItemMatches(rows, rep.items[i])
    ensures forall m :: m in ManagerIdsOf(rows) ==> exists i :: 0 <= i < |rep.items| && rep.items[i].managerId == m
    ensures SortedByContacts(rep.items)
    ensures forall i, j :: 0 <= i < j < |rep.items| && rep.items[i].contactsCount == rep.items[j].contactsCount ==>
      FirstContactIndex(rows, rep.items[i].managerId) < FirstContactIndex(rows, rep.items[j].managerId)
    ensures forall i, j :: 0 <= i < j < |rep.items| ==> rep.items[i].managerId != rep.items[j].managerId
    ensures ListedContacts(rep.items) == |rows|
  {
    var byManager := GroupByManager(rows);
    var items := ItemsOf(byManager);
    SummariesMatch(rows, byManager, items);
    var sorted := StableSortByContacts(items);
    SortKeepsMembers(rows, items, sorted);
    SortKeepsTies(rows, items, sorted);
    rep := ContactsReport(sorted, |sorted|);
  }
}
