/** The reminder notices service: the template chosen from the days left
    until a client's due date, the parsing of the `specialDays` query
    parameter, and the list of recipients both endpoints return. */
module Notions {
  import opened Wrappers
  import opened Text
  import opened Dates

  const OVERDUE_TEMPLATE := "moroso"
  const DEFAULT_TEMPLATE := "template_default"

  /** `pickTemplate`: its chain of thresholds sends every number of days up
      to 15, zero and negative ones included, to the overdue template. */
  function PickTemplate(days: int): (t: string)
    ensures t == OVERDUE_TEMPLATE <==> days <= 15
    ensures t == OVERDUE_TEMPLATE || t == DEFAULT_TEMPLATE
  {
    if days <= 0 then OVERDUE_TEMPLATE
    else if days == 0 then OVERDUE_TEMPLATE
    else if days <= 5 then OVERDUE_TEMPLATE
    else if days <= 10 then OVERDUE_TEMPLATE
    else if days <= 15 then OVERDUE_TEMPLATE
    else DEFAULT_TEMPLATE
  }

  // ---------------------------------------------------------------- the specialDays parameter

  /** An element of `allowed_days`: the "neg" marker or a day number. */
  datatype AllowedDay = NegativeDays | Day(n: int)

  /** What one comma-separated token adds to `allowed_days`: nothing for a
      blank token, the marker for "neg" in any letter case, the number for
      a token `int()` accepts, and nothing for any other token. */
  function TokenDay(token: string): (r: Option<AllowedDay>)
    ensures r == Some(NegativeDays) <==> Lower(Strip(token)) == "neg"
    ensures forall n :: r == Some(Day(n)) <==> Lower(Strip(token)) != "neg" && ParseInt(Strip(token)) == Some(n)
    ensures Strip(token) == "" ==> r == None
  {
    var clean := Strip(token);
    if clean == "" then None
    else if Lower(clean) == "neg" then Some(NegativeDays)
    else match ParseInt(clean) case Some(n) => Some(Day(n)) case None => None
  }

  /** The set the tokens build. */
  function AllowedOf(tokens: seq<string>): set<AllowedDay>
  {
    if |tokens| == 0 then {}
    else
      var last := TokenDay(tokens[|tokens| - 1]);
      AllowedOf(tokens[..|tokens| - 1]) + (if last.Some? then {last.value} else {})
  }

  /** An element is allowed exactly when some token adds it. */
  lemma {:induction false} AllowedOfMembers(tokens: seq<string>, d: AllowedDay)
    ensures d in AllowedOf(tokens) <==> exists k :: 0 <= k < |tokens| && TokenDay(tokens[k]) == Some(d)
  {
    if |tokens| > 0 {
      var init := tokens[..|tokens| - 1];
      AllowedOfMembers(init, d);
      AllowedOfLast(tokens, d);
      RaiseWitness(tokens, init, d);
    }
  }

  lemma AllowedOfLast(tokens: seq<string>, d: AllowedDay)
    requires |tokens| > 0
    ensures d in AllowedOf(tokens) <==> d in AllowedOf(tokens[..|tokens| - 1]) || TokenDay(tokens[|tokens| - 1]) == Some(d)
  {
  }

  /** A token of the prefix is a token of the whole list, and a token of the
      whole list is the last one or a token of the prefix. */
  lemma RaiseWitness(tokens: seq<string>, init: seq<string>, d: AllowedDay)
    requires |tokens| > 0 && init == tokens[..|tokens| - 1]
    ensures (exists k :: 0 <= k < |tokens| && TokenDay(tokens[k]) == Some(d))
        <==> (exists k :: 0 <= k < |init| && TokenDay(init[k]) == Some(d)) || TokenDay(tokens[|tokens| - 1]) == Some(d)
  {
    if exists k :: 0 <= k < |tokens| && TokenDay(tokens[k]) == Some(d) {
      var k :| 0 <= k < |tokens| && TokenDay(tokens[k]) == Some(d);
      LowerWitness(tokens, init, d, k);
    }
    if exists k :: 0 <= k < |init| && TokenDay(init[k]) == Some(d) {
      var k :| 0 <= k < |init| && TokenDay(init[k]) == Some(d);
      assert tokens[k] == init[k];
    }
  }

  lemma LowerWitness(tokens: seq<string>, init: seq<string>, d: AllowedDay, k: int)
    requires |tokens| > 0 && init == tokens[..|tokens| - 1]
    requires 0 <= k < |tokens| && TokenDay(tokens[k]) == Some(d)
    ensures (exists j :: 0 <= j < |init| && TokenDay(init[j]) == Some(d)) || TokenDay(tokens[|tokens| - 1]) == Some(d)
  {
    if k < |init| {
      assert init[k] == tokens[k];
    }
  }

  /** The loop over `specialDays.split(",")` that fills `allowed_days`. */
  method AllowedDays(specialDays: string) returns (allowed: set<AllowedDay>)
    ensures allowed == AllowedOf(Split(specialDays, ','))
  {
    var tokens := Split(specialDays, ',');
    allowed := {};
    for k := 0 to |tokens|
      invariant allowed == AllowedOf(tokens[..k])
    {
      assert tokens[..k + 1][..k] == tokens[..k];
      var cleanToken := Strip(tokens[k]);
      if cleanToken == "" {
        continue;
      }
      if Lower(cleanToken) == "neg" {
        allowed := allowed + {NegativeDays};
      } else {
        var dayNumber := ParseInt(cleanToken);
        if dayNumber.Some? {
          allowed := allowed + {Day(dayNumber.value)};
        }
      }
    }
    assert tokens[..|tokens|] == tokens;
  }

  /** A token reading "neg" in any letter case, surrounded by any
      whitespace, adds the marker. */
  lemma NegInAnyCase(specialDays: string, k: nat)
    requires k < |Split(specialDays, ',')| && Lower(Strip(Split(specialDays, ',')[k])) == "neg"
    ensures NegativeDays in AllowedOf(Split(specialDays, ','))
  {
    AllowedOfMembers(Split(specialDays, ','), NegativeDays);
  }

  /** The text of a natural number is read by `int()` as that number. */
  lemma NumberToken(n: nat)
    ensures TokenDay(NatText(n)) == Some(Day(n))
  {
    var t := NatText(n);
    ParseIntText(n);
    NoSpaceAround(t);
    assert Lower(t)[0] != 'n';
  }

  lemma NoSpaceAround(t: string)
    requires |t| >= 1 && forall i :: 0 <= i < |t| ==> IsDigit(t[i])
    ensures Strip(t) == t
  {
    assert !IsSpace(t[0]) && !IsSpace(t[|t| - 1]);
  }

  // ---------------------------------------------------------------- recipients

  /** One of the hard-coded clients, with its amount text read by `float`
      and its date text read by `strptime`. */
  datatype Client = Client(to: string, name: string, amount: real, date: CalDate)

  /** The service's client list: amounts "200.000" (200 as a Python float)
      and dates "2025-09-05" and "2025-09-20". */
  const CLIENTS: seq<Client> := [
    Client("+573012706204", "Milo", 200.0, Date(2025, 9, 5)),
    Client("+573174929988", "Santi idarraga", 200.0, Date(2025, 9, 20))
  ]

  /** `datetime.now()`: a date and the microseconds elapsed since its
      midnight. */
  datatype Clock = Clock(date: CalDate, elapsed: nat)
  const MICROSECONDS_PER_DAY := 86_400_000_000
  type Now = c: Clock | c.elapsed < MICROSECONDS_PER_DAY witness Clock(Date(2000, 1, 1), 0)

  /** `calculateDays`: the whole days of `midnight of due - now`, rounded
      down as `timedelta.days` does. */
  function DaysUntil(due: CalDate, now: Now): (days: int)
    ensures (days + 1) * MICROSECONDS_PER_DAY > (Ordinal(due) - Ordinal(now.date)) * MICROSECONDS_PER_DAY - now.elapsed
    ensures (Ordinal(due) - Ordinal(now.date)) * MICROSECONDS_PER_DAY - now.elapsed >= days * MICROSECONDS_PER_DAY
  {
    Ordinal(due) - Ordinal(now.date) - (if now.elapsed > 0 then 1 else 0)
  }

  datatype Recipient = Recipient(to: string, name: string, amount: real, date: string, template: string)

  function RecipientFor(c: Client, now: Now): Recipient
  {
    Recipient(c.to, c.name, c.amount, Iso(c.date), PickTemplate(DaysUntil(c.date, now)))
  }

  /** A client whose due date is today or already past gets the overdue
      template, and so does one due within the next fifteen days. */
  lemma DueSoonIsOverdueTemplate(c: Client, now: Now)
    requires Ordinal(c.date) - Ordinal(now.date) <= 15
    ensures RecipientFor(c, now).template == OVERDUE_TEMPLATE
  {
  }

  lemma PastDueIsOverdueTemplate(c: Client, now: Now)
    requires !Before(now.date, c.date)
    ensures RecipientFor(c, now).template == OVERDUE_TEMPLATE
  {
    OrdinalOrder(c.date, now.date);
  }

  /** A client due more than sixteen days ahead gets the default template. */
  lemma DueLaterIsDefaultTemplate(c: Client, now: Now)
    requires Ordinal(c.date) - Ordinal(now.date) > 16
    ensures RecipientFor(c, now).template == DEFAULT_TEMPLATE
  {
  }

  /** The loop appending one recipient per client. */
  method Recipients(clients: seq<Client>, now: Now) returns (recipients: seq<Recipient>)
    ensures |recipients| == |clients|
    ensures forall i :: 0 <= i < |clients| ==> recipients[i] == RecipientFor(clients[i], now)
  {
    recipients := [];
    for i := 0 to |clients|
      invariant |recipients| == i
      invariant forall j :: 0 <= j < i ==> recipients[j] == RecipientFor(clients[j], now)
    {
      var days := DaysUntil(clients[i].date, now);
      var template := PickTemplate(days);
      recipients := recipients + [Recipient(clients[i].to, clients[i].name, clients[i].amount, Iso(clients[i].date), template)];
    }
  }

  datatype TodayResponse = TodayResponse(phoneNumber: string, language: string, recipients: seq<Recipient>)

  /** `os.getenv(name, default)`. */
  function Getenv(value: Option<string>, default: string): string
  {
    if value.Some? then value.value else default
  }

  /** Both `/notions/today` endpoints: the allowed days are parsed and then
      not used, so whatever `includeAll` and `specialDays` say, every client
      gets exactly one recipient, in the list's order. */
  method NotionsToday(includeAll: bool, specialDays: string, phoneEnv: Option<string>, langEnv: Option<string>, now: Now)
    returns (response: TodayResponse)
    ensures response.phoneNumber == Getenv(phoneEnv, "default")
    ensures response.language == Getenv(langEnv, "Spanish (MEX)")
    ensures |response.recipients| == |CLIENTS|
    ensures forall i :: 0 <= i < |CLIENTS| ==> response.recipients[i] == RecipientFor(CLIENTS[i], now)
  {
    var allowedDays := AllowedDays(specialDays);
    var recipients := Recipients(CLIENTS, now);
    response := TodayResponse(Getenv(phoneEnv, "default"), Getenv(langEnv, "Spanish (MEX)"), recipients);
  }
}
