/** The payments service: choosing the credit to pay, shaping it into the
    gateway's payload, deciding from the gateway's reply whether the payment
    went through, and then settling the credit's open installments. */
module Payments {
  import opened Wrappers
  import opened Text
  import opened Dates

  // ---------------------------------------------------------------- decimal amounts

  /** A `Numeric` column value as Python's `Decimal` holds it: the integer
      `units` scaled by ten to the minus `scale`. */
  datatype Dec = Dec(units: int, scale: nat)

  function DecValue(d: Dec): real
  {
    (d.units as real) / (Pow10(d.scale) as real)
  }

  function Abs(n: int): nat { if n < 0 then -n else n }

  /** `int(value)`: the value truncated toward zero. */
  function TruncDec(d: Dec): int
  {
    var q := Abs(d.units) / Pow10(d.scale);
    if d.units < 0 then -q else q
  }

  /** Truncation keeps the sign and drops less than one. */
  lemma TruncDecBounds(d: Dec)
    ensures d.units >= 0 ==> 0 <= TruncDec(d) && TruncDec(d) as real <= DecValue(d) < TruncDec(d) as real + 1.0
    ensures d.units < 0 ==> TruncDec(d) <= 0 && TruncDec(d) as real - 1.0 < DecValue(d) <= TruncDec(d) as real
  {
    var p := Pow10(d.scale);
    TruncBounds(Abs(d.units), p);
    if d.units < 0 {
      NegDiv(Abs(d.units) as real, p as real);
      assert d.units as real == -(Abs(d.units) as real);
    }
  }

  /** Dividing by `p` splits into the quotient and the remainder's fraction. */
  lemma DivModReal(a: nat, p: nat)
    requires p >= 1
    ensures (a as real) / (p as real) == ((a / p) as real) + ((a % p) as real) / (p as real)
    ensures 0.0 <= ((a % p) as real) / (p as real) < 1.0
  {
    var q, r := a / p, a % p;
    assert a == q * p + r;
    assert (a as real) == (q as real) * (p as real) + (r as real);
  }

  lemma TruncBounds(a: nat, p: nat)
    requires p >= 1
    ensures (a / p) as real <= (a as real) / (p as real) < (a / p) as real + 1.0
  {
    DivModReal(a, p);
  }

  /** The digits of a non-negative decimal: the integer part, then a point
      and exactly `scale` fraction digits when the scale is positive. */
  function DecDigits(n: nat, scale: nat): string
  {
    var p := Pow10(scale);
    if scale == 0 then NatText(n) else QuotientIsNat(n, p); NatText(n / p) + "." + Pad(n % p, scale)
  }

  lemma QuotientIsNat(n: nat, p: nat)
    requires p >= 1
    ensures n / p >= 0
  {
  }

  /** `str(value)` in plain notation: a minus sign for negative values and the
      scale's number of fraction digits, trailing zeros kept. */
  function DecText(d: Dec): string
  {
    (if d.units < 0 then "-" else "") + DecDigits(Abs(d.units), d.scale)
  }

  predicate AllDigits(s: string)
  {
    forall i :: 0 <= i < |s| ==> IsDigit(s[i])
  }

  /** The value of a run of fraction digits. */
  function FracValue(s: string): real
    requires AllDigits(s)
  {
    (DigitsValue(s) as real) / (Pow10(|s|) as real)
  }

  /** The number an unsigned plain decimal text denotes: digits, optionally
      followed by a point and more digits; `None` when it is not one. */
  function ParseUnsigned(body: string): (r: Option<real>)
  {
    var parts := Split(body, '.');
    if |parts[0]| == 0 || !AllDigits(parts[0]) then None
    else if |parts| == 1 then Some(DigitsValue(parts[0]) as real)
    else if |parts| == 2 && AllDigits(parts[1]) then Some(DigitsValue(parts[0]) as real + FracValue(parts[1]))
    else None
  }

  /** The number a plain decimal text denotes, or `None` when it is not one. */
  function ParseDecText(t: string): (r: Option<real>)
  {
    if |t| > 0 && t[0] == '-' then
      match ParseUnsigned(t[1..]) case None => None case Some(v) => Some(-v)
    else ParseUnsigned(t)
  }

  lemma {:induction false} DigitsValueOfPad(n: nat, w: nat)
    requires n < Pow10(w)
    ensures DigitsValue(Pad(n, w)) == n
  {
    if w > 0 {
      var s := Pad(n, w);
      assert s[..|s| - 1] == Pad(n / 10, w - 1);
      assert n / 10 < Pow10(w - 1);
      DigitsValueOfPad(n / 10, w - 1);
    }
  }

  lemma WholeReadsBack(q: nat)
    ensures ParseUnsigned(NatText(q)) == Some(q as real)
  {
    var whole := NatText(q);
    DigitsValueOfNatText(q);
    assert '.' !in whole by { assert forall i :: 0 <= i < |whole| ==> IsDigit(whole[i]); }
    SplitNoSeparator(whole, '.');
  }

  /** A digit run, a point and a digit run read as the whole part plus the
      fraction. */
  lemma TwoFieldsReadBack(whole: string, frac: string)
    requires |whole| > 0 && AllDigits(whole) && AllDigits(frac)
    ensures ParseUnsigned(whole + "." + frac) == Some(DigitsValue(whole) as real + FracValue(frac))
  {
    SplitAtPoint(whole, frac);
    ParseTwoFields(whole + "." + frac, whole, frac);
  }

  lemma SplitAtPoint(whole: string, frac: string)
    requires AllDigits(whole) && AllDigits(frac)
    ensures Split(whole + "." + frac, '.') == [whole, frac]
  {
    assert '.' !in whole by { assert forall i :: 0 <= i < |whole| ==> IsDigit(whole[i]); }
    assert '.' !in frac by { assert forall i :: 0 <= i < |frac| ==> IsDigit(frac[i]); }
    assert whole + "." + frac == whole + ['.'] + frac;
    SplitFirstField(whole, '.', frac);
    SplitNoSeparator(frac, '.');
  }

  lemma ParseTwoFields(text: string, whole: string, frac: string)
    requires |whole| > 0 && AllDigits(whole) && AllDigits(frac)
    requires Split(text, '.') == [whole, frac]
    ensures ParseUnsigned(text) == Some(DigitsValue(whole) as real + FracValue(frac))
  {
    var parts := Split(text, '.');
    var a, b := parts[0], parts[1];
    assert a == whole && b == frac;
    assert |a| > 0 && AllDigits(a);
    assert |parts| == 2 && AllDigits(b);
  }

  lemma FractionReadsBack(q: nat, r: nat, scale: nat)
    requires r < Pow10(scale)
    ensures ParseUnsigned(NatText(q) + "." + Pad(r, scale)) == Some(q as real + (r as real) / (Pow10(scale) as real))
  {
    var whole, frac := NatText(q), Pad(r, scale);
    DigitsValueOfNatText(q);
    DigitsValueOfPad(r, scale);
    TwoFieldsReadBack(whole, frac);
    assert FracValue(frac) == (r as real) / (Pow10(scale) as real);
  }

  lemma DecDigitsReadBack(n: nat, scale: nat)
    ensures ParseUnsigned(DecDigits(n, scale)) == Some((n as real) / (Pow10(scale) as real))
    ensures |DecDigits(n, scale)| > 0 && DecDigits(n, scale)[0] != '-'
  {
    if scale == 0 {
      IntegerDigitsReadBack(n);
    } else {
      FractionDigitsReadBack(n, scale);
    }
  }

  lemma IntegerDigitsReadBack(n: nat)
    ensures ParseUnsigned(DecDigits(n, 0)) == Some((n as real) / (Pow10(0) as real))
    ensures |DecDigits(n, 0)| > 0 && DecDigits(n, 0)[0] != '-'
  {
    WholeReadsBack(n);
    assert DecDigits(n, 0) == NatText(n);
    assert (n as real) / (Pow10(0) as real) == n as real;
    assert IsDigit(NatText(n)[0]);
  }

  lemma FractionDigitsReadBack(n: nat, scale: nat)
    requires scale > 0
    ensures ParseUnsigned(DecDigits(n, scale)) == Some((n as real) / (Pow10(scale) as real))
    ensures |DecDigits(n, scale)| > 0 && DecDigits(n, scale)[0] != '-'
  {
    var q, r := FractionParts(n, scale);
    FractionReadsBack(q, r, scale);
    assert IsDigit(NatText(q)[0]);
  }

  /** The integer part and the fraction digits of `n` scaled by `scale`. */
  lemma FractionParts(n: nat, scale: nat) returns (q: nat, r: nat)
    requires scale > 0
    ensures DecDigits(n, scale) == NatText(q) + "." + Pad(r, scale)
    ensures r < Pow10(scale)
    ensures q as real + (r as real) / (Pow10(scale) as real) == (n as real) / (Pow10(scale) as real)
  {
    var p := Pow10(scale);
    QuotientIsNat(n, p);
    q, r := n / p, n % p;
    FractionText(n, scale, q, r);
    SplitQuotient(n, p, q, r);
  }

  lemma FractionText(n: nat, scale: nat, q: nat, r: nat)
    requires scale > 0 && q == n / Pow10(scale) && r == n % Pow10(scale)
    ensures DecDigits(n, scale) == NatText(q) + "." + Pad(r, scale)
  {
  }

  lemma SplitQuotient(n: nat, p: nat, q: nat, r: nat)
    requires p >= 1 && q == n / p && r == n % p
    ensures q as real + (r as real) / (p as real) == (n as real) / (p as real)
  {
    DivModReal(n, p);
  }

  lemma NegDiv(x: real, y: real)
    requires y > 0.0
    ensures (-x) / y == -(x / y)
  {
  }

  /** The text sent for an amount reads back as the amount. */
  lemma DecTextReadsBack(d: Dec)
    ensures ParseDecText(DecText(d)) == Some(DecValue(d))
  {
    var a := Abs(d.units);
    var body := DecDigits(a, d.scale);
    DecDigitsReadBack(a, d.scale);
    if d.units < 0 {
      assert DecText(d)[1..] == body;
      NegDiv(a as real, Pow10(d.scale) as real);
      assert d.units as real == -(a as real);
    } else {
      assert DecText(d) == body;
    }
  }

  // ---------------------------------------------------------------- rows

  datatype InstallmentRow = InstallmentRow(
    id: int, creditId: int, number: int, value: Dec, dueDate: CalDate,
    state: string, paymentDate: Option<CalDate>)

  datatype CreditRow = CreditRow(id: int, state: string)

  datatype Reconciliation = Reconciliation(
    channel: string, reference: string, amount: int, transactionDate: CalDate, observation: string)

  const AUTO_CHANNEL := "Payment Gateway (Auto)"

  /** The state of the database the settlement reads and writes. */
  datatype LedgerState = LedgerState(
    installments: seq<InstallmentRow>, credits: seq<CreditRow>, reconciliations: seq<Reconciliation>)

  /** An installment of the credit still to be paid ("Pendiente" or "Vencida"). */
  predicate IsPending(r: InstallmentRow, creditId: int)
  {
    r.creditId == creditId && (r.state == "Pendiente" || r.state == "Vencida")
  }

  predicate HasPending(rows: seq<InstallmentRow>, creditId: int)
  {
    exists k :: 0 <= k < |rows| && IsPending(rows[k], creditId)
  }

  /** The positions of the credit's open installments, in row order: the
      first query of the settlement. */
  function PendingPositions(rows: seq<InstallmentRow>, creditId: int): (ps: seq<nat>)
    ensures forall i :: 0 <= i < |ps| ==> ps[i] < |rows| && IsPending(rows[ps[i]], creditId)
    ensures forall i, j :: 0 <= i < j < |ps| ==> ps[i] < ps[j]
    ensures forall k :: 0 <= k < |rows| && IsPending(rows[k], creditId) ==> k in ps
    ensures |ps| == 0 <==> !HasPending(rows, creditId)
  {
    if |rows| == 0 then []
    else
      var n := |rows| - 1;
      var init := PendingPositions(rows[..n], creditId);
      var ps := if IsPending(rows[n], creditId) then init + [n] else init;
      PendingExtendSound(rows, creditId, init, ps);
      PendingExtendComplete(rows, creditId, init, ps);
      ps
  }

  /** Extending the positions of all rows but the last by the last one keeps
      them open and increasing. */
  lemma PendingExtendSound(rows: seq<InstallmentRow>, creditId: int, init: seq<nat>, ps: seq<nat>)
    requires |rows| > 0
    requires forall i :: 0 <= i < |init| ==> init[i] < |rows| - 1 && IsPending(rows[..|rows| - 1][init[i]], creditId)
    requires forall i, j :: 0 <= i < j < |init| ==> init[i] < init[j]
    requires ps == if IsPending(rows[|rows| - 1], creditId) then init + [|rows| - 1] else init
    ensures forall i :: 0 <= i < |ps| ==> ps[i] < |rows| && IsPending(rows[ps[i]], creditId)
    ensures forall i, j :: 0 <= i < j < |ps| ==> ps[i] < ps[j]
    ensures |ps| > 0 ==> HasPending(rows, creditId)
  {
    var n := |rows| - 1;
    forall i | 0 <= i < |ps| ensures ps[i] < |rows| && IsPending(rows[ps[i]], creditId) {
      if i < |init| {
        assert rows[..n][init[i]] == rows[init[i]];
      }
    }
    if |ps| > 0 {
      assert IsPending(rows[ps[0]], creditId);
    }
  }

  /** ... and misses none of them. */
  lemma PendingExtendComplete(rows: seq<InstallmentRow>, creditId: int, init: seq<nat>, ps: seq<nat>)
    requires |rows| > 0
    requires forall k :: 0 <= k < |rows| - 1 && IsPending(rows[..|rows| - 1][k], creditId) ==> k in init
    requires ps == if IsPending(rows[|rows| - 1], creditId) then init + [|rows| - 1] else init
    ensures forall k :: 0 <= k < |rows| && IsPending(rows[k], creditId) ==> k in ps
    ensures HasPending(rows, creditId) ==> |ps| > 0
  {
    var n := |rows| - 1;
    forall k | 0 <= k < |rows| && IsPending(rows[k], creditId) ensures k in ps {
      if k < n {
        assert rows[..n][k] == rows[k];
      }
    }
    if HasPending(rows, creditId) {
      var k :| 0 <= k < |rows| && IsPending(rows[k], creditId);
      assert k in ps;
    }
  }

  function Paid(r: InstallmentRow, today: CalDate): InstallmentRow
  {
    r.(state := "Pagada", paymentDate := Some(today))
  }

  /** Every open installment of the credit paid today; every other row as it was. */
  function SettleAll(rows: seq<InstallmentRow>, creditId: int, today: CalDate): (r: seq<InstallmentRow>)
  {
    seq(|rows|, k requires 0 <= k < |rows| => if IsPending(rows[k], creditId) then Paid(rows[k], today) else rows[k])
  }

  function Observation(number: int): string
  {
    "Auto payment - Installment " + IntText(number) + " marked as paid via payment gateway"
  }

  function Receipt(r: InstallmentRow, reference: string, today: CalDate): Reconciliation
  {
    Reconciliation(AUTO_CHANNEL, reference, TruncDec(r.value), today, Observation(r.number))
  }

  /** One reconciliation per open installment, in row order. */
  function Receipts(rows: seq<InstallmentRow>, creditId: int, reference: string, today: CalDate): (recs: seq<Reconciliation>)
  {
    ReceiptsAt(rows, PendingPositions(rows, creditId), reference, today)
  }

  function ReceiptsAt(rows: seq<InstallmentRow>, ps: seq<nat>, reference: string, today: CalDate): (recs: seq<Reconciliation>)
    requires forall i :: 0 <= i < |ps| ==> ps[i] < |rows|
  {
    seq(|ps|, i requires 0 <= i < |ps| => Receipt(rows[ps[i]], reference, today))
  }

  /** Receipts for a longer prefix of positions extend those for the shorter one. */
  lemma ReceiptsAtSnoc(rows: seq<InstallmentRow>, ps: seq<nat>, j: nat, reference: string, today: CalDate)
    requires j < |ps| && forall i :: 0 <= i < |ps| ==> ps[i] < |rows|
    ensures ReceiptsAt(rows, ps[..j + 1], reference, today)
            == ReceiptsAt(rows, ps[..j], reference, today) + [Receipt(rows[ps[j]], reference, today)]
  {
    assert ps[..j + 1] == ps[..j] + [ps[j]];
  }

  predicate AllPaid(rows: seq<InstallmentRow>, creditId: int)
  {
    forall k :: 0 <= k < |rows| && rows[k].creditId == creditId ==> rows[k].state == "Pagada"
  }

  /** The credit lookup by id: the first credit row with that id. */
  function FindCredit(credits: seq<CreditRow>, creditId: int): (r: Option<nat>)
    ensures r.Some? ==> r.value < |credits| && credits[r.value].id == creditId
    ensures r.Some? ==> forall j :: 0 <= j < r.value ==> credits[j].id != creditId
    ensures r.None? ==> forall j :: 0 <= j < |credits| ==> credits[j].id != creditId
  {
    if |credits| == 0 then None
    else if credits[0].id == creditId then Some(0)
    else
      var r := FindCredit(credits[1..], creditId);
      if r.Some? then Some(r.value + 1) else None
  }

  /** The credit's state once all its installments are known to be paid or not. */
  function CloseCredit(credits: seq<CreditRow>, creditId: int, allPaid: bool): seq<CreditRow>
  {
    var ci := FindCredit(credits, creditId);
    if allPaid && ci.Some? && credits[ci.value].state != "Pagado" then
      credits[ci.value := credits[ci.value].(state := "Pagado")]
    else credits
  }

  /** The database after `_auto_process_pending_installments`. */
  function AutoProcessed(s: LedgerState, creditId: int, reference: string, today: CalDate): LedgerState
  {
    if !HasPending(s.installments, creditId) then s
    else
      var rows := SettleAll(s.installments, creditId, today);
      LedgerState(rows, CloseCredit(s.credits, creditId, AllPaid(rows, creditId)),
                  s.reconciliations + Receipts(s.installments, creditId, reference, today))
  }

  /** What the settlement does: with no open installment nothing at all (even
      when every installment is already paid); otherwise every open
      installment of the credit is paid today and every other row is kept,
      one reconciliation is added per open installment, and the credit's
      state becomes "Pagado" exactly when it was or when all its installments
      are now paid; no other credit changes. */
  lemma SettlementFacts(s: LedgerState, creditId: int, reference: string, today: CalDate)
    ensures var r := AutoProcessed(s, creditId, reference, today);
      && (!HasPending(s.installments, creditId) ==> r == s)
      && |r.installments| == |s.installments| && |r.credits| == |s.credits|
      && (forall k :: 0 <= k < |s.installments| && !IsPending(s.installments[k], creditId) ==>
            r.installments[k] == s.installments[k])
      && (forall k :: 0 <= k < |s.installments| && IsPending(s.installments[k], creditId) ==>
            r.installments[k] == s.installments[k].(state := "Pagada", paymentDate := Some(today)))
      && (HasPending(s.installments, creditId) ==>
            r.reconciliations == s.reconciliations + Receipts(s.installments, creditId, reference, today))
      && (forall k :: 0 <= k < |s.credits| ==> r.credits[k].id == s.credits[k].id)
      && (forall k :: 0 <= k < |s.credits| ==>
            (r.credits[k].state == "Pagado" <==>
               s.credits[k].state == "Pagado"
               || (HasPending(s.installments, creditId) && FindCredit(s.credits, creditId) == Some(k)
                   && AllPaid(r.installments, creditId))))
      && (forall k :: 0 <= k < |s.credits| && r.credits[k].state != s.credits[k].state ==>
            FindCredit(s.credits, creditId) == Some(k))
  {
  }

  /** Each new reconciliation pays one open installment: amount the
      installment's truncated value, the credit's reference, the automatic
      channel and today's date. */
  lemma ReceiptsPayPending(rows: seq<InstallmentRow>, creditId: int, reference: string, today: CalDate)
    ensures |Receipts(rows, creditId, reference, today)| == |PendingPositions(rows, creditId)|
    ensures forall i :: 0 <= i < |Receipts(rows, creditId, reference, today)| ==>
              var rec, row := Receipts(rows, creditId, reference, today)[i], rows[PendingPositions(rows, creditId)[i]];
              && IsPending(row, creditId)
              && rec.channel == AUTO_CHANNEL && rec.reference == reference && rec.transactionDate == today
              && rec.amount == TruncDec(row.value)
  {
  }

  /** An installment left under a payment promise keeps the credit open. */
  lemma {:induction false} PromiseKeepsCreditOpen(s: LedgerState, creditId: int, reference: string, today: CalDate, k: nat)
    requires k < |s.installments| && s.installments[k].creditId == creditId
    requires s.installments[k].state == "Promesa de pago"
    ensures forall j :: 0 <= j < |s.credits| ==>
              (AutoProcessed(s, creditId, reference, today).credits[j].state == "Pagado" <==> s.credits[j].state == "Pagado")
  {
    var r := AutoProcessed(s, creditId, reference, today);
    SettlementFacts(s, creditId, reference, today);
    assert !IsPending(s.installments[k], creditId);
    assert r.installments[k].state == "Promesa de pago";
    assert !AllPaid(r.installments, creditId);
  }

  /** A second settlement finds nothing open and changes nothing. */
  lemma {:induction false} AutoProcessIdempotent(s: LedgerState, creditId: int, reference: string, today: CalDate)
    ensures var r := AutoProcessed(s, creditId, reference, today);
            AutoProcessed(r, creditId, reference, today) == r
  {
    var r := AutoProcessed(s, creditId, reference, today);
    SettlementFacts(s, creditId, reference, today);
    forall k | 0 <= k < |r.installments|
      ensures !IsPending(r.installments[k], creditId)
    {
      if IsPending(s.installments[k], creditId) {
        assert r.installments[k].state == "Pagada";
      } else {
        assert r.installments[k] == s.installments[k];
      }
    }
  }

  // ---------------------------------------------------------------- the gateway

  /** The credit with its installments as the client service details it. */
  datatype CreditDetail = CreditDetail(
    id: int, clientId: int, disbursementAmount: int, paymentReference: string,
    interestRate: real, totalQuotas: int, disbursementDate: CalDate, creditState: string,
    installments: seq<InstallmentRow>, totalPaid: Option<real>, totalPending: Option<real>)

  datatype GatewayInstallment = GatewayInstallment(
    id: int, creditId: int, state: string, number: int, value: string,
    dueDate: string, paymentDate: Option<string>)

  datatype Payload = Payload(
    id: int, clientId: int, disbursementAmount: int, paymentReference: string,
    interestRate: real, totalQuotas: int, disbursementDate: string, creditState: string,
    installments: seq<GatewayInstallment>, totalPaid: real, totalPending: real)

  function ToGatewayInstallment(r: InstallmentRow): GatewayInstallment
  {
    GatewayInstallment(r.id, r.creditId, r.state, r.number, DecText(r.value), Iso(r.dueDate),
                       match r.paymentDate case None => None case Some(p) => Some(Iso(p)))
  }

  function OrZero(x: Option<real>): real
  {
    match x case None => 0.0 case Some(v) => v
  }

  /** The payload the gateway expects for a credit. */
  function GatewayPayload(c: CreditDetail): (p: Payload)
    ensures |p.installments| == |c.installments|
    ensures forall k :: 0 <= k < |c.installments| ==>
              var g, r := p.installments[k], c.installments[k];
              && g.id == r.id && g.creditId == r.creditId && g.state == r.state && g.number == r.number
              && ParseDecText(g.value) == Some(DecValue(r.value))
              && g.dueDate == Iso(r.dueDate)
              && (g.paymentDate.Some? <==> r.paymentDate.Some?)
              && (r.paymentDate.Some? ==> g.paymentDate.value == Iso(r.paymentDate.value))
    ensures c.totalPaid.None? ==> p.totalPaid == 0.0
    ensures c.totalPaid.Some? ==> p.totalPaid == c.totalPaid.value
    ensures c.totalPending.None? ==> p.totalPending == 0.0
    ensures c.totalPending.Some? ==> p.totalPending == c.totalPending.value
    ensures p.disbursementDate == Iso(c.disbursementDate) && p.paymentReference == c.paymentReference
  {
    forall k | 0 <= k < |c.installments| { DecTextReadsBack(c.installments[k].value); }
    Payload(c.id, c.clientId, c.disbursementAmount, c.paymentReference, c.interestRate, c.totalQuotas,
            Iso(c.disbursementDate), c.creditState,
            seq(|c.installments|, k requires 0 <= k < |c.installments| => ToGatewayInstallment(c.installments[k])),
            OrZero(c.totalPaid), OrZero(c.totalPending))
  }

  /** `_convert_to_payment_gateway_format`: the installments appended one by
      one, then the payload around them. */
  method ConvertToGatewayFormat(c: CreditDetail) returns (p: Payload)
    ensures p == GatewayPayload(c)
  {
    var installments: seq<GatewayInstallment> := [];
    for k := 0 to |c.installments|
      invariant |installments| == k
      invariant forall j :: 0 <= j < k ==> installments[j] == ToGatewayInstallment(c.installments[j])
    {
      installments := installments + [ToGatewayInstallment(c.installments[k])];
    }
    var totalPaid := if c.totalPaid.Some? then c.totalPaid.value else 0.0;
    var totalPending := if c.totalPending.Some? then c.totalPending.value else 0.0;
    p := Payload(c.id, c.clientId, c.disbursementAmount, c.paymentReference, c.interestRate, c.totalQuotas,
                 Iso(c.disbursementDate), c.creditState, installments, totalPaid, totalPending);
  }

  datatype HttpError = HttpError(status: int, detail: string)

  datatype PaymentResponse = PaymentResponse(
    success: bool, sessionId: string, paymentUrl: string, expiresIn: int, message: string)

  /** What the gateway call gives back: a connection failure, or a reply with
      its status, its body rendered as text, the truthiness of its `success`
      field, its `error` field, and the body read as the response schema
      (an error text when it does not fit). */
  datatype GatewayReply =
    | Unreachable(reason: string)
    | Replied(status: int, body: string, success: bool, error: Option<string>,
              data: Result<PaymentResponse, string>)

  /** `str()` of an `HTTPException`: its status, a colon and its detail. */
  function ExceptionText(e: HttpError): string
  {
    IntText(e.status) + ": " + e.detail
  }

  /** The exception the checks on the reply raise inside the `try` block,
      before the settlement; `None` when the payment went through. */
  function RaisedByReply(reply: GatewayReply): (e: Option<HttpError>)
    requires reply.Replied?
    ensures e.None? <==> reply.status == 200 && reply.success
    ensures reply.status != 200 ==> e == Some(HttpError(reply.status, "Payment gateway error: " + reply.body))
  {
    match reply
    case Replied(status, body, success, error, _) =>
      if status != 200 then Some(HttpError(status, "Payment gateway error: " + body))
      else if !success then
        Some(HttpError(400, "Payment gateway returned error: " + (match error case None => "Unknown error" case Some(m) => m)))
      else None
  }

  function Unexpected(text: string): HttpError
  {
    HttpError(500, "Unexpected error initializing payment: " + text)
  }

  /** Which error leaves the `try` block as written: a connection failure
      becomes 503, and the exceptions raised inside the block are caught again
      by the catch-all handler and all become 500. */
  function CaughtAsWritten(reply: GatewayReply): (e: Option<HttpError>)
    ensures reply.Unreachable? ==> e == Some(HttpError(503, "Failed to connect to payment gateway: " + reply.reason))
    ensures reply.Replied? ==> (e.Some? <==> RaisedByReply(reply).Some?)
    ensures reply.Replied? && e.Some? ==> e.value.status == 500
  {
    match reply
    case Unreachable(reason) => Some(HttpError(503, "Failed to connect to payment gateway: " + reason))
    case Replied(_, _, _, _, _) =>
      var raised := RaisedByReply(reply);
      if raised.Some? then Some(Unexpected(ExceptionText(raised.value))) else None
  }

  /** The gateway's own failure status is lost: a 402 reply ends as a 500,
      where the raised exception carries the 402. */
  lemma GatewayStatusLost()
    ensures var reply := Replied(402, "{}", true, None, Err(""));
            && CaughtAsWritten(reply).Some? && CaughtAsWritten(reply).value.status == 500
            && Caught(reply).Some? && Caught(reply).value.status == 402
  {
  }

  /** Which error leaves the `try` block as evidently intended: the
      exceptions raised on purpose keep their status and detail. */
  function Caught(reply: GatewayReply): (e: Option<HttpError>)
    ensures reply.Unreachable? ==> e == Some(HttpError(503, "Failed to connect to payment gateway: " + reply.reason))
    ensures reply.Replied? && reply.status != 200 ==> e == Some(HttpError(reply.status, "Payment gateway error: " + reply.body))
    ensures reply.Replied? && reply.status == 200 && !reply.success ==> e.Some? && e.value.status == 400
    ensures e.None? <==> reply.Replied? && reply.status == 200 && reply.success
  {
    match reply
    case Unreachable(reason) => Some(HttpError(503, "Failed to connect to payment gateway: " + reason))
    case Replied(_, _, _, _, _) => RaisedByReply(reply)
  }

  // ---------------------------------------------------------------- choosing the credit

  /** A non-zero `credit_id` restricts the choice to that credit. */
  predicate Filters(creditId: Option<int>)
  {
    creditId.Some? && creditId.value != 0
  }

  predicate Kept(creditId: Option<int>, c: CreditDetail)
  {
    !Filters(creditId) || c.id == creditId.value
  }

  /** The position of the first credit kept by the filter, `|credits|` if none. */
  function FirstKept(credits: seq<CreditDetail>, creditId: Option<int>): (k: nat)
    ensures k <= |credits|
    ensures k < |credits| ==> Kept(creditId, credits[k])
    ensures forall j :: 0 <= j < k ==> !Kept(creditId, credits[j])
  {
    if |credits| == 0 then 0
    else if Kept(creditId, credits[0]) then 0
    else 1 + FirstKept(credits[1..], creditId)
  }

  /** The list comprehension keeping the requested credit. */
  function KeepCredits(credits: seq<CreditDetail>, creditId: Option<int>): (r: seq<CreditDetail>)
    ensures |r| == 0 <==> FirstKept(credits, creditId) == |credits|
    ensures |r| > 0 ==> r[0] == credits[FirstKept(credits, creditId)]
  {
    if |credits| == 0 then []
    else if Kept(creditId, credits[0]) then [credits[0]] + KeepCredits(credits[1..], creditId)
    else KeepCredits(credits[1..], creditId)
  }

  /** The credit the payment is for: the first of the kept credits, or a 404. */
  function SelectCredit(credits: seq<CreditDetail>, creditId: Option<int>): (r: Result<CreditDetail, HttpError>)
    ensures r.Ok? <==> exists k :: 0 <= k < |credits| && Kept(creditId, credits[k])
    ensures r.Ok? ==> exists k :: 0 <= k < |credits| && credits[k] == r.value && Kept(creditId, credits[k])
                        && forall j :: 0 <= j < k ==> !Kept(creditId, credits[j])
    ensures r.Ok? && Filters(creditId) ==> r.value.id == creditId.value
    ensures r.Err? && Filters(creditId) ==>
              r.error == HttpError(404, "Credit with ID " + IntText(creditId.value) + " not found for this client")
    ensures r.Err? && !Filters(creditId) ==> r.error == HttpError(404, "No credits found for this client") && |credits| == 0
  {
    var kept := if Filters(creditId) then KeepCredits(credits, creditId) else credits;
    assert !Filters(creditId) ==> FirstKept(credits, creditId) == 0;
    if Filters(creditId) && |kept| == 0 then
      Err(HttpError(404, "Credit with ID " + IntText(creditId.value) + " not found for this client"))
    else if |kept| == 0 then Err(HttpError(404, "No credits found for this client"))
    else Ok(kept[0])
  }

  /** What the request leads to: refused with an error and nothing written, or
      the installments settled for the chosen credit and then the reply
      returned (or a 500 when the reply's body does not fit the response
      schema, which happens after the settlement). */
  datatype Decision =
    | Refused(error: HttpError)
    | Settled(credit: CreditDetail, response: Result<PaymentResponse, HttpError>)

  /** What `initialize_payment` decides, corrected: a gateway error keeps
      the status `Caught` gives it, where as written `CaughtAsWritten` turns
      it into a 500. */
  function Decide(details: Result<seq<CreditDetail>, string>, creditId: Option<int>,
                  gateway: Payload -> GatewayReply): (d: Decision)
    ensures details.Err? ==> d == Refused(HttpError(404, "Failed to get credit details: " + details.error))
    ensures d.Settled? <==>
              && details.Ok? && SelectCredit(details.value, creditId).Ok?
              && var reply := gateway(GatewayPayload(SelectCredit(details.value, creditId).value));
                 reply.Replied? && reply.status == 200 && reply.success
    ensures d.Settled? ==> d.credit == SelectCredit(details.value, creditId).value
    ensures details.Ok? && SelectCredit(details.value, creditId).Err? ==>
              d == Refused(SelectCredit(details.value, creditId).error)
    ensures details.Ok? && SelectCredit(details.value, creditId).Ok? ==>
              var reply := gateway(GatewayPayload(SelectCredit(details.value, creditId).value));
              Caught(reply).Some? ==> d == Refused(Caught(reply).value)
    ensures d.Settled? ==>
              var reply := gateway(GatewayPayload(d.credit));
              d.response == match reply.data case Ok(resp) => Ok(resp) case Err(m) => Err(Unexpected(m))
  {
    match details
    case Err(e) => Refused(HttpError(404, "Failed to get credit details: " + e))
    case Ok(credits) =>
      match SelectCredit(credits, creditId)
      case Err(e) => Refused(e)
      case Ok(c) =>
        var reply := gateway(GatewayPayload(c));
        match Caught(reply)
        case Some(e) => Refused(e)
        case None =>
          Settled(c, match reply.data case Ok(resp) => Ok(resp) case Err(m) => Err(Unexpected(m)))
  }

  // ---------------------------------------------------------------- the controller

  /** The loop's position in the open installments: the next one to pay, or
      the end of the rows once all are paid. */
  function Bound(ps: seq<nat>, j: nat, n: nat): nat
  {
    if j < |ps| then ps[j] else n
  }

  /** `rows` is `rows0` with the open installments before position `bound` paid. */
  predicate PaidUpTo(rows: seq<InstallmentRow>, rows0: seq<InstallmentRow>, creditId: int, today: CalDate, bound: nat)
  {
    && |rows| == |rows0|
    && forall k :: 0 <= k < |rows0| ==>
         rows[k] == if IsPending(rows0[k], creditId) && k < bound then Paid(rows0[k], today) else rows0[k]
  }

  /** Paying the next open installment moves the loop's bound on to the one after. */
  lemma SettleStep(rows: seq<InstallmentRow>, rows0: seq<InstallmentRow>, creditId: int, today: CalDate, ps: seq<nat>, j: nat)
    requires ps == PendingPositions(rows0, creditId) && j < |ps|
    requires PaidUpTo(rows, rows0, creditId, today, Bound(ps, j, |rows0|))
    ensures ps[j] < |rows|
    ensures PaidUpTo(rows[ps[j] := Paid(rows[ps[j]], today)], rows0, creditId, today, Bound(ps, j + 1, |rows0|))
  {
    NextOpen(rows0, creditId, ps, j);
  }

  /** No open installment lies between the one paid now and the next one. */
  lemma NextOpen(rows: seq<InstallmentRow>, creditId: int, ps: seq<nat>, j: nat)
    requires j < |ps|
    requires forall i :: 0 <= i < |ps| ==> ps[i] < |rows| && IsPending(rows[ps[i]], creditId)
    requires forall i, i' :: 0 <= i < i' < |ps| ==> ps[i] < ps[i']
    requires forall k :: 0 <= k < |rows| && IsPending(rows[k], creditId) ==> k in ps
    ensures forall k' :: 0 <= k' < |rows| && IsPending(rows[k'], creditId) && k' < Bound(ps, j + 1, |rows|) ==> k' <= ps[j]
    ensures j == 0 ==> forall k' :: 0 <= k' < |rows| && IsPending(rows[k'], creditId) ==> ps[0] <= k'
  {
    var k := ps[j];
    forall k' | 0 <= k' < |rows| && IsPending(rows[k'], creditId) && k' < Bound(ps, j + 1, |rows|)
      ensures k' <= k
    {
      var i :| 0 <= i < |ps| && ps[i] == k';
      if j + 1 < |ps| {
        assert forall i' :: j + 1 <= i' < |ps| ==> ps[j + 1] <= ps[i'];
      }
      assert i <= j;
    }
    forall k' | j == 0 && 0 <= k' < |rows| && IsPending(rows[k'], creditId)
      ensures ps[0] <= k'
    {
      var i :| 0 <= i < |ps| && ps[i] == k';
      assert i == 0 || ps[0] < ps[i];
    }
  }

  /** Before the loop nothing is paid; after it, every open installment is. */
  lemma PaidUpToEnds(rows0: seq<InstallmentRow>, creditId: int, today: CalDate, ps: seq<nat>)
    requires ps == PendingPositions(rows0, creditId)
    ensures PaidUpTo(rows0, rows0, creditId, today, Bound(ps, 0, |rows0|))
    ensures forall rows :: PaidUpTo(rows, rows0, creditId, today, Bound(ps, |ps|, |rows0|)) ==> rows == SettleAll(rows0, creditId, today)
  {
    if |ps| > 0 {
      NextOpen(rows0, creditId, ps, 0);
    }
  }

  /** After the loop, closing the credit completes the settlement. */
  lemma CloseStep(s: LedgerState, creditId: int, reference: string, today: CalDate, allPaid: bool)
    requires HasPending(s.installments, creditId)
    requires allPaid == AllPaid(SettleAll(s.installments, creditId, today), creditId)
    ensures AutoProcessed(s, creditId, reference, today)
            == LedgerState(SettleAll(s.installments, creditId, today), CloseCredit(s.credits, creditId, allPaid),
                           s.reconciliations + Receipts(s.installments, creditId, reference, today))
  {
  }

  /** The loop over the open installments: each is marked paid today and
      gets its reconciliation, in the order the positions list them. */
  method PayOpen(rows0: seq<InstallmentRow>, creditId: int, ps: seq<nat>, reference: string, today: CalDate)
    returns (rows: seq<InstallmentRow>, receipts: seq<Reconciliation>)
    requires ps == PendingPositions(rows0, creditId)
    ensures rows == SettleAll(rows0, creditId, today)
    ensures receipts == Receipts(rows0, creditId, reference, today)
  {
    rows := rows0;
    receipts := [];
    PaidUpToEnds(rows0, creditId, today, ps);
    for j := 0 to |ps|
      invariant PaidUpTo(rows, rows0, creditId, today, Bound(ps, j, |rows0|))
      invariant receipts == ReceiptsAt(rows0, ps[..j], reference, today)
    {
      var k := ps[j];
      SettleStep(rows, rows0, creditId, today, ps, j);
      ReceiptsAtSnoc(rows0, ps, j, reference, today);
      rows := rows[k := Paid(rows[k], today)];
      receipts := receipts + [Receipt(rows0[k], reference, today)];
    }
    assert ps[..|ps|] == ps;
  }

  /** The rows the controller reads and writes through its session. */
  class Ledger {
    var installments: seq<InstallmentRow>
    var credits: seq<CreditRow>
    var reconciliations: seq<Reconciliation>

    constructor (installments: seq<InstallmentRow>, credits: seq<CreditRow>)
      ensures State() == LedgerState(installments, credits, [])
    {
      this.installments := installments;
      this.credits := credits;
      this.reconciliations := [];
    }

    function State(): LedgerState
      reads this
    {
      LedgerState(installments, credits, reconciliations)
    }

    /** `_auto_process_pending_installments`: each open installment of the
        credit is paid today and gets its reconciliation; then the credit is
        closed when none of its installments is left unpaid. */
    method AutoProcessPendingInstallments(creditId: int, reference: string, today: CalDate)
      modifies this
      ensures State() == AutoProcessed(old(State()), creditId, reference, today)
    {
      var ps := PendingPositions(installments, creditId);
      if |ps| == 0 {
        return;
      }
      PayOpenInstallments(creditId, ps, reference, today);
      var allPaid := forall k :: 0 <= k < |installments| && installments[k].creditId == creditId ==> installments[k].state == "Pagada";
      CloseStep(old(State()), creditId, reference, today, allPaid);
      var ci := FindCredit(credits, creditId);
      if allPaid && ci.Some? && credits[ci.value].state != "Pagado" {
        credits := credits[ci.value := credits[ci.value].(state := "Pagado")];
      }
    }

    /** The loop over the open installments, applied to this ledger. */
    method PayOpenInstallments(creditId: int, ps: seq<nat>, reference: string, today: CalDate)
      requires ps == PendingPositions(installments, creditId)
      modifies this
      ensures installments == SettleAll(old(installments), creditId, today)
      ensures reconciliations == old(reconciliations) + Receipts(old(installments), creditId, reference, today)
      ensures credits == old(credits)
    {
      var rows, receipts := PayOpen(installments, creditId, ps, reference, today);
      installments := rows;
      reconciliations := reconciliations + receipts;
    }

    /** `initialize_payment`, corrected as `Decide` is: the credit is
        chosen, the gateway is called with its payload, and the
        installments are settled only once the gateway has accepted the
        payment; a refusal carries the corrected error. */
    method InitializePayment(details: Result<seq<CreditDetail>, string>, creditId: Option<int>,
                             gateway: Payload -> GatewayReply, today: CalDate)
      returns (r: Result<PaymentResponse, HttpError>)
      modifies this
      ensures Decide(details, creditId, gateway).Refused? ==>
                r == Err(Decide(details, creditId, gateway).error) && State() == old(State())
      ensures Decide(details, creditId, gateway).Settled? ==>
                var c := Decide(details, creditId, gateway).credit;
                && r == Decide(details, creditId, gateway).response
                && State() == AutoProcessed(old(State()), c.id, c.paymentReference, today)
    {
      if details.Err? {
        return Err(HttpError(404, "Failed to get credit details: " + details.error));
      }
      var chosen := SelectCredit(details.value, creditId);
      if chosen.Err? {
        return Err(chosen.error);
      }
      var c := chosen.value;
      var payload := ConvertToGatewayFormat(c);
      var reply := gateway(payload);
      var raised := Caught(reply);
      if raised.Some? {
        return Err(raised.value);
      }
      AutoProcessPendingInstallments(c.id, c.paymentReference, today);
      r := match reply.data case Ok(resp) => Ok(resp) case Err(m) => Err(Unexpected(m));
    }
  }
}
