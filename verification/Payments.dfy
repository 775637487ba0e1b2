/**
 The prepaid-energy ledger: one payment per provider reference, one credit per
 payment, and balances that are exactly the sum of their credits. Energy is counted
 in millionths of a kilowatt-hour, the precision of the columns that store it.
 */
module Payments {
  import opened Prelude
  import opened Text

  datatype PaymentStatus = Pending | Confirmed | Failed | Reversed

  datatype Command = Command(
    provider: string, reference: string, customerId: string, amount: int, currency: string, status: PaymentStatus,
    confirmedAt: Option<int>)

  datatype Payment = Payment(id: nat, provider: string, reference: string, customerId: string, amount: int, currency: string, status: PaymentStatus)

  datatype Credit = Credit(siteId: string, assignmentId: string, paymentId: nat, tariffId: string, microKwh: int, money: int)

  datatype Balance = Balance(microKwh: int, money: int)

  datatype Assignment = Assignment(id: string, siteId: string, meterId: string, relayClosed: bool)

  datatype Tariff = Tariff(id: string, pricePerKwh: real, currency: string, minorPerMajor: int)

  /** What the directory tables answer for the customer while the transaction runs. */
  datatype Directory = Directory(assignment: Option<Assignment>, tariff: Option<Tariff>)

  datatype MeterCommand = MeterCommand(meterId: string, requestedBy: string)

  /** The audit row of a payment names the reconnect it caused, if any. */
  datatype Audit = Audit(paymentId: nat, commandId: Option<nat>)

  datatype LedgerEvent = PaymentConfirmed(paymentId: nat) | CreditIssued(paymentId: nat) | CommandRequested(commandId: nat)

  datatype Ledger = Ledger(
    payments: seq<Payment>,
    credits: seq<Credit>,
    balances: map<string, Balance>,
    commands: seq<MeterCommand>,
    audits: seq<Audit>,
    events: multiset<LedgerEvent>)

  datatype Applied = Applied(payment: Payment, credit: Credit, balance: Balance, command: Option<MeterCommand>)

  datatype PayError = InvalidRequest | Conflict | NoAssignment | NoTariff | BadTariff | Constraint | MissingRow

  predicate ValidCommand(c: Command) {
    && !Blank(c.provider) && !Blank(c.reference) && !Blank(c.customerId) && c.amount > 0 && !Blank(c.currency)
    && c.status.Confirmed? && c.confirmedAt.Some?
  }

  // ---- Lookups ----

  /** The position of a row with a property; under the invariant there is at most one in every use below. */
  function FindRow<T>(rows: seq<T>, f: T -> bool): (found: Option<nat>)
    ensures found.Some? ==> found.value < |rows| && f(rows[found.value])
    ensures found.None? ==> forall i | 0 <= i < |rows| :: !f(rows[i])
  {
    if rows == [] then None
    else
      var last := |rows| - 1;
      if f(rows[last]) then Some(last) else FindRow(rows[..last], f)
  }

  predicate Refers(p: Payment, provider: string, reference: string) {
    p.provider == provider && p.reference == reference
  }

  function FindPayment(payments: seq<Payment>, provider: string, reference: string): (found: Option<nat>)
    ensures found.Some? ==> found.value < |payments| && Refers(payments[found.value], provider, reference)
    ensures found.None? ==> forall i | 0 <= i < |payments| :: !Refers(payments[i], provider, reference)
  {
    FindRow(payments, (p: Payment) => Refers(p, provider, reference))
  }

  function FindCredit(credits: seq<Credit>, paymentId: nat): Option<nat> {
    FindRow(credits, (c: Credit) => c.paymentId == paymentId)
  }

  function FindAudit(audits: seq<Audit>, paymentId: nat): Option<nat> {
    FindRow(audits, (a: Audit) => a.paymentId == paymentId)
  }

  function BalanceOf(balances: map<string, Balance>, assignmentId: string): Balance {
    if assignmentId in balances then balances[assignmentId] else Balance(0, 0)
  }

  // ---- The transaction ----

  predicate Consistent(p: Payment, c: Command) {
    p.customerId == c.customerId && p.amount == c.amount && p.currency == c.currency && p.status == c.status
  }

  function CommandOf(commands: seq<MeterCommand>, audit: Audit): Option<MeterCommand> {
    if audit.commandId.Some? && audit.commandId.value < |commands| then Some(commands[audit.commandId.value]) else None
  }

  /** The stored outcome of a payment made before, with the balance of today. */
  function ReplayPrior(l: Ledger, p: Payment): Result<Applied, PayError> {
    var credit := FindCredit(l.credits, p.id);
    if credit.None? then Err(MissingRow)
    else
      var c := l.credits[credit.value];
      if c.assignmentId !in l.balances then Err(MissingRow)
      else
        var audit := FindAudit(l.audits, p.id);
        var command := if audit.Some? then CommandOf(l.commands, l.audits[audit.value]) else None;
        Ok(Applied(p, c, l.balances[c.assignmentId], command))
  }

  /** The price of a kilowatt-hour in the minor units payments are counted in. */
  function MinorPrice(t: Tariff): (price: real)
    requires t.pricePerKwh > 0.0 && t.minorPerMajor > 0
    ensures price > 0.0
  {
    t.pricePerKwh * t.minorPerMajor as real
  }

  function RoundHalfUp(x: real): (n: int)
    ensures n as real - 0.5 <= x < n as real + 0.5
  {
    (x + 0.5).Floor
  }

  /** Energy bought, rounded to the stored precision. */
  function MicroKwh(amount: int, t: Tariff): int
    requires t.pricePerKwh > 0.0 && t.minorPerMajor > 0
  {
    RoundHalfUp(amount as real / MinorPrice(t) * 1_000_000.0)
  }

  function Refusal(c: Command, d: Directory): Option<PayError> {
    if d.assignment.None? then Some(NoAssignment)
    else if d.tariff.None? then Some(NoTariff)
    else if d.tariff.value.pricePerKwh <= 0.0 || d.tariff.value.minorPerMajor <= 0 then Some(BadTariff)
    else if d.tariff.value.currency != c.currency then Some(Conflict)
    else if MicroKwh(c.amount, d.tariff.value) <= 0 then Some(Constraint)
    else None
  }

  predicate Reconnects(l: Ledger, a: Assignment, kwh: int) {
    !a.relayClosed && BalanceOf(l.balances, a.id).microKwh == 0 && BalanceOf(l.balances, a.id).microKwh + kwh > 0
  }

  function NewPayment(l: Ledger, c: Command): Payment {
    Payment(|l.payments|, c.provider, c.reference, c.customerId, c.amount, c.currency, c.status)
  }

  /** All the rows a first payment writes. */
  function Credited(l: Ledger, c: Command, a: Assignment, tariffId: string, kwh: int): (Ledger, Applied) {
    var payment := NewPayment(l, c);
    var credit := Credit(a.siteId, a.id, payment.id, tariffId, kwh, c.amount);
    var prior := BalanceOf(l.balances, a.id);
    var balance := Balance(prior.microKwh + kwh, prior.money + c.amount);
    var reconnect := Reconnects(l, a, kwh);
    var command := MeterCommand(a.meterId, "provider:" + c.provider);
    var announced := l.events + multiset{PaymentConfirmed(payment.id), CreditIssued(payment.id)};
    (Ledger(l.payments + [payment],
            l.credits + [credit],
            l.balances[a.id := balance],
            if reconnect then l.commands + [command] else l.commands,
            l.audits + [Audit(payment.id, if reconnect then Some(|l.commands|) else None)],
            if reconnect then announced + multiset{CommandRequested(|l.commands|)} else announced),
     Applied(payment, credit, balance, if reconnect then Some(command) else None))
  }

  function Pay(l: Ledger, c: Command, d: Directory): Result<(Ledger, Applied), PayError> {
    if !ValidCommand(c) then Err(InvalidRequest)
    else
      var existing := FindPayment(l.payments, c.provider, c.reference);
      if existing.Some? then
        if !Consistent(l.payments[existing.value], c) then Err(Conflict)
        else
          match ReplayPrior(l, l.payments[existing.value])
          case Err(e) => Err(e)
          case Ok(applied) => Ok((l, applied))
      else if Refusal(c, d).Some? then Err(Refusal(c, d).value)
      else Ok(Credited(l, c, d.assignment.value, d.tariff.value.id, MicroKwh(c.amount, d.tariff.value)))
  }

  // ---- Runs ----

  datatype Step = Step(command: Command, directory: Directory)

  function Commit(l: Ledger, r: Result<(Ledger, Applied), PayError>): Ledger {
    if r.Ok? then r.value.0 else l
  }

  function Opening(balances: map<string, Balance>): Ledger {
    Ledger([], [], balances, [], [], multiset{})
  }

  function After(l: Ledger, steps: seq<Step>): Ledger {
    if steps == [] then l
    else
      var before := After(l, steps[..|steps| - 1]);
      Commit(before, Pay(before, steps[|steps| - 1].command, steps[|steps| - 1].directory))
  }

  // ---- The invariant ----

  function KwhOf(credits: seq<Credit>, assignmentId: string): int {
    if credits == [] then 0
    else
      var last := credits[|credits| - 1];
      KwhOf(credits[..|credits| - 1], assignmentId) + (if last.assignmentId == assignmentId then last.microKwh else 0)
  }

  function MoneyOf(credits: seq<Credit>, assignmentId: string): int {
    if credits == [] then 0
    else
      var last := credits[|credits| - 1];
      MoneyOf(credits[..|credits| - 1], assignmentId) + (if last.assignmentId == assignmentId then last.money else 0)
  }

  ghost predicate UniqueReferences(payments: seq<Payment>) {
    && (forall i | 0 <= i < |payments| :: payments[i].id == i)
    && (forall i, j | 0 <= i < j < |payments| :: payments[i].provider != payments[j].provider || payments[i].reference != payments[j].reference)
  }

  /** Row i of every table belongs to payment i. */
  ghost predicate RowsMatch(l: Ledger) {
    && |l.credits| == |l.payments| == |l.audits|
    && (forall i | 0 <= i < |l.payments| :: RowMatches(l, i))
  }

  ghost predicate RowMatches(l: Ledger, i: nat)
    requires i < |l.payments| == |l.credits| == |l.audits|
  {
    && l.credits[i].paymentId == i && l.credits[i].money == l.payments[i].amount && l.credits[i].microKwh > 0
    && l.credits[i].assignmentId in l.balances
    && l.audits[i].paymentId == i
    && (l.audits[i].commandId.Some? ==> l.audits[i].commandId.value < |l.commands|)
  }

  ghost predicate Balanced(l: Ledger, opening: map<string, Balance>) {
    forall a: string ::
      && BalanceOf(l.balances, a).microKwh == BalanceOf(opening, a).microKwh + KwhOf(l.credits, a)
      && BalanceOf(l.balances, a).money == BalanceOf(opening, a).money + MoneyOf(l.credits, a)
  }

  ghost predicate Announced(l: Ledger) {
    && (forall i: nat :: l.events[PaymentConfirmed(i)] == (if i < |l.payments| then 1 else 0)
          && l.events[CreditIssued(i)] == (if i < |l.payments| then 1 else 0))
    && (forall i: nat :: l.events[CommandRequested(i)] == if i < |l.commands| then 1 else 0)
  }

  ghost predicate Inv(l: Ledger, opening: map<string, Balance>) {
    UniqueReferences(l.payments) && RowsMatch(l) && Balanced(l, opening) && Announced(l)
  }

  lemma CreditAdds(credits: seq<Credit>, c: Credit, a: string)
    ensures KwhOf(credits + [c], a) == KwhOf(credits, a) + (if c.assignmentId == a then c.microKwh else 0)
    ensures MoneyOf(credits + [c], a) == MoneyOf(credits, a) + (if c.assignmentId == a then c.money else 0)
  {
    assert (credits + [c])[..|credits|] == credits;
  }

  lemma CreditKeepsBalanced(l: Ledger, c: Command, a: Assignment, tariffId: string, kwh: int, opening: map<string, Balance>)
    requires Balanced(l, opening)
    ensures Balanced(Credited(l, c, a, tariffId, kwh).0, opening)
  {
    var (l', applied) := Credited(l, c, a, tariffId, kwh);
    forall id: string
      ensures BalanceOf(l'.balances, id).microKwh == BalanceOf(opening, id).microKwh + KwhOf(l'.credits, id)
      ensures BalanceOf(l'.balances, id).money == BalanceOf(opening, id).money + MoneyOf(l'.credits, id)
    {
      CreditAdds(l.credits, applied.credit, id);
    }
  }

  lemma CreditKeepsRows(l: Ledger, c: Command, a: Assignment, tariffId: string, kwh: int)
    requires kwh > 0 && RowsMatch(l)
    ensures RowsMatch(Credited(l, c, a, tariffId, kwh).0)
  {
    var l' := Credited(l, c, a, tariffId, kwh).0;
    forall i | 0 <= i < |l'.payments| ensures RowMatches(l', i) {
      if i < |l.payments| {
        assert RowMatches(l, i);
      }
    }
  }

  lemma CreditKeepsAnnounced(l: Ledger, c: Command, a: Assignment, tariffId: string, kwh: int)
    requires Announced(l)
    ensures Announced(Credited(l, c, a, tariffId, kwh).0)
  {
  }

  lemma NewReference(payments: seq<Payment>, p: Payment)
    requires UniqueReferences(payments) && p.id == |payments| && FindPayment(payments, p.provider, p.reference).None?
    ensures UniqueReferences(payments + [p])
  {
    forall i | 0 <= i < |payments| ensures payments[i].provider != p.provider || payments[i].reference != p.reference {
      assert !Refers(payments[i], p.provider, p.reference);
    }
  }

  lemma PayKeeps(l: Ledger, c: Command, d: Directory, opening: map<string, Balance>)
    requires Inv(l, opening)
    ensures Inv(Commit(l, Pay(l, c, d)), opening)
  {
    if ValidCommand(c) && FindPayment(l.payments, c.provider, c.reference).None? && Refusal(c, d).None? {
      NewReference(l.payments, NewPayment(l, c));
      var a, t := d.assignment.value, d.tariff.value;
      CreditKeepsBalanced(l, c, a, t.id, MicroKwh(c.amount, t), opening);
      CreditKeepsRows(l, c, a, t.id, MicroKwh(c.amount, t));
      CreditKeepsAnnounced(l, c, a, t.id, MicroKwh(c.amount, t));
    }
  }

  lemma {:induction false} RunKeeps(opening: map<string, Balance>, steps: seq<Step>)
    ensures Inv(After(Opening(opening), steps), opening)
  {
    if steps != [] {
      RunKeeps(opening, steps[..|steps| - 1]);
      var last := steps[|steps| - 1];
      PayKeeps(After(Opening(opening), steps[..|steps| - 1]), last.command, last.directory, opening);
    }
  }

  // ---- What the ledger promises ----

  /** Whatever is repeated, refused or conflicting: every balance has grown by exactly its credits. */
  lemma {:induction false} BalancesAreSums(opening: map<string, Balance>, steps: seq<Step>, assignmentId: string)
    ensures var l := After(Opening(opening), steps);
      && BalanceOf(l.balances, assignmentId).microKwh == BalanceOf(opening, assignmentId).microKwh + KwhOf(l.credits, assignmentId)
      && BalanceOf(l.balances, assignmentId).money == BalanceOf(opening, assignmentId).money + MoneyOf(l.credits, assignmentId)
  {
    RunKeeps(opening, steps);
  }

  /** One payment per provider and reference, one credit per payment for exactly its amount. */
  lemma {:induction false} OneCreditPerPayment(opening: map<string, Balance>, steps: seq<Step>, i: nat)
    requires i < |After(Opening(opening), steps).payments|
    ensures var l := After(Opening(opening), steps);
      && (forall j | 0 <= j < |l.payments| && j != i :: l.payments[j].provider != l.payments[i].provider || l.payments[j].reference != l.payments[i].reference)
      && (forall j | 0 <= j < |l.credits| :: l.credits[j].paymentId == l.payments[i].id <==> j == i)
      && |l.credits| == |l.payments| && l.credits[i].money == l.payments[i].amount
      && l.events[PaymentConfirmed(i)] == 1 && l.events[CreditIssued(i)] == 1
  {
    RunKeeps(opening, steps);
    var l := After(Opening(opening), steps);
    forall j | 0 <= j < |l.credits| ensures l.credits[j].paymentId == j {
      assert RowMatches(l, j);
    }
    assert RowMatches(l, i);
  }

  /** Payments, credits and audits are never rewritten. */
  ghost predicate Extends(l: Ledger, l': Ledger) {
    l.payments <= l'.payments && l.credits <= l'.credits && l.audits <= l'.audits && l.commands <= l'.commands
  }

  lemma {:induction false} RunExtends(l: Ledger, steps: seq<Step>)
    ensures Extends(l, After(l, steps))
  {
    if steps != [] {
      RunExtends(l, steps[..|steps| - 1]);
    }
  }

  /** The energy granted is worth the amount paid, to within half of the stored precision. */
  lemma EnergyIsWorthTheAmount(amount: int, t: Tariff)
    requires t.pricePerKwh > 0.0 && t.minorPerMajor > 0
    ensures var micro := MicroKwh(amount, t) as real;
      (micro - 0.5) * MinorPrice(t) <= amount as real * 1_000_000.0 < (micro + 0.5) * MinorPrice(t)
  {
    Worth(amount as real, MinorPrice(t), MicroKwh(amount, t) as real);
  }

  lemma Worth(amount: real, price: real, micro: real)
    requires price > 0.0 && micro - 0.5 <= amount / price * 1_000_000.0 < micro + 0.5
    ensures (micro - 0.5) * price <= amount * 1_000_000.0 < (micro + 0.5) * price
  {
    var exact := amount / price * 1_000_000.0;
    assert exact * price == amount * 1_000_000.0 by {
      assert amount / price * price == amount;
    }
    Scaled(micro - 0.5, exact, price);
    assert exact < micro + 0.5;
    Scaled(exact, micro + 0.5, price);
    assert exact * price < (micro + 0.5) * price;
  }

  lemma Scaled(a: real, b: real, p: real)
    requires p > 0.0
    ensures a <= b ==> a * p <= b * p
    ensures a < b ==> a * p < b * p
  {
  }

  predicate SamePayment(c: Command, c': Command) {
    && c'.provider == c.provider && c'.reference == c.reference && c'.customerId == c.customerId
    && c'.amount == c.amount && c'.currency == c.currency && c'.status == c.status && c'.confirmedAt.Some?
  }

  lemma StoredPaymentFound(l: Ledger, opening: map<string, Balance>, i: nat)
    requires Inv(l, opening) && i < |l.payments|
    ensures FindPayment(l.payments, l.payments[i].provider, l.payments[i].reference) == Some(i)
    ensures FindCredit(l.credits, i) == Some(i) && FindAudit(l.audits, i) == Some(i)
  {
    forall j | 0 <= j < |l.payments| ensures l.credits[j].paymentId == j && l.audits[j].paymentId == j {
      assert RowMatches(l, j);
    }
    assert l.credits[i].paymentId == i && l.audits[i].paymentId == i;
  }

  /** Repeating a stored payment, at any later time and under any tariff, succeeds, returns what is stored and writes nothing. */
  lemma {:induction false} RepeatReturnsStored(l: Ledger, opening: map<string, Balance>, i: nat, c: Command, d: Directory)
    requires Inv(l, opening) && i < |l.payments| && ValidCommand(c)
    requires c.provider == l.payments[i].provider && c.reference == l.payments[i].reference && Consistent(l.payments[i], c)
    ensures var r := Pay(l, c, d);
      && r.Ok? && r.value.0 == l
      && r.value.1.payment == l.payments[i] && r.value.1.credit == l.credits[i]
      && r.value.1.balance == l.balances[l.credits[i].assignmentId]
      && r.value.1.command == CommandOf(l.commands, l.audits[i])
  {
    StoredPaymentFound(l, opening, i);
    assert RowMatches(l, i);
  }

  /** So a first success and any later repeat agree on payment, credit and reconnect. */
  lemma {:induction false} RepeatAgreesWithFirst(opening: map<string, Balance>, steps: seq<Step>, c: Command, d: Directory, later: seq<Step>, c': Command, d': Directory)
    requires Pay(After(Opening(opening), steps), c, d).Ok? && SamePayment(c, c')
    ensures var first := Pay(After(Opening(opening), steps), c, d);
      var ledger := After(first.value.0, later);
      var again := Pay(ledger, c', d');
      && again.Ok? && again.value.0 == ledger
      && again.value.1.payment == first.value.1.payment
      && again.value.1.credit == first.value.1.credit
      && again.value.1.command == first.value.1.command
  {
    var before := After(Opening(opening), steps);
    RunKeeps(opening, steps);
    PayKeeps(before, c, d, opening);
    var after := Pay(before, c, d).value.0;
    var i := FindPayment(after.payments, c.provider, c.reference).value;
    LaterKeeps(after, opening, later);
    RunExtends(after, later);
    StoredOutcome(before, opening, c, d, i);
    RepeatReturnsStored(After(after, later), opening, i, c', d');
    assert RowMatches(after, i);
  }

  lemma {:induction false} LaterKeeps(l: Ledger, opening: map<string, Balance>, steps: seq<Step>)
    requires Inv(l, opening)
    ensures Inv(After(l, steps), opening)
  {
    if steps != [] {
      LaterKeeps(l, opening, steps[..|steps| - 1]);
      var last := steps[|steps| - 1];
      PayKeeps(After(l, steps[..|steps| - 1]), last.command, last.directory, opening);
    }
  }

  lemma FirstIsCredited(l: Ledger, c: Command, d: Directory) returns (kwh: int)
    requires Pay(l, c, d).Ok? && FindPayment(l.payments, c.provider, c.reference).None?
    ensures ValidCommand(c) && d.assignment.Some? && d.tariff.Some?
    ensures Pay(l, c, d) == Ok(Credited(l, c, d.assignment.value, d.tariff.value.id, kwh))
  {
    kwh := MicroKwh(c.amount, d.tariff.value);
  }

  lemma CreditedOutcome(l: Ledger, opening: map<string, Balance>, c: Command, a: Assignment, tariffId: string, kwh: int)
    requires |l.payments| == |l.credits| == |l.audits| && Inv(Credited(l, c, a, tariffId, kwh).0, opening)
    ensures var (l', applied) := Credited(l, c, a, tariffId, kwh);
      && FindPayment(l'.payments, c.provider, c.reference) == Some(|l.payments|)
      && Consistent(l'.payments[|l.payments|], c)
      && applied.payment == l'.payments[|l.payments|] && applied.credit == l'.credits[|l.payments|]
      && applied.command == CommandOf(l'.commands, l'.audits[|l.payments|])
  {
    StoredPaymentFound(Credited(l, c, a, tariffId, kwh).0, opening, |l.payments|);
  }

  /** After a success the rows of the payment say what was returned. */
  lemma {:induction false} StoredOutcome(l: Ledger, opening: map<string, Balance>, c: Command, d: Directory, i: nat)
    requires Inv(l, opening) && Pay(l, c, d).Ok?
    requires FindPayment(Pay(l, c, d).value.0.payments, c.provider, c.reference) == Some(i)
    ensures var (l', applied) := Pay(l, c, d).value;
      && Inv(l', opening) && ValidCommand(c) && i < |l'.payments|
      && Consistent(l'.payments[i], c)
      && applied.payment == l'.payments[i] && applied.credit == l'.credits[i]
      && applied.command == CommandOf(l'.commands, l'.audits[i])
  {
    PayKeeps(l, c, d, opening);
    var existing := FindPayment(l.payments, c.provider, c.reference);
    if existing.Some? {
      RepeatReturnsStored(l, opening, i, c, d);
    } else {
      var kwh := FirstIsCredited(l, c, d);
      assert Pay(l, c, d).value == Credited(l, c, d.assignment.value, d.tariff.value.id, kwh);
      CreditedOutcome(l, opening, c, d.assignment.value, d.tariff.value.id, kwh);
    }
  }

  /** A repeat that disagrees with the stored payment is refused and changes nothing. */
  lemma {:induction false} MismatchChangesNothing(l: Ledger, opening: map<string, Balance>, i: nat, c: Command, d: Directory)
    requires Inv(l, opening) && i < |l.payments| && ValidCommand(c)
    requires c.provider == l.payments[i].provider && c.reference == l.payments[i].reference
    ensures Pay(l, c, d) == Err(Conflict) <==> !Consistent(l.payments[i], c)
    ensures Commit(l, Pay(l, c, d)) == l
  {
    StoredPaymentFound(l, opening, i);
    if Consistent(l.payments[i], c) {
      RepeatReturnsStored(l, opening, i, c, d);
    }
  }

  /**
   And whatever came in between, a later command under the same reference is refused exactly if it disagrees with
   the first success; either way nothing changes.
   */
  lemma {:induction false} MismatchRefusedForever(opening: map<string, Balance>, steps: seq<Step>, c: Command, d: Directory, later: seq<Step>, c': Command, d': Directory)
    requires Pay(After(Opening(opening), steps), c, d).Ok?
    requires ValidCommand(c') && c'.provider == c.provider && c'.reference == c.reference
    ensures var first := Pay(After(Opening(opening), steps), c, d);
      var ledger := After(first.value.0, later);
      && (Pay(ledger, c', d') == Err(Conflict) <==> !Consistent(first.value.1.payment, c'))
      && Commit(ledger, Pay(ledger, c', d')) == ledger
  {
    var before := After(Opening(opening), steps);
    RunKeeps(opening, steps);
    PayKeeps(before, c, d, opening);
    var after := Pay(before, c, d).value.0;
    var i := FindPayment(after.payments, c.provider, c.reference).value;
    LaterKeeps(after, opening, later);
    RunExtends(after, later);
    StoredOutcome(before, opening, c, d, i);
    MismatchChangesNothing(After(after, later), opening, i, c', d');
  }

  /** The step is a new payment that lifts an empty balance of an open relay above zero. */
  predicate Lifts(l: Ledger, step: Step) {
    var l' := Commit(l, Pay(l, step.command, step.directory));
    && |l'.payments| > |l.payments| && !step.directory.assignment.value.relayClosed
    && BalanceOf(l.balances, step.directory.assignment.value.id).microKwh == 0
    && BalanceOf(l'.balances, step.directory.assignment.value.id).microKwh > 0
  }

  lemma ReconnectOnlyFromEmpty(l: Ledger, step: Step)
    ensures |Commit(l, Pay(l, step.command, step.directory)).commands| == |l.commands| + (if Lifts(l, step) then 1 else 0)
  {
  }

  function LiftingSteps(opening: map<string, Balance>, steps: seq<Step>): nat {
    if steps == [] then 0
    else
      var before, last := steps[..|steps| - 1], steps[|steps| - 1];
      LiftingSteps(opening, before) + (if Lifts(After(Opening(opening), before), last) then 1 else 0)
  }

  /** In every run there are exactly as many reconnect commands as payments that lifted an empty balance of an open relay. */
  lemma {:induction false} ReconnectsCounted(opening: map<string, Balance>, steps: seq<Step>)
    ensures |After(Opening(opening), steps).commands| == LiftingSteps(opening, steps)
  {
    if steps != [] {
      var before, last := steps[..|steps| - 1], steps[|steps| - 1];
      ReconnectsCounted(opening, before);
      ReconnectOnlyFromEmpty(After(Opening(opening), before), last);
    }
  }

  // ---- The service ----

  /** The writes of a first payment, table by table, once its payment row is in place. */
  ghost predicate Issues(l: Ledger, l': Ledger, payment: Payment, c: Command, a: Assignment, tariffId: string, kwh: int, applied: Applied) {
    var prior := BalanceOf(l.balances, a.id);
    var lifted := !a.relayClosed && prior.microKwh == 0 && prior.microKwh + kwh > 0;
    var command := MeterCommand(a.meterId, "provider:" + c.provider);
    var announced := l.events + multiset{PaymentConfirmed(payment.id), CreditIssued(payment.id)};
    && l'.payments == l.payments && applied.payment == payment
    && applied.credit == Credit(a.siteId, a.id, payment.id, tariffId, kwh, c.amount) && l'.credits == l.credits + [applied.credit]
    && applied.balance == Balance(prior.microKwh + kwh, prior.money + c.amount) && l'.balances == l.balances[a.id := applied.balance]
    && applied.command == (if lifted then Some(command) else None)
    && l'.commands == (if lifted then l.commands + [command] else l.commands)
    && l'.audits == l.audits + [Audit(payment.id, if lifted then Some(|l.commands|) else None)]
    && l'.events == if lifted then announced + multiset{CommandRequested(|l.commands|)} else announced
  }

  lemma IssuedIsCredited(l: Ledger, l': Ledger, c: Command, a: Assignment, tariffId: string, kwh: int, applied: Applied)
    requires Issues(l.(payments := l.payments + [NewPayment(l, c)]), l', NewPayment(l, c), c, a, tariffId, kwh, applied)
    ensures (l', applied) == Credited(l, c, a, tariffId, kwh)
  {
  }

  class PaymentService {
    var payments: seq<Payment>
    var credits: seq<Credit>
    var balances: map<string, Balance>
    var commands: seq<MeterCommand>
    var audits: seq<Audit>
    var events: multiset<LedgerEvent>

    function View(): Ledger
      reads this
    {
      Ledger(payments, credits, balances, commands, audits, events)
    }

    constructor (opening: map<string, Balance>)
      ensures View() == Opening(opening)
    {
      payments, credits, balances, commands, audits, events := [], [], opening, [], [], multiset{};
    }

    /** A repeat only reads. */
    method ReplayPriorResult(p: Payment) returns (r: Result<Applied, PayError>)
      ensures r == ReplayPrior(View(), p)
    {
      var credit := FindCredit(credits, p.id);
      if credit.None? {
        return Err(MissingRow);
      }
      var stored := credits[credit.value];
      if stored.assignmentId !in balances {
        return Err(MissingRow);
      }
      var audit := FindAudit(audits, p.id);
      var command := if audit.Some? then CommandOf(commands, audits[audit.value]) else None;
      return Ok(Applied(p, stored, balances[stored.assignmentId], command));
    }

    /** The reconnect of an emptied, disconnected meter, asked for in the same transaction. */
    method RequestReconnect(command: MeterCommand) returns (id: nat)
      modifies this`commands, this`events
      ensures id == |old(commands)| && commands == old(commands) + [command]
      ensures events == old(events) + multiset{CommandRequested(id)}
    {
      id := |commands|;
      commands := commands + [command];
      events := events + multiset{CommandRequested(id)};
    }

    method ReconnectIf(lifted: bool, command: MeterCommand) returns (requested: Option<MeterCommand>, id: Option<nat>)
      modifies this`commands, this`events
      ensures requested == if lifted then Some(command) else None
      ensures id == if lifted then Some(|old(commands)|) else None
      ensures commands == if lifted then old(commands) + [command] else old(commands)
      ensures events == if lifted then old(events) + multiset{CommandRequested(|old(commands)|)} else old(events)
    {
      requested, id := None, None;
      if lifted {
        var newest := RequestReconnect(command);
        requested, id := Some(command), Some(newest);
      }
    }

    method ApplyPayment(c: Command, d: Directory) returns (r: Result<Applied, PayError>)
      modifies this
      ensures r.Ok? <==> Pay(old(View()), c, d).Ok?
      ensures r.Ok? ==> (View(), r.value) == Pay(old(View()), c, d).value
      ensures r.Err? ==> View() == old(View()) && r.error == Pay(old(View()), c, d).error
    {
      if !ValidCommand(c) {
        return Err(InvalidRequest);
      }
      var existing := FindPayment(payments, c.provider, c.reference);
      if existing.Some? {
        if !Consistent(payments[existing.value], c) {
          return Err(Conflict);
        }
        r := ReplayPriorResult(payments[existing.value]);
        return;
      }
      var saved := payments;
      var payment := NewPayment(View(), c);
      payments := payments + [payment];
      var refusal := Refusal(c, d);
      if refusal.Some? {
        payments := saved;
        return Err(refusal.value);
      }
      var tariff := d.tariff.value;
      var applied := IssueCredit(payment, c, d.assignment.value, tariff.id, MicroKwh(c.amount, tariff));
      IssuedIsCredited(old(View()), View(), c, d.assignment.value, tariff.id, MicroKwh(c.amount, tariff), applied);
      return Ok(applied);
    }

    /** The credit row, and the balance it adds to. */
    method AddCredit(credit: Credit) returns (prior: Balance, balance: Balance)
      modifies this`credits, this`balances
      ensures credits == old(credits) + [credit]
      ensures prior == BalanceOf(old(balances), credit.assignmentId)
      ensures balance == Balance(prior.microKwh + credit.microKwh, prior.money + credit.money)
      ensures balances == old(balances)[credit.assignmentId := balance]
    {
      credits := credits + [credit];
      prior := BalanceOf(balances, credit.assignmentId);
      balance := Balance(prior.microKwh + credit.microKwh, prior.money + credit.money);
      balances := balances[credit.assignmentId := balance];
    }

    /** Everything that follows the payment row: credit, balance, events, reconnect, audit. */
    method IssueCredit(payment: Payment, c: Command, a: Assignment, tariffId: string, kwh: int) returns (applied: Applied)
      modifies this`credits, this`balances, this`commands, this`audits, this`events
      ensures Issues(old(View()), View(), payment, c, a, tariffId, kwh, applied)
    {
      var credit := Credit(a.siteId, a.id, payment.id, tariffId, kwh, c.amount);
      var prior, balance := AddCredit(credit);
      events := events + multiset{PaymentConfirmed(payment.id), CreditIssued(payment.id)};
      var lifted := !a.relayClosed && prior.microKwh == 0 && balance.microKwh > 0;
      var command, commandId := ReconnectIf(lifted, MeterCommand(a.meterId, "provider:" + c.provider));
      audits := audits + [Audit(payment.id, commandId)];
      return Applied(payment, credit, balance, command);
    }
  }
}
