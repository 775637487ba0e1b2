/** What a payment buys and what it writes, table by table, of one transaction and of every run. */
module PaymentEffects {
  import opened Prelude
  import opened Text
  import opened Payments

  predicate NewReference(l: Ledger, c: Command) {
    forall i | 0 <= i < |l.payments| :: l.payments[i].provider != c.provider || l.payments[i].reference != c.reference
  }

  /** So much energy, priced per kilowatt-hour in minor units, is the amount paid, to half of the stored precision. */
  predicate WorthTheAmount(amount: int, microKwh: int, t: Tariff) {
    var price := t.pricePerKwh * t.minorPerMajor as real;
    && price > 0.0
    && (microKwh as real - 0.5) * price <= amount as real * 1_000_000.0 < (microKwh as real + 0.5) * price
  }

  predicate PaysFor(p: Payment, c: Command) {
    && p.provider == c.provider && p.reference == c.reference && p.customerId == c.customerId
    && p.amount == c.amount && p.currency == c.currency && p.status == c.status
  }

  /** The credit of payment p under what the directory answered. */
  predicate CreditsThe(credit: Credit, p: Payment, c: Command, d: Directory) {
    && d.assignment.Some? && d.tariff.Some?
    && credit.paymentId == p.id && credit.money == c.amount
    && credit.assignmentId == d.assignment.value.id && credit.siteId == d.assignment.value.siteId
    && credit.tariffId == d.tariff.value.id
    && WorthTheAmount(c.amount, credit.microKwh, d.tariff.value)
  }

  lemma CreditedEnergyIsWorth(l: Ledger, c: Command, d: Directory)
    requires NewReference(l, c) && Pay(l, c, d).Ok?
    ensures d.tariff.Some? && WorthTheAmount(c.amount, Pay(l, c, d).value.1.credit.microKwh, d.tariff.value)
  {
    EnergyIsWorthTheAmount(c.amount, d.tariff.value);
  }

  /** Payment, credit and audit rows of a first payment, and the energy it grants. */
  lemma FirstPaymentWrites(l: Ledger, c: Command, d: Directory)
    requires NewReference(l, c) && Pay(l, c, d).Ok?
    ensures var (l', applied) := Pay(l, c, d).value;
      && PaysFor(applied.payment, c) && applied.payment.id == |l.payments|
      && CreditsThe(applied.credit, applied.payment, c, d)
      && l'.payments == l.payments + [applied.payment] && l'.credits == l.credits + [applied.credit]
      && |l'.audits| == |l.audits| + 1 && l.audits < l'.audits && l'.audits[|l.audits|].paymentId == applied.payment.id
  {
    CreditedEnergyIsWorth(l, c, d);
  }

  /** One balance grows by the credit, the others stay. */
  lemma FirstPaymentBalances(l: Ledger, c: Command, d: Directory)
    requires NewReference(l, c) && Pay(l, c, d).Ok?
    ensures var (l', applied) := Pay(l, c, d).value;
      var a := applied.credit.assignmentId;
      && a in l'.balances && l'.balances[a] == applied.balance
      && applied.balance.microKwh == (if a in l.balances then l.balances[a].microKwh else 0) + applied.credit.microKwh
      && applied.balance.money == (if a in l.balances then l.balances[a].money else 0) + c.amount
      && forall b | b != a :: (b in l'.balances <==> b in l.balances) && (b in l.balances ==> l'.balances[b] == l.balances[b])
  {
  }

  /**
   The meter is reconnected exactly if its relay is open and its balance held no energy; command, audit and events
   say so together.
   */
  lemma FirstPaymentReconnects(l: Ledger, c: Command, d: Directory)
    requires NewReference(l, c) && Pay(l, c, d).Ok?
    ensures var (l', applied) := Pay(l, c, d).value;
      var assignment, id := d.assignment.value, applied.payment.id;
      var empty := assignment.id !in l.balances || l.balances[assignment.id].microKwh == 0;
      var reconnect := !assignment.relayClosed && empty;
      && (applied.command.Some? <==> reconnect)
      && (reconnect ==>
            && applied.command.value.meterId == assignment.meterId && applied.command.value.requestedBy == "provider:" + c.provider
            && l'.commands == l.commands + [applied.command.value] && l'.audits[|l.audits|].commandId == Some(|l.commands|)
            && l'.events == l.events + multiset{PaymentConfirmed(id), CreditIssued(id), CommandRequested(|l.commands|)})
      && (!reconnect ==>
            && l'.commands == l.commands && l'.audits[|l.audits|].commandId.None?
            && l'.events == l.events + multiset{PaymentConfirmed(id), CreditIssued(id)})
  {
    FirstPaymentWrites(l, c, d);
  }

  /**
   A first payment is accepted exactly under these conditions; the last says that it buys at least half of the
   smallest stored amount.
   */
  lemma FirstPaymentAccepted(l: Ledger, c: Command, d: Directory)
    requires NewReference(l, c)
    ensures Pay(l, c, d).Ok? <==>
      && !Blank(c.provider) && !Blank(c.reference) && !Blank(c.customerId) && !Blank(c.currency)
      && c.amount > 0 && c.status.Confirmed? && c.confirmedAt.Some?
      && d.assignment.Some? && d.tariff.Some?
      && d.tariff.value.pricePerKwh > 0.0 && d.tariff.value.minorPerMajor > 0 && d.tariff.value.currency == c.currency
      && 0.5 * (d.tariff.value.pricePerKwh * d.tariff.value.minorPerMajor as real) <= c.amount as real * 1_000_000.0
  {
    if d.tariff.Some? && d.tariff.value.pricePerKwh > 0.0 && d.tariff.value.minorPerMajor > 0 {
      var price := d.tariff.value.pricePerKwh * d.tariff.value.minorPerMajor as real;
      EnergyIsWorthTheAmount(c.amount, d.tariff.value);
      PositiveEnergy(c.amount as real * 1_000_000.0, price, MicroKwh(c.amount, d.tariff.value));
    }
  }

  lemma PositiveEnergy(paid: real, price: real, micro: int)
    requires price > 0.0 && (micro as real - 0.5) * price <= paid < (micro as real + 0.5) * price
    ensures micro > 0 <==> 0.5 * price <= paid
  {
    if micro > 0 {
      Scaled(0.5, micro as real - 0.5, price);
    } else {
      Scaled(micro as real + 0.5, 0.5, price);
    }
  }

  /** Every credit of every run was granted for the payment of its own step, at the price the directory quoted then. */
  lemma {:induction false} EveryCreditIsWorthItsPayment(opening: map<string, Balance>, steps: seq<Step>, i: nat) returns (n: nat)
    requires i < |After(Opening(opening), steps).credits|
    ensures n < |steps| && NewReference(After(Opening(opening), steps[..n]), steps[n].command)
    ensures var l := After(Opening(opening), steps);
      && i < |l.payments| && PaysFor(l.payments[i], steps[n].command)
      && CreditsThe(l.credits[i], l.payments[i], steps[n].command, steps[n].directory)
  {
    var earlier, last := steps[..|steps| - 1], steps[|steps| - 1];
    var before := After(Opening(opening), earlier);
    RunKeeps(opening, earlier);
    RunKeeps(opening, steps);
    if i < |before.credits| {
      n := EveryCreditIsWorthItsPayment(opening, earlier, i);
      assert earlier[..n] == steps[..n];
      PayExtends(before, last.command, last.directory);
    } else {
      n := |steps| - 1;
      NewCreditIsNewReference(before, last.command, last.directory);
      FirstPaymentWrites(before, last.command, last.directory);
    }
  }

  lemma PayExtends(l: Ledger, c: Command, d: Directory)
    ensures Extends(l, Commit(l, Pay(l, c, d)))
  {
  }

  lemma NewCreditIsNewReference(l: Ledger, c: Command, d: Directory)
    requires |Commit(l, Pay(l, c, d)).credits| > |l.credits|
    ensures NewReference(l, c) && Pay(l, c, d).Ok?
  {
  }
}
