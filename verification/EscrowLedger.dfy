/** What DeploymentEscrow owes and what its event log means: an independent ledger, replayed from the
    events alone, that every state of the contract must agree with. */
module EscrowLedger {
  import opened Common
  import opened MapSum
  import opened EscrowSpec

  // ---- What the contract owes ----

  function Outstanding(d: Deposit): nat {
    if d.status.Pending? || d.status.Disputed? then d.amount else 0
  }

  ghost function Deposits(e: State): map<Id, nat> {
    map id | id in e.escrows :: Outstanding(e.escrows[id])
  }

  ghost function Balances(e: State): map<Id, nat> {
    map id | id in e.sessions :: e.sessions[id].remainingBalance
  }

  ghost function Liabilities(e: State): nat {
    Sum(Deposits(e)) + Sum(Balances(e)) + e.accruedFees
  }

  lemma DepositChanged(e: State, e': State, id: Id, d: Deposit)
    requires e'.escrows == e.escrows[id := d] && e'.sessions == e.sessions
    ensures Liabilities(e') - e'.accruedFees == Liabilities(e) - e.accruedFees - Lookup(Deposits(e), id) + Outstanding(d)
  {
    SumUpdate(Deposits(e), id, Outstanding(d));
    assert Deposits(e') == Deposits(e)[id := Outstanding(d)];
    assert Balances(e') == Balances(e);
  }

  lemma SessionChanged(e: State, e': State, id: Id, s: Session)
    requires e'.sessions == e.sessions[id := s] && e'.escrows == e.escrows
    ensures Liabilities(e') - e'.accruedFees == Liabilities(e) - e.accruedFees - Lookup(Balances(e), id) + s.remainingBalance
  {
    SumUpdate(Balances(e), id, s.remainingBalance);
    assert Deposits(e') == Deposits(e);
    assert Balances(e') == Balances(e)[id := s.remainingBalance];
  }

  // ---- The reference ledger of one streaming session ----

  /** Broken marks a log no correct escrow may write. */
  datatype Account =
    | NoAccount
    | Broken
    | Account(user: Address, provider: Address, start: nat, total: nat, upfront: nat, escrowed: nat, rate: nat, net: nat, fee: nat,
              drips: nat, refund: nat, open: bool, slashed: bool)

  /** Everything the stream has paid, before the fee is taken. */
  function Gross(a: Account): nat
    requires a.Account?
  {
    a.net + a.fee
  }

  /** What an ideal stream has paid by time t: rate per second since the start, capped by the escrowed part. */
  function Streamed(a: Account, t: nat): nat
    requires a.Account? && a.start <= t
  {
    Min(a.escrowed, a.rate * (t - a.start))
  }

  ghost predicate OnSchedule(a: Account, t: nat) {
    a.Account? && a.start <= t && Gross(a) == Streamed(a, t)
  }

  ghost function Post(a: Account, x: Entry, id: Id): Account {
    match x.event
    case SessionStarted(i, user, provider, total, upfront, escrowed, rate) =>
      if i != id then a
      else if a.NoAccount? && total > 0 && rate > 0 && upfront == total * 2000 / 10000 && upfront + escrowed == total
      then Account(user, provider, x.at, total, upfront, escrowed, rate, 0, 0, 0, 0, true, false)
      else Broken
    case PaymentReleased(i, provider, net, fee, remaining) =>
      if i != id then a
      else if !a.Account? || !a.open || provider != a.provider || fee != (net + fee) * 1000 / 10000 then Broken
      else
        var a' := a.(net := a.net + net, fee := a.fee + fee, drips := a.drips + 1);
        if OnSchedule(a', x.at) && Gross(a') + remaining == a.escrowed then a' else Broken
    case ProviderSlashed(i, provider, _) =>
      if i != id then a else if a.Account? && a.open && !a.slashed && provider == a.provider then a.(slashed := true) else Broken
    case SessionStopped(i, user, refund) =>
      if i != id then a
      else if a.Account? && a.open && user == a.user && (a.slashed || OnSchedule(a, x.at)) && Gross(a) + refund == a.escrowed
      then a.(refund := refund, open := false)
      else Broken
    case _ => a
  }

  ghost function AccountOf(events: seq<Entry>, id: Id): Account {
    if events == [] then NoAccount
    else Post(AccountOf(events[..|events| - 1], id), events[|events| - 1], id)
  }

  lemma AccountAppend(events: seq<Entry>, x: Entry, id: Id)
    ensures AccountOf(events + [x], id) == Post(AccountOf(events, id), x, id)
  {
    assert (events + [x])[..|events|] == events;
  }

  /** Storage agrees with the replayed account: the whole deposit is accounted for, the stream is on schedule
      at the last payment, and rounding has cost less than one wei of fee per drip. */
  ghost predicate SessionOk(now: nat, e: State, id: Id) {
    match AccountOf(e.events, id)
    case NoAccount => id !in e.sessions
    case Broken => false
    case Account(user, provider, start, total, upfront, escrowed, rate, net, fee, drips, refund, open, slashed) =>
      && id in e.sessions
      && var a := AccountOf(e.events, id);
         var s := e.sessions[id];
      && s.user == user && s.provider == provider && s.ratePerSecond == rate && rate > 0 && s.isActive == open
      && total == upfront + net + fee + refund + s.remainingBalance
      && upfront == total * 2000 / 10000 && upfront + escrowed == total
      && s.lastPaidAt <= now && OnSchedule(a, s.lastPaidAt)
      && (if open then !slashed && refund == 0 else s.remainingBalance == 0)
      && 0 <= net + fee - 10 * fee <= 9 * drips
  }

  // ---- The reference ledger of one simple deposit ----

  /** Misused marks a log in which money left without entitlement. */
  datatype Custody =
    | NoDeposit
    | Misused
    | Holding(user: Address, provider: Address, amount: nat, at: nat, disputed: bool)
    | Settled(user: Address, provider: Address, amount: nat, at: nat, refunded: bool)

  ghost function PostDeposit(c: Custody, x: Entry, id: Id): Custody {
    match x.event
    case Deposited(i, user, provider, amount) =>
      if i != id then c
      else if c.NoDeposit? && amount > 0 then Holding(user, provider, amount, x.at, false) else Misused
    case DisputeOpened(i) =>
      if i != id then c else if c.Holding? && !c.disputed then c.(disputed := true) else Misused
    case PaidOut(i, provider, net, fee) =>
      if i != id then c
      else if c.Holding? && provider == c.provider && net + fee == c.amount && fee == c.amount * 1000 / 10000
      then Settled(c.user, c.provider, c.amount, c.at, false)
      else Misused
    case RefundedTo(i, user, amount) =>
      if i != id then c
      else if c.Holding? && user == c.user && amount == c.amount && (c.disputed || x.at >= c.at + 24 * 3600)
      then Settled(c.user, c.provider, c.amount, c.at, true)
      else Misused
    case _ => c
  }

  ghost function CustodyOf(events: seq<Entry>, id: Id): Custody {
    if events == [] then NoDeposit
    else PostDeposit(CustodyOf(events[..|events| - 1], id), events[|events| - 1], id)
  }

  lemma CustodyAppend(events: seq<Entry>, x: Entry, id: Id)
    ensures CustodyOf(events + [x], id) == PostDeposit(CustodyOf(events, id), x, id)
  {
    assert (events + [x])[..|events|] == events;
  }

  ghost predicate DepositOk(e: State, id: Id) {
    match CustodyOf(e.events, id)
    case NoDeposit => id !in e.escrows
    case Misused => false
    case Holding(user, provider, amount, at, disputed) =>
      id in e.escrows && e.escrows[id] == Deposit(user, provider, amount, at, if disputed then Disputed else Pending)
    case Settled(user, provider, amount, at, refunded) =>
      id in e.escrows && e.escrows[id] == Deposit(user, provider, amount, at, if refunded then Refunded else Released)
  }

  // ---- Who is paid ----

  /** The payment an event announces: to whom, and how much. */
  function Announced(x: Event): seq<Payout> {
    match x
    case PaidOut(_, provider, net, _) => Payment(provider, net)
    case RefundedTo(_, user, amount) => Payment(user, amount)
    case FeesWithdrawn(to, amount) => Payment(to, amount)
    case SessionStarted(_, _, provider, _, upfront, _, _) => Payment(provider, upfront)
    case PaymentReleased(_, provider, net, _, _) => Payment(provider, net)
    case SessionStopped(_, user, refund) => Payment(user, refund)
    case _ => []
  }

  ghost function Named(events: seq<Entry>): seq<Payout> {
    if events == [] then [] else Named(events[..|events| - 1]) + Announced(events[|events| - 1].event)
  }

  lemma NamedAppend(events: seq<Entry>, x: Entry)
    ensures Named(events + [x]) == Named(events) + Announced(x.event)
  {
    assert (events + [x])[..|events|] == events;
  }

  // ---- How storage may change ----

  /** Terms never change; Released and Refunded are final; Disputed only leads to them. */
  predicate Later(d: Deposit, d': Deposit) {
    && d.user == d'.user && d.provider == d'.provider && d.amount == d'.amount && d.depositedAt == d'.depositedAt
    && (d.status == d'.status || d.status.Pending? || (d.status.Disputed? && !d'.status.Pending?))
  }

  predicate SameTerms(s: Session, s': Session) {
    && s.user == s'.user && s.provider == s'.provider && s.ratePerSecond == s'.ratePerSecond
    && s'.remainingBalance <= s.remainingBalance && s.lastPaidAt <= s'.lastPaidAt && (s'.isActive ==> s.isActive)
  }

  ghost predicate Grows(e: State, e': State) {
    && e.events <= e'.events
    && (forall id | id in e.escrows :: id in e'.escrows && Later(e.escrows[id], e'.escrows[id]))
    && (forall id | id in e.sessions :: id in e'.sessions && SameTerms(e.sessions[id], e'.sessions[id]))
  }

  ghost predicate Keeps(now: nat, e: State, e': State) {
    && (forall id :: SessionOk(now, e, id) ==> SessionOk(now, e', id))
    && (forall id :: DepositOk(e, id) ==> DepositOk(e', id))
  }

  /** What stays while the guard is held: only dispute and the setters can run. */
  ghost predicate Frozen(e: State, e': State) {
    && e'.sessions == e.sessions && e'.accruedFees == e.accruedFees && e'.escrows.Keys == e.escrows.Keys
    && forall id | id in e.escrows ::
         e'.escrows[id] == e.escrows[id] || (e.escrows[id].status.Pending? && e'.escrows[id] == e.escrows[id].(status := Disputed))
  }

  /** Money set aside for a payment that is still to be made. */
  function Owing(k: Kont): nat {
    match k
    case RefundAfterSlash(_, amount) => amount
    case _ => 0
  }

  predicate KontOk(e: State, now: nat, k: Kont) {
    k.FinishStop? ==> Active(e, k.id) && e.sessions[k.id].lastPaidAt == now
  }

  /** The payment set aside, and for whom. */
  function Due(k: Kont): seq<Payout> {
    match k
    case RefundAfterSlash(user, amount) => Payment(user, amount)
    case _ => []
  }

  /** Whom a step pays, after the payments in `trail` have been made: exactly those its events announce, in order. Fees
      go to the owner, and the provider slashed is the one the event names. */
  ghost predicate Addressed(e: State, trail: seq<Payout>, step: Step) {
    match step
    case Revert => true
    case Return(e') => Named(e'.events) == trail
    case Pay(e', to, amount, k) =>
      && Named(e'.events) == trail + (Payment(to, amount) + Due(k))
      && e'.events != [] && (e'.events[|e'.events| - 1].event.FeesWithdrawn? && e'.events != e.events ==> to == e.owner)
    case Slash(e', provider, evidence, k) =>
      && Named(e'.events) == trail + Due(k)
      && |e'.events| > |e.events| && e'.events[|e.events|].event.ProviderSlashed?
      && e'.events[|e.events|].event.provider == provider && e'.events[|e.events|].event.evidence == evidence
  }

  /** A step that started in e owing `total`: the ledgers are kept and every wei is either owed or on its way out. */
  ghost predicate Booked(now: nat, e: State, total: nat, step: Step) {
    match step
    case Revert => true
    case Return(e') => Grows(e, e') && Keeps(now, e, e') && Liabilities(e') == total
    case Pay(e', _, amount, k) =>
      && e'.entered && Grows(e, e') && Keeps(now, e, e') && KontOk(e', now, k)
      && Liabilities(e') + amount + Owing(k) == total
    case Slash(e', _, _, k) =>
      && e'.entered && Grows(e, e') && Keeps(now, e, e') && k.RefundAfterSlash?
      && Liabilities(e') + Owing(k) == total
  }

  /** Both: the books are kept, and the money goes to whom the events name. */
  ghost predicate StepSound(now: nat, e: State, total: nat, trail: seq<Payout>, step: Step) {
    Booked(now, e, total, step) && Addressed(e, trail, step)
  }
}
