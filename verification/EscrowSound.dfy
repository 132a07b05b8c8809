/** Every step of DeploymentEscrow keeps the ledgers: one lemma a function, then Begin and Resume as wholes. */
module EscrowSound {
  import opened Common
  import opened EscrowSpec
  import opened EscrowLedger

  lemma GrowsTransitive(a: State, b: State, c: State)
    requires Grows(a, b) && Grows(b, c)
    ensures Grows(a, c)
  {
  }

  lemma FrozenTransitive(a: State, b: State, c: State)
    requires Frozen(a, b) && Frozen(b, c)
    ensures Frozen(a, c)
  {
  }

  lemma SameLiabilities(e: State, e': State)
    requires e'.escrows == e.escrows && e'.sessions == e.sessions
    ensures Liabilities(e') - e'.accruedFees == Liabilities(e) - e.accruedFees
  {
    assert Deposits(e') == Deposits(e);
    assert Balances(e') == Balances(e);
  }

  /** An event that concerns no id, or none at all: only settings, fees and the guard have changed. */
  lemma SettingsOnly(now: nat, e: State, e': State, x: Entry)
    requires e'.escrows == e.escrows && e'.sessions == e.sessions
    requires e'.events == e.events || e'.events == e.events + [x]
    requires x.event.FeesWithdrawn? || x.event.AuthorityUpdated?
    ensures Grows(e, e') && Keeps(now, e, e') && Frozen(e, e'.(accruedFees := e.accruedFees))
    ensures Liabilities(e') - e'.accruedFees == Liabilities(e) - e.accruedFees
  {
    SameLiabilities(e, e');
    forall id
      ensures SessionOk(now, e, id) ==> SessionOk(now, e', id)
      ensures DepositOk(e, id) ==> DepositOk(e', id)
    {
      AccountAppend(e.events, x, id);
      CustodyAppend(e.events, x, id);
    }
  }

  /** One deposit record changes, and the event says how. */
  lemma DepositStep(now: nat, e: State, e': State, x: Entry, id: Id)
    requires id in e'.escrows && e'.escrows == e.escrows[id := e'.escrows[id]] && e'.sessions == e.sessions
    requires e'.events == e.events + [x]
    requires x.event.Deposited? || x.event.PaidOut? || x.event.RefundedTo? || x.event.DisputeOpened?
    requires x.event.id == id
    requires id in e.escrows ==> Later(e.escrows[id], e'.escrows[id])
    requires DepositOk(e, id) ==> DepositOk(e', id)
    ensures Grows(e, e') && Keeps(now, e, e')
  {
    forall i
      ensures SessionOk(now, e, i) ==> SessionOk(now, e', i)
      ensures DepositOk(e, i) ==> DepositOk(e', i)
    {
      AccountAppend(e.events, x, i);
      CustodyAppend(e.events, x, i);
    }
  }

  /** One session record changes, and the event says how. */
  lemma SessionStep(now: nat, e: State, e': State, x: Entry, id: Id)
    requires id in e'.sessions && e'.sessions == e.sessions[id := e'.sessions[id]] && e'.escrows == e.escrows
    requires e'.events == e.events + [x]
    requires x.event.SessionStarted? || x.event.PaymentReleased? || x.event.SessionStopped? || x.event.ProviderSlashed?
    requires x.event.id == id
    requires id in e.sessions ==> SameTerms(e.sessions[id], e'.sessions[id])
    requires SessionOk(now, e, id) ==> SessionOk(now, e', id)
    ensures Grows(e, e') && Keeps(now, e, e')
  {
    forall i
      ensures SessionOk(now, e, i) ==> SessionOk(now, e', i)
      ensures DepositOk(e, i) ==> DepositOk(e', i)
    {
      AccountAppend(e.events, x, i);
      CustodyAppend(e.events, x, i);
    }
  }

  // ---- Simple escrow ----

  lemma MakeDepositSound(e: State, m: Msg, id: Id, provider: Address)
    ensures Booked(m.now, e, Liabilities(e) + m.value, MakeDeposit(e, m, id, provider))
  {
    match MakeDeposit(e, m, id, provider)
    case Return(e') =>
      var x := Entry(m.now, Deposited(id, m.sender, provider, m.value));
      CustodyAppend(e.events, x, id);
      DepositStep(m.now, e, e', x, id);
      DepositChanged(e, e', id, e'.escrows[id]);
    case _ =>
  }

  lemma RefundedSound(e: State, m: Msg, id: Id)
    requires id in e.escrows
    requires e.escrows[id].status.Disputed?
             || (e.escrows[id].status.Pending? && m.now >= e.escrows[id].depositedAt + LOCKUP_PERIOD)
    ensures var d := e.escrows[id];
            var e' := Emit(SetStatus(e, id, Refunded), m.now, RefundedTo(id, d.user, d.amount));
            Grows(e, e') && Keeps(m.now, e, e') && Liabilities(e') + d.amount == Liabilities(e)
  {
    var d := e.escrows[id];
    var x := Entry(m.now, RefundedTo(id, d.user, d.amount));
    var e' := Emit(SetStatus(e, id, Refunded), m.now, x.event);
    CustodyAppend(e.events, x, id);
    DepositStep(m.now, e, e', x, id);
    DepositChanged(e, e', id, e'.escrows[id]);
  }

  lemma PayProviderSound(e: State, m: Msg, id: Id)
    requires e.entered && id in e.escrows && (e.escrows[id].status.Pending? || e.escrows[id].status.Disputed?)
    ensures Booked(m.now, e, Liabilities(e), PayProvider(e, m, id))
  {
    match PayProvider(e, m, id)
    case Pay(e', to, amount, k) =>
      var d := e.escrows[id];
      var x := Entry(m.now, PaidOut(id, d.provider, amount, d.amount - amount));
      CustodyAppend(e.events, x, id);
      DepositStep(m.now, e, e', x, id);
      DepositChanged(e, e', id, e'.escrows[id]);
    case _ =>
  }

  lemma OpenDisputeSound(e: State, m: Msg, id: Id)
    ensures Booked(m.now, e, Liabilities(e), OpenDispute(e, m, id))
    ensures OpenDispute(e, m, id).Return? ==> Frozen(e, OpenDispute(e, m, id).e)
  {
    match OpenDispute(e, m, id)
    case Return(e') =>
      var x := Entry(m.now, DisputeOpened(id));
      CustodyAppend(e.events, x, id);
      DepositStep(m.now, e, e', x, id);
      DepositChanged(e, e', id, e'.escrows[id]);
    case _ =>
  }

  // ---- Streaming ----

  lemma StartSound(e: State, m: Msg, id: Id, provider: Address, rate: nat)
    requires e.entered
    ensures Booked(m.now, e, Liabilities(e) + m.value, Start(e, m, id, provider, rate))
  {
    match Start(e, m, id, provider, rate)
    case Pay(e', to, upfront, k) =>
      var x := Entry(m.now, SessionStarted(id, m.sender, provider, m.value, upfront, m.value - upfront, rate));
      AccountAppend(e.events, x, id);
      SessionStep(m.now, e, e', x, id);
      SessionChanged(e, e', id, e'.sessions[id]);
    case _ =>
  }

  /** Paying what is owed at t keeps an ideal stream ideal, also when the cap makes that nothing. */
  lemma ScheduleStep(escrowed: nat, rate: nat, start: nat, last: nat, t: nat, paid: nat)
    requires start <= last <= t && paid == Min(escrowed, rate * (last - start))
    ensures paid + Min((t - last) * rate, escrowed - paid) == Min(escrowed, rate * (t - start))
  {
    assert rate * (t - start) == rate * (last - start) + (t - last) * rate;
  }

  lemma DripOnSchedule(now: nat, e: State, id: Id)
    requires Active(e, id) && SessionOk(now, e, id) && Owed(e.sessions[id], now).Some?
    ensures var a := AccountOf(e.events, id);
            a.Account? && a.start <= now && a.open
            && Gross(a) + Owed(e.sessions[id], now).value == Streamed(a, now)
  {
    var a := AccountOf(e.events, id);
    ScheduleStep(a.escrowed, a.rate, a.start, e.sessions[id].lastPaidAt, now, Gross(a));
  }

  lemma CloseSound(now: nat, e: State, id: Id)
    requires Active(e, id)
    requires SessionOk(now, e, id) ==> var a := AccountOf(e.events, id); OnSchedule(a, now)
    ensures var e' := Close(e, now, id);
            Grows(e, e') && Keeps(now, e, e') && Liabilities(e') + e.sessions[id].remainingBalance == Liabilities(e)
  {
    var s := e.sessions[id];
    var e' := Close(e, now, id);
    var x := Entry(now, SessionStopped(id, s.user, s.remainingBalance));
    AccountAppend(e.events, x, id);
    SessionStep(now, e, e', x, id);
    SessionChanged(e, e', id, e'.sessions[id]);
  }

  lemma PayIfAnySound(now: nat, e0: State, e: State, to: Address, amount: nat)
    requires e.entered && Grows(e0, e) && Keeps(now, e0, e)
    ensures Booked(now, e0, Liabilities(e) + amount, PayIfAny(e, to, amount))
  {
    SettingsOnly(now, e, e.(entered := false), Entry(now, FeesWithdrawn(Zero, 0)));
    GrowsTransitive(e0, e, e.(entered := false));
  }

  lemma ResumeBooked(e: State, now: nat, k: Kont)
    requires e.entered && KontOk(e, now, k)
    ensures Booked(now, e, Liabilities(e) + Owing(k), Resume(e, now, k))
  {
    match k
    case Exit => SettingsOnly(now, e, e.(entered := false), Entry(now, FeesWithdrawn(Zero, 0)));
    case RefundAfterSlash(user, amount) => PayIfAnySound(now, e, e, user, amount);
    case FinishStop(id) =>
      CloseSound(now, e, id);
      PayIfAnySound(now, e, Close(e, now, id), e.sessions[id].user, e.sessions[id].remainingBalance);
  }

  /** The arithmetic of one drip: what the account records is what the stream owes, and the fee rounds down. */
  lemma DripAccount(a: Account, s: Session, now: nat, id: Id, owed: nat, x: Entry)
    requires a.Account? && a.open && a.provider == s.provider && a.start <= now && Gross(a) + owed == Streamed(a, now) && 0 < owed <= s.remainingBalance
    requires Gross(a) + s.remainingBalance == a.escrowed
    requires x == Entry(now, PaymentReleased(id, s.provider, owed - owed * 1000 / 10000, owed * 1000 / 10000,
                                             s.remainingBalance - owed))
    ensures var fee := owed * 1000 / 10000;
            Post(a, x, id) == a.(net := a.net + (owed - fee), fee := a.fee + fee, drips := a.drips + 1)
    ensures OnSchedule(Post(a, x, id), now) && 0 <= owed - 10 * (owed * 1000 / 10000) <= 9
  {
  }

  lemma DripKeepsSession(e: State, e': State, now: nat, id: Id, owed: nat, x: Entry)
    requires SessionOk(now, e, id) && Active(e, id) && Owed(e.sessions[id], now) == Some(owed) && owed > 0
    requires e'.events == e.events + [x] && id in e'.sessions
    requires e'.sessions[id] == e.sessions[id].(remainingBalance := e.sessions[id].remainingBalance - owed, lastPaidAt := now)
    requires x == Entry(now, PaymentReleased(id, e.sessions[id].provider, owed - owed * 1000 / 10000, owed * 1000 / 10000,
                                             e'.sessions[id].remainingBalance))
    ensures SessionOk(now, e', id)
  {
    AccountAppend(e.events, x, id);
    DripOnSchedule(now, e, id);
    DripAccount(AccountOf(e.events, id), e.sessions[id], now, id, owed, x);
  }

  lemma PaidDripSound(e: State, now: nat, id: Id, k: Kont)
    requires e.entered && Active(e, id) && (k == Exit || k == FinishStop(id))
    requires Owed(e.sessions[id], now).Some? && Owed(e.sessions[id], now).value > 0
    ensures Booked(now, e, Liabilities(e), Drip(e, now, id, k))
  {
    match Drip(e, now, id, k)
    case Pay(e', to, net, _) =>
      var s := e.sessions[id];
      var owed := Owed(s, now).value;
      var x := Entry(now, PaymentReleased(id, s.provider, net, owed - net, s.remainingBalance - owed));
      if SessionOk(now, e, id) {
        DripKeepsSession(e, e', now, id, owed, x);
      }
      SessionStep(now, e, e', x, id);
      SessionChanged(e, e', id, e'.sessions[id]);
    case _ =>
  }

  lemma DripSound(e: State, now: nat, id: Id, k: Kont)
    requires e.entered && Active(e, id) && (k == Exit || k == FinishStop(id))
    ensures Booked(now, e, Liabilities(e), Drip(e, now, id, k))
  {
    match Owed(e.sessions[id], now)
    case None =>
    case Some(owed) =>
      if owed > 0 {
        PaidDripSound(e, now, id, k);
      } else if k == Exit {
        ResumeBooked(e, now, k);
      } else {
        if SessionOk(now, e, id) {
          DripOnSchedule(now, e, id);
        }
        CloseSound(now, e, id);
        PayIfAnySound(now, e, Close(e, now, id), e.sessions[id].user, e.sessions[id].remainingBalance);
      }
  }

  lemma SlashedKeepsSession(now: nat, e: State, id: Id, evidence: nat, i: Id)
    requires Active(e, id) && SessionOk(now, e, i)
    ensures SessionOk(now, Close(Emit(e, now, ProviderSlashed(id, e.sessions[id].provider, evidence)), now, id), i)
  {
    var s := e.sessions[id];
    var x := Entry(now, ProviderSlashed(id, s.provider, evidence));
    AccountAppend(e.events, x, i);
    AccountAppend(e.events + [x], Entry(now, SessionStopped(id, s.user, s.remainingBalance)), i);
  }

  lemma SlashedKeepsDeposit(now: nat, e: State, id: Id, evidence: nat, i: Id)
    requires Active(e, id) && DepositOk(e, i)
    ensures DepositOk(Close(Emit(e, now, ProviderSlashed(id, e.sessions[id].provider, evidence)), now, id), i)
  {
    var s := e.sessions[id];
    var x := Entry(now, ProviderSlashed(id, s.provider, evidence));
    CustodyAppend(e.events, x, i);
    CustodyAppend(e.events + [x], Entry(now, SessionStopped(id, s.user, s.remainingBalance)), i);
  }

  lemma SlashedKeeps(now: nat, e: State, id: Id, evidence: nat)
    requires Active(e, id)
    ensures var e' := Close(Emit(e, now, ProviderSlashed(id, e.sessions[id].provider, evidence)), now, id);
            Grows(e, e') && Keeps(now, e, e')
  {
    var e' := Close(Emit(e, now, ProviderSlashed(id, e.sessions[id].provider, evidence)), now, id);
    forall i
      ensures (SessionOk(now, e, i) ==> SessionOk(now, e', i)) && (DepositOk(e, i) ==> DepositOk(e', i))
    {
      if SessionOk(now, e, i) {
        SlashedKeepsSession(now, e, id, evidence, i);
      }
      if DepositOk(e, i) {
        SlashedKeepsDeposit(now, e, id, evidence, i);
      }
    }
  }

  lemma SlashSessionSound(e: State, m: Msg, id: Id, evidence: nat)
    requires e.entered
    ensures Booked(m.now, e, Liabilities(e), SlashSession(e, m, id, evidence))
  {
    match SlashSession(e, m, id, evidence)
    case Slash(e', provider, _, _) =>
      SlashedKeeps(m.now, e, id, evidence);
      SessionChanged(e, e', id, e'.sessions[id]);
    case _ =>
  }

  // ---- Who is paid ----

  lemma OneMoreEvent(e: State, e': State, x: Entry)
    requires e'.events == e.events + [x]
    ensures Named(e'.events) == Named(e.events) + Announced(x.event) && e'.events[|e'.events| - 1] == x
    ensures Named(e.events) + [] == Named(e.events)
  {
    NamedAppend(e.events, x);
  }

  /** A payment announced by the only new event. */
  lemma AnnouncedPay(e: State, e': State, x: Entry, to: Address, amount: nat, k: Kont)
    requires e'.events == e.events + [x] && Announced(x.event) == Payment(to, amount) && Due(k) == []
    requires x.event.FeesWithdrawn? ==> to == e.owner
    ensures Addressed(e, Named(e.events), Pay(e', to, amount, k))
  {
    OneMoreEvent(e, e', x);
    assert Payment(to, amount) + [] == Payment(to, amount);
  }

  lemma PayProviderAddressed(e: State, m: Msg, id: Id)
    requires id in e.escrows
    ensures Addressed(e, Named(e.events), PayProvider(e, m, id))
  {
    match PayProvider(e, m, id)
    case Pay(e', to, amount, k) =>
      var d := e.escrows[id];
      AnnouncedPay(e, e', Entry(m.now, PaidOut(id, d.provider, amount, d.amount - amount)), to, amount, k);
    case _ =>
  }

  lemma RefundAddressed(e: State, m: Msg, id: Id, k: Kont)
    requires id in e.escrows && Due(k) == []
    ensures var d := e.escrows[id];
            Addressed(e, Named(e.events),
                      Pay(Emit(SetStatus(e, id, Refunded), m.now, RefundedTo(id, d.user, d.amount)), d.user, d.amount, k))
  {
    var d := e.escrows[id];
    AnnouncedPay(e, Emit(SetStatus(e, id, Refunded), m.now, RefundedTo(id, d.user, d.amount)),
                 Entry(m.now, RefundedTo(id, d.user, d.amount)), d.user, d.amount, k);
  }

  lemma StartAddressed(e: State, m: Msg, id: Id, provider: Address, rate: nat)
    ensures Addressed(e, Named(e.events), Start(e, m, id, provider, rate))
  {
    match Start(e, m, id, provider, rate)
    case Pay(e', to, amount, k) => AnnouncedPay(e, e', e'.events[|e'.events| - 1], to, amount, k);
    case _ =>
  }

  /** Closing names the refund; what follows pays it, if there is any. */
  lemma CloseAddressed(e: State, now: nat, id: Id)
    requires id in e.sessions
    ensures Addressed(e, Named(e.events), PayIfAny(Close(e, now, id), e.sessions[id].user, e.sessions[id].remainingBalance))
  {
    var s := e.sessions[id];
    OneMoreEvent(e, Close(e, now, id), Entry(now, SessionStopped(id, s.user, s.remainingBalance)));
    assert Payment(s.user, s.remainingBalance) + [] == Payment(s.user, s.remainingBalance);
  }

  lemma ResumeAddressed(e: State, now: nat, k: Kont, trail: seq<Payout>)
    requires Named(e.events) == trail + Due(k) && (k.RefundAfterSlash? ==> e.events != [])
    ensures Addressed(e, trail, Resume(e, now, k))
  {
    assert trail + [] == trail;
    match k
    case FinishStop(id) => if id in e.sessions { CloseAddressed(e, now, id); }
    case RefundAfterSlash(user, amount) => assert Payment(user, amount) + [] == Payment(user, amount);
    case Exit =>
  }

  lemma DripAddressed(e: State, now: nat, id: Id, k: Kont)
    requires id in e.sessions && !k.RefundAfterSlash?
    ensures Addressed(e, Named(e.events), Drip(e, now, id, k))
  {
    OneMoreEvent(e, Emit(e, now, DisputeOpened(id)), Entry(now, DisputeOpened(id)));
    ResumeAddressed(e, now, k, Named(e.events));
    match Drip(e, now, id, k)
    case Pay(e', to, amount, k') =>
      if Owed(e.sessions[id], now) != Some(0) {
        AnnouncedPay(e, e', e'.events[|e'.events| - 1], to, amount, k');
      }
    case _ =>
  }

  lemma SlashAddressed(e: State, m: Msg, id: Id, evidence: nat)
    ensures Addressed(e, Named(e.events), SlashSession(e, m, id, evidence))
  {
    match SlashSession(e, m, id, evidence)
    case Slash(_, _, _, _) =>
      var s := e.sessions[id];
      var slashed := Emit(e, m.now, ProviderSlashed(id, s.provider, evidence));
      OneMoreEvent(e, slashed, Entry(m.now, ProviderSlashed(id, s.provider, evidence)));
      OneMoreEvent(slashed, Close(slashed, m.now, id), Entry(m.now, SessionStopped(id, s.user, s.remainingBalance)));
    case _ =>
  }

  lemma WithdrawAddressed(e: State, m: Msg)
    ensures Addressed(e, Named(e.events), Withdraw(e, m))
  {
    match Withdraw(e, m)
    case Pay(e', to, amount, k) => AnnouncedPay(e, e', Entry(m.now, FeesWithdrawn(e.owner, e.accruedFees)), to, amount, k);
    case _ =>
  }

  lemma MakeDepositAddressed(e: State, m: Msg, id: Id, provider: Address)
    ensures Addressed(e, Named(e.events), MakeDeposit(e, m, id, provider))
  {
    match MakeDeposit(e, m, id, provider)
    case Return(e') => OneMoreEvent(e, e', Entry(m.now, Deposited(id, m.sender, provider, m.value)));
    case _ =>
  }

  /** Every guarded function pays exactly whom its events name. */
  lemma GuardedAddressed(e: State, m: Msg, c: Call)
    ensures Addressed(e, Named(e.events), Guarded(e, m, c))
  {
    match c
    case DepositFor(id, provider) => MakeDepositAddressed(e, m, id, provider);
    case Refund(id) => if RefundDeposit(e, m, id).Pay? { RefundAddressed(e, m, id, Exit); }
    case Release(id) => if ReleaseDeposit(e, m, id).Pay? { PayProviderAddressed(e, m, id); }
    case ResolveDispute(id, toProvider) =>
      if Resolve(e, m, id, toProvider).Pay? {
        if toProvider { PayProviderAddressed(e, m, id); } else { RefundAddressed(e, m, id, Exit); }
      }
    case StartSession(id, provider, rate) => StartAddressed(e, m, id, provider, rate);
    case ReleasePayment(id) => if Active(e, id) { DripAddressed(e, m.now, id, Exit); }
    case SubmitProof(id) => if Active(e, id) { DripAddressed(e, m.now, id, Exit); }
    case StopSession(id) => if Active(e, id) { DripAddressed(e, m.now, id, FinishStop(id)); }
    case SlashProvider(id, evidence) => SlashAddressed(e, m, id, evidence);
    case WithdrawFees => WithdrawAddressed(e, m);
    case _ =>
  }

  /** Dispute and the setters pay nobody. */
  lemma UnguardedAddressed(e: State, m: Msg, c: Call)
    requires c.Dispute? || c.SetReleaseAuthority? || c.SetProofAuthority? || c.TransferOwnership? || c.RenounceOwnership?
    ensures Addressed(e, Named(e.events), Begin(e, m, c))
  {
    match Begin(e, m, c)
    case Return(e') =>
      if e'.events != e.events {
        OneMoreEvent(e, e', e'.events[|e'.events| - 1]);
      }
    case _ =>
  }

  lemma BeginAddressed(e: State, m: Msg, c: Call)
    ensures Addressed(e, Named(e.events), Begin(e, m, c))
  {
    if c.Dispute? || c.SetReleaseAuthority? || c.SetProofAuthority? || c.TransferOwnership? || c.RenounceOwnership? {
      UnguardedAddressed(e, m, c);
    } else if !Begin(e, m, c).Revert? {
      GuardedAddressed(e.(entered := true), m, c);
    }
  }

  // ---- Whole calls ----

  lemma WithdrawSound(e: State, m: Msg)
    requires e.entered
    ensures Booked(m.now, e, Liabilities(e), Withdraw(e, m))
  {
    match Withdraw(e, m)
    case Pay(e', to, amount, _) => SettingsOnly(m.now, e, e', Entry(m.now, FeesWithdrawn(e.owner, e.accruedFees)));
    case _ =>
  }

  lemma GuardedSound(e: State, m: Msg, c: Call)
    requires e.entered && (m.value == 0 || c.DepositFor? || c.StartSession?)
    ensures Booked(m.now, e, Liabilities(e) + m.value, Guarded(e, m, c))
  {
    match c
    case DepositFor(id, provider) => MakeDepositSound(e, m, id, provider);
    case Refund(id) => if RefundDeposit(e, m, id).Pay? { RefundedSound(e, m, id); }
    case Release(id) => if ReleaseDeposit(e, m, id).Pay? { PayProviderSound(e, m, id); }
    case ResolveDispute(id, toProvider) =>
      if Resolve(e, m, id, toProvider).Pay? {
        if toProvider { PayProviderSound(e, m, id); } else { RefundedSound(e, m, id); }
      }
    case StartSession(id, provider, rate) => StartSound(e, m, id, provider, rate);
    case ReleasePayment(id) => if Active(e, id) { DripSound(e, m.now, id, Exit); }
    case SubmitProof(id) => if Active(e, id) { DripSound(e, m.now, id, Exit); }
    case StopSession(id) => if Active(e, id) { DripSound(e, m.now, id, FinishStop(id)); }
    case SlashProvider(id, evidence) => SlashSessionSound(e, m, id, evidence);
    case WithdrawFees => WithdrawSound(e, m);
    case _ =>
  }

  lemma GuardedBeginSound(e: State, m: Msg, c: Call)
    requires !e.entered && (m.value == 0 || c.DepositFor? || c.StartSession?)
    ensures Booked(m.now, e, Liabilities(e) + m.value, Guarded(e.(entered := true), m, c))
  {
    var taken := e.(entered := true);
    SettingsOnly(m.now, e, taken, Entry(m.now, FeesWithdrawn(Zero, 0)));
    GuardedSound(taken, m, c);
    match Guarded(taken, m, c)
    case Revert =>
    case Return(e') => GrowsTransitive(e, taken, e');
    case Pay(e', _, _, _) => GrowsTransitive(e, taken, e');
    case Slash(e', _, _, _) => GrowsTransitive(e, taken, e');
  }

  lemma GuardReturned(e: State, m: Msg, c: Call)
    requires Guarded(e, m, c).Return?
    ensures !Guarded(e, m, c).e.entered
  {
  }

  /** Functions without the guard only ever return, and touch nothing but settings and Pending deposits. */
  lemma UnguardedSound(e: State, m: Msg, c: Call)
    requires c.Dispute? || c.SetReleaseAuthority? || c.SetProofAuthority? || c.TransferOwnership? || c.RenounceOwnership?
    ensures Booked(m.now, e, Liabilities(e) + m.value, Begin(e, m, c))
    ensures !Begin(e, m, c).Revert? ==>
              Begin(e, m, c).Return? && Begin(e, m, c).e.entered == e.entered && Frozen(e, Begin(e, m, c).e)
  {
    match Begin(e, m, c)
    case Return(e') =>
      if c.Dispute? {
        OpenDisputeSound(e, m, c.id);
      } else {
        SettingsOnly(m.now, e, e', if e'.events == e.events then Entry(m.now, FeesWithdrawn(Zero, 0)) else Entry(m.now, AuthorityUpdated(c.newAuthority)));
      }
    case _ =>
  }

  /** Entering the contract: sound when the guard is free; when it is held, everything but dispute and the setters reverts. */
  lemma BeginBooked(e: State, m: Msg, c: Call)
    ensures Booked(m.now, e, Liabilities(e) + m.value, Begin(e, m, c))
    ensures e.entered && !Begin(e, m, c).Revert? ==>
              Begin(e, m, c).Return? && Begin(e, m, c).e.entered && Frozen(e, Begin(e, m, c).e)
    ensures !e.entered && Begin(e, m, c).Return? ==> !Begin(e, m, c).e.entered
  {
    if c.Dispute? || c.SetReleaseAuthority? || c.SetProofAuthority? || c.TransferOwnership? || c.RenounceOwnership? {
      UnguardedSound(e, m, c);
    } else if !Begin(e, m, c).Revert? {
      GuardedBeginSound(e, m, c);
      if Begin(e, m, c).Return? {
        GuardReturned(e.(entered := true), m, c);
      }
    }
  }

  /** The same with the payees: from any state, each payment goes to the address and for the amount its event names. */
  lemma BeginSound(e: State, m: Msg, c: Call)
    ensures StepSound(m.now, e, Liabilities(e) + m.value, Named(e.events), Begin(e, m, c))
    ensures e.entered && !Begin(e, m, c).Revert? ==>
              Begin(e, m, c).Return? && Begin(e, m, c).e.entered && Frozen(e, Begin(e, m, c).e)
    ensures !e.entered && Begin(e, m, c).Return? ==> !Begin(e, m, c).e.entered
  {
    BeginBooked(e, m, c);
    BeginAddressed(e, m, c);
  }

  /** Carrying on after a payment: the payments made so far are those announced, less the one that is still due. */
  lemma ResumeSound(e: State, now: nat, k: Kont, trail: seq<Payout>)
    requires e.entered && KontOk(e, now, k) && Named(e.events) == trail + Due(k) && (k.RefundAfterSlash? ==> e.events != [])
    ensures StepSound(now, e, Liabilities(e) + Owing(k), trail, Resume(e, now, k))
  {
    ResumeBooked(e, now, k);
    ResumeAddressed(e, now, k, trail);
  }
}
