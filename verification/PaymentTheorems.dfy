/** What the three contracts have sent, and to whom: over whole runs, and by each call that completes. */
module PaymentTheorems {
  import opened Common
  import opened Machine
  import opened Guarantee
  import opened ChainTheorems
  import opened Payments
  import Escrow = EscrowSpec
  import EL = EscrowLedger
  import Registry = RegistrySpec
  import RS = RegistrySound
  import AS = AuctionSound

  // ---- Over whole runs ----

  lemma {:induction false} RunTraced(w: World, blocks: seq<Block>)
    ensures TracedDone(w, Run(w, blocks))
    decreases |blocks|
  {
    if blocks == [] {
      TracedSelf(w);
    } else {
      var front, b := blocks[..|blocks| - 1], blocks[|blocks| - 1];
      var u := Run(w, front);
      RunTraced(w, front);
      SameContracts(u, Tick(u, b.wait));
      TracedThen(w, u, Tick(u, b.wait), false, [], false, false);
      StepTraced(Tick(u, b.wait), b.tx);
      TracedThen(w, Tick(u, b.wait), Run(w, blocks), false, [], false, false);
    }
  }

  /** Over every run, everything that has left a contract is what its events announced: the same payees and amounts, in
      the same order. The escrow has never paid a contract, and every awarded job is backed by its session. */
  lemma PaidAsAnnounced(w: World)
    requires Reachable(w)
    ensures OutOf(w.transfers, EscrowContract) == EL.Named(w.escrow.events)
    ensures OutOf(w.transfers, RegistryContract) == RS.Named(w.registry.events)
    ensures OutOf(w.transfers, AuctionContract) == AS.Named(w.auction.events)
    ensures Proper(w.transfers) && Backed(w)
  {
    var start, blocks :| Genesis(start) && w == Run(start, blocks);
    RunTraced(start, blocks);
    assert forall x: Address :: OutOf(w.transfers, x) + [] == OutOf(w.transfers, x);
  }

  /** An awarded job has its session: opened by the auction for the winner, at the winning rate. */
  lemma AwardHasItsSession(w: World, id: Id)
    requires Reachable(w) && id in w.auction.jobs && w.auction.jobs[id].status.Awarded?
    ensures id in w.escrow.sessions
    ensures var j, s := w.auction.jobs[id], w.escrow.sessions[id];
            s.user == AuctionContract && s.provider == j.winningProvider && s.ratePerSecond == j.winningRatePerSecond
    ensures var a := EL.AccountOf(w.escrow.events, id);
            a.Account? && a.user == AuctionContract && a.provider == w.auction.jobs[id].winningProvider && a.upfront == a.total / 5
  {
    PaidAsAnnounced(w);
    assert BackedJob(w, id);
    ReachableInv(w);
    assert EL.SessionOk(w.now, w.escrow, id);
  }

  /** The payment an event announces stands in the trail right after those announced before it. */
  lemma {:induction false} AnnouncedAt(events: seq<Escrow.Entry>, k: nat)
    requires k < |events|
    ensures EL.Named(events[..k]) + EL.Announced(events[k].event) <= EL.Named(events)
    decreases |events|
  {
    var front := events[..|events| - 1];
    if k < |front| {
      AnnouncedAt(front, k);
      assert front[..k] == events[..k];
    }
  }

  // ---- By one completed call ----

  /** While the guard is held the receiver's code changes neither what the contract has sent nor what it has announced. */
  lemma HeldTrail(c: World, r: Reaction, u: World)
    requires React(c, r) == Some(u)
    ensures c.escrow.entered ==> OutOf(u.transfers, EscrowContract) == OutOf(c.transfers, EscrowContract)
    ensures c.registry.entered ==> OutOf(u.transfers, RegistryContract) == OutOf(c.transfers, RegistryContract)
    ensures c.auction.entered && AuctionFunded(c) ==> OutOf(u.transfers, AuctionContract) == OutOf(c.transfers, AuctionContract)
    ensures c.transfers <= u.transfers
  {
    ReactTraced(c, r);
  }

  /** A call in progress has just sent `amount` from `from` to `to`, and whoever received it is done. */
  lemma SentThenHeld(p: Pause, r: Reaction, u: World)
    requires p.Calling? && Send(p.w, p.from, p.to, p.amount, r) == Some(u)
    ensures p.from.EscrowContract? && p.w.escrow.entered ==>
              OutOf(u.transfers, EscrowContract) == OutOf(p.w.transfers, EscrowContract) + Payment(p.to, p.amount)
    ensures p.from.RegistryContract? && p.w.registry.entered ==>
              OutOf(u.transfers, RegistryContract) == OutOf(p.w.transfers, RegistryContract) + Payment(p.to, p.amount)
    ensures !p.from.EscrowContract? && p.w.escrow.entered ==>
              OutOf(u.transfers, EscrowContract) == OutOf(p.w.transfers, EscrowContract)
    ensures Recorded(p.w.transfers, p.from, p.to, p.amount) <= u.transfers
  {
    ContractSends(p.w, p.from, p.to, p.amount);
    HeldTrail(Paid(p.w, p.from, p.to, p.amount), r, u);
  }

  /** While the escrow's guard is held the receiver's code changes no session. */
  lemma SessionsHeld(c: World, from: Address, to: Address, amount: nat, r: Reaction, u: World)
    requires CanPay(c, from, to, amount) && React(Paid(c, from, to, amount), r) == Some(u) && c.escrow.entered
    ensures u.escrow.sessions == c.escrow.sessions && c.escrow.events <= u.escrow.events
  {
    GuardsHold(Paid(c, from, to, amount), r);
    ReactSound(Paid(c, from, to, amount), r);
  }

  /** Nine tenths, rounded up: what is left of an amount after the protocol's fee. */
  function Net(amount: nat): nat {
    amount - amount / 10
  }

  /** Whom a call of the escrow has to pay, read from storage before the call and the views: at most two payments. */
  function EscrowDues(w: World, value: nat, c: Escrow.Call): seq<Payout> {
    var e := w.escrow;
    match c
    case Refund(id) => if id in e.escrows then Payment(e.escrows[id].user, e.escrows[id].amount) else []
    case Release(id) => if id in e.escrows then Payment(e.escrows[id].provider, Net(e.escrows[id].amount)) else []
    case ResolveDispute(id, toProvider) =>
      if id !in e.escrows then []
      else if toProvider then Payment(e.escrows[id].provider, Net(e.escrows[id].amount))
      else Payment(e.escrows[id].user, e.escrows[id].amount)
    case StartSession(id, provider, _) => Payment(provider, value / 5)
    case ReleasePayment(id) => Instalment(w, id)
    case SubmitProof(id) => Instalment(w, id)
    case StopSession(id) => Instalment(w, id) + Remainder(w, id)
    case SlashProvider(id, _) => if id in e.sessions then Payment(e.sessions[id].user, e.sessions[id].remainingBalance) else []
    case WithdrawFees => Payment(e.owner, e.accruedFees)
    case _ => []
  }

  /** The provider's net share of what pendingPayment shows. */
  function Instalment(w: World, id: Id): seq<Payout> {
    var pending := Escrow.PendingPayment(w.escrow, w.now, id);
    if id in w.escrow.sessions && pending.Some? then Payment(w.escrow.sessions[id].provider, Net(pending.value)) else []
  }

  /** What is left for the user after that. */
  function Remainder(w: World, id: Id): seq<Payout> {
    var pending := Escrow.PendingPayment(w.escrow, w.now, id);
    if id in w.escrow.sessions && pending.Some? && pending.value <= w.escrow.sessions[id].remainingBalance
    then Payment(w.escrow.sessions[id].user, w.escrow.sessions[id].remainingBalance - pending.value) else []
  }

  /** A step of the escrow moves no ETH by itself. */
  lemma StepMovesNone(paid: World, s: Escrow.Step)
    ensures var p := FromEscrow(paid, s);
            && (!p.Reverted? ==> p.w.transfers == paid.transfers)
            && (p.Calling? && p.rescue.Some? ==> p.rescue.value.transfers == paid.transfers)
  {
    if s.Slash? {
      var asked := Registry.Begin(paid.registry, Msg(EscrowContract, 0, paid.now), Registry.SlashStake(s.provider, s.evidence));
      var after := AfterSlash(paid.(escrow := s.e), s.k);
      assert !after.Reverted? ==> after.w.transfers == paid.transfers;
    }
  }

  /** The caller's own ETH on its way in is nobody's payout. */
  lemma StartTrail(w: World, tx: Tx)
    requires tx.call.ToEscrow?
    ensures var p, trail := Start(w, tx), OutOf(w.transfers, EscrowContract);
            && (!p.Reverted? ==> OutOf(p.w.transfers, EscrowContract) == trail)
            && (p.Calling? && p.rescue.Some? ==> OutOf(p.rescue.value.transfers, EscrowContract) == trail)
  {
    if tx.sender.Wallet? && tx.value <= Balance(w, tx.sender) {
      OutOfRecorded(w.transfers, tx.sender, EscrowContract, tx.value, EscrowContract);
      StepMovesNone(Transferred(w, tx.sender, EscrowContract, tx.value),
                    Escrow.Begin(w.escrow, Msg(tx.sender, tx.value, w.now), tx.call.escrow));
    }
  }

  /** A payment whose continuation only gives the guard back. */
  lemma LastPayment(p: Pause, r: Reaction, v: World)
    requires p.Calling? && p.from.EscrowContract? && p.k == EscrowK(Escrow.Exit) && p.rescue.None? && p.w.escrow.entered
    requires Advance(p, r) == Done(v)
    ensures OutOf(v.transfers, EscrowContract) == OutOf(p.w.transfers, EscrowContract) + Payment(p.to, p.amount)
  {
    SentThenHeld(p, r, Send(p.w, p.from, p.to, p.amount, r).value);
  }

  lemma OnePayment(w: World, tx: Tx, v: World)
    requires Exec(w, tx) == Done(v) && tx.call.ToEscrow?
    requires var p := Start(w, tx); p.Calling? ==>
               p.from.EscrowContract? && p.k == EscrowK(Escrow.Exit) && p.rescue.None? && p.w.escrow.entered
    ensures var p := Start(w, tx);
            OutOf(v.transfers, EscrowContract) ==
            OutOf(w.transfers, EscrowContract) + if p.Calling? then Payment(p.to, p.amount) else []
  {
    var p := Start(w, tx);
    StartTrail(w, tx);
    if p.Calling? {
      SecondUnused(p, tx.first, tx.second);
      LastPayment(p, tx.first, v);
    } else {
      assert OutOf(w.transfers, EscrowContract) + [] == OutOf(w.transfers, EscrowContract);
    }
  }

  lemma SecondUnused(p: Pause, first: Reaction, second: Reaction)
    requires p.Calling? && p.k == EscrowK(Escrow.Exit) && p.rescue.None?
    ensures Advance(Advance(p, first), second) == Advance(p, first) && !Advance(p, first).Calling?
  {
  }

  lemma TenPercent(amount: nat)
    ensures amount - amount * 1000 / 10000 == Net(amount)
  {
  }

  /** Every call but the two with a second payment. */
  lemma SimpleDues(w: World, tx: Tx)
    requires !Start(w, tx).Reverted? && tx.call.ToEscrow? && !tx.call.escrow.StopSession? && !tx.call.escrow.SlashProvider?
    ensures var p := Start(w, tx);
            && (p.Calling? ==> p.from.EscrowContract? && p.k == EscrowK(Escrow.Exit) && p.rescue.None? && p.w.escrow.entered)
            && EscrowDues(w, tx.value, tx.call.escrow) == if p.Calling? then Payment(p.to, p.amount) else []
  {
    var c := tx.call.escrow;
    if c.Release? || c.ResolveDispute? {
      TenPercent(w.escrow.escrows[c.id].amount);
    } else if c.ReleasePayment? || c.SubmitProof? {
      TenPercent(Escrow.Owed(w.escrow.sessions[c.id], w.now).value);
    }
  }

  /** About to refund, or done when there is nothing to refund. */
  predicate RefundPause(p: Pause, v0: World, to: Address, amount: nat) {
    p == if amount > 0 then Calling(v0, EscrowContract, to, amount, EscrowK(Escrow.Exit), None)
         else Done(v0.(escrow := v0.escrow.(entered := false)))
  }

  /** The refund at the end of stopSession or slashProvider, if there is one. */
  lemma LastRefund(v0: World, p: Pause, r: Reaction, v: World, to: Address, amount: nat)
    requires RefundPause(p, v0, to, amount) && v0.escrow.entered && Advance(p, r) == Done(v)
    ensures OutOf(v.transfers, EscrowContract) == OutOf(v0.transfers, EscrowContract) + Payment(to, amount)
  {
    if amount > 0 {
      LastPayment(p, r, v);
    } else {
      assert OutOf(v0.transfers, EscrowContract) + [] == OutOf(v0.transfers, EscrowContract);
    }
  }

  /** The session closed at once, nothing being owed. */
  function StopClosed(w: World, sender: Address, id: Id): World
    requires Escrow.Active(w.escrow, id)
  {
    Transferred(w, sender, EscrowContract, 0).(escrow := Escrow.Close(w.escrow.(entered := true), w.now, id))
  }

  lemma StopUnowed(w: World, sender: Address, id: Id)
    requires Escrow.Active(w.escrow, id)
    ensures var c := StopClosed(w, sender, id);
            c.escrow.entered && OutOf(c.transfers, EscrowContract) == OutOf(w.transfers, EscrowContract)
  {
    OutOfRecorded(w.transfers, sender, EscrowContract, 0, EscrowContract);
  }

  /** Where stopSession stands before its first payment. */
  predicate StopPause(w: World, sender: Address, id: Id, p: Pause)
    requires Escrow.Active(w.escrow, id) && Escrow.Owed(w.escrow.sessions[id], w.now).Some?
  {
    var s, owed := w.escrow.sessions[id], Escrow.Owed(w.escrow.sessions[id], w.now).value;
    if owed == 0 then
      RefundPause(p, StopClosed(w, sender, id), s.user, s.remainingBalance)
    else
      && p.Calling? && p.from.EscrowContract? && p.to == s.provider && p.amount == Net(owed) && p.rescue.None?
      && p.k == EscrowK(Escrow.FinishStop(id)) && p.w.escrow.entered && id in p.w.escrow.sessions
      && p.w.escrow.sessions[id] == s.(remainingBalance := s.remainingBalance - owed, lastPaidAt := w.now)
  }

  lemma StopStarts(w: World, tx: Tx, id: Id)
    requires tx.call == ToEscrow(Escrow.StopSession(id)) && !Start(w, tx).Reverted?
    ensures Escrow.Active(w.escrow, id) && tx.sender == w.escrow.sessions[id].user && tx.value == 0 && !w.escrow.entered
    ensures Escrow.Owed(w.escrow.sessions[id], w.now).Some? && StopPause(w, tx.sender, id, Start(w, tx))
  {
    TenPercent(Escrow.Owed(w.escrow.sessions[id], w.now).value);
  }

  /** The second half of stopSession, after the instalment has gone through. */
  lemma StopFinishes(p: Pause, r: Reaction, u: World, id: Id)
    requires p.Calling? && p.from.EscrowContract? && p.rescue.None? && p.k == EscrowK(Escrow.FinishStop(id)) && p.w.escrow.entered
    requires id in p.w.escrow.sessions && Send(p.w, p.from, p.to, p.amount, r) == Some(u)
    ensures u.escrow.entered && u.escrow.sessions == p.w.escrow.sessions && u.now == p.w.now
    ensures var s, v0 := u.escrow.sessions[id], u.(escrow := Escrow.Close(u.escrow, u.now, id));
            RefundPause(Advance(p, r), v0, s.user, s.remainingBalance)
  {
    GuardsHold(Paid(p.w, p.from, p.to, p.amount), r);
    ReactSound(Paid(p.w, p.from, p.to, p.amount), r);
  }

  /** The instalment has gone through, then the refund. */
  lemma StopPaysBoth(p: Pause, tx: Tx, id: Id, v: World)
    requires p.Calling? && p.from.EscrowContract? && p.rescue.None? && p.k == EscrowK(Escrow.FinishStop(id)) && p.w.escrow.entered
    requires id in p.w.escrow.sessions && Advance(Advance(p, tx.first), tx.second) == Done(v)
    ensures var s := p.w.escrow.sessions[id];
            OutOf(v.transfers, EscrowContract) ==
            OutOf(p.w.transfers, EscrowContract) + Payment(p.to, p.amount) + Payment(s.user, s.remainingBalance)
  {
    var u, s := Send(p.w, p.from, p.to, p.amount, tx.first), p.w.escrow.sessions[id];
    assert Advance(Reverted, tx.second) == Reverted;
    if u.Some? {
      StopFinishes(p, tx.first, u.value, id);
      SentThenHeld(p, tx.first, u.value);
      LastRefund(u.value.(escrow := Escrow.Close(u.value.escrow, u.value.now, id)), Advance(p, tx.first), tx.second, v, s.user, s.remainingBalance);
    }
  }

  /** Nothing is owed: one payment, of the whole balance. */
  lemma StopPaysOnce(w0: World, p: Pause, tx: Tx, v: World, to: Address, amount: nat)
    requires RefundPause(p, w0, to, amount) && w0.escrow.entered && Advance(Advance(p, tx.first), tx.second) == Done(v)
    ensures OutOf(v.transfers, EscrowContract) == OutOf(w0.transfers, EscrowContract) + Payment(to, amount)
  {
    if p.Calling? {
      SecondUnused(p, tx.first, tx.second);
    }
    LastRefund(w0, p, tx.first, v, to, amount);
  }

  lemma StopDues(w: World, id: Id)
    requires Escrow.Active(w.escrow, id) && Escrow.Owed(w.escrow.sessions[id], w.now).Some?
    ensures var s, owed := w.escrow.sessions[id], Escrow.Owed(w.escrow.sessions[id], w.now).value;
            && Instalment(w, id) == Payment(s.provider, Net(owed)) && owed <= s.remainingBalance
            && Remainder(w, id) == Payment(s.user, s.remainingBalance - owed)
  {
  }

  lemma StopPays(w: World, tx: Tx, id: Id, v: World)
    requires Exec(w, tx) == Done(v) && tx.call == ToEscrow(Escrow.StopSession(id))
    ensures OutOf(v.transfers, EscrowContract) == OutOf(w.transfers, EscrowContract) + (Instalment(w, id) + Remainder(w, id))
  {
    assert Advance(Reverted, tx.first) == Reverted && Advance(Reverted, tx.second) == Reverted;
    StopStarts(w, tx, id);
    StartTrail(w, tx);
    StopPaysFrom(w, Start(w, tx), tx, id, v);
  }

  lemma StopPaysFrom(w: World, p: Pause, tx: Tx, id: Id, v: World)
    requires Escrow.Active(w.escrow, id) && Escrow.Owed(w.escrow.sessions[id], w.now).Some? && StopPause(w, tx.sender, id, p)
    requires p.Calling? ==> OutOf(p.w.transfers, EscrowContract) == OutOf(w.transfers, EscrowContract)
    requires Advance(Advance(p, tx.first), tx.second) == Done(v)
    ensures OutOf(v.transfers, EscrowContract) == OutOf(w.transfers, EscrowContract) + (Instalment(w, id) + Remainder(w, id))
  {
    StopDues(w, id);
    var s, trail := w.escrow.sessions[id], OutOf(w.transfers, EscrowContract);
    if Escrow.Owed(s, w.now).value == 0 {
      StopUnowed(w, tx.sender, id);
      StopPaysOnce(StopClosed(w, tx.sender, id), p, tx, v, s.user, s.remainingBalance);
      assert [] + Remainder(w, id) == Remainder(w, id);
    } else {
      StopPaysBoth(p, tx, id, v);
      assert trail + (Instalment(w, id) + Remainder(w, id)) == trail + Instalment(w, id) + Remainder(w, id);
    }
  }

  /** slashProvider after the registry has answered or failed. */
  lemma AfterSlashRefunds(v0: World, user: Address, amount: nat)
    ensures RefundPause(AfterSlash(v0, Escrow.RefundAfterSlash(user, amount)), v0, user, amount)
  {
  }

  /** What slashProvider has to do when it is allowed to: close the session, ask the registry, refund the user. */
  lemma SlashStarts(w: World, tx: Tx, id: Id, evidence: nat)
    requires tx.call == ToEscrow(Escrow.SlashProvider(id, evidence)) && !Start(w, tx).Reverted?
    ensures Escrow.Active(w.escrow, id) && !w.escrow.entered && tx.value == 0
    ensures tx.sender == w.escrow.proofAuthority || tx.sender == w.escrow.owner
    ensures var s, w' := w.escrow.sessions[id], SlashClosed(w, tx.sender, id, evidence);
            var k := Escrow.RefundAfterSlash(s.user, s.remainingBalance);
            match Registry.Begin(w.registry, Msg(EscrowContract, 0, w.now), Registry.SlashStake(s.provider, evidence))
            case Pay(r, to, amount) =>
              Start(w, tx) == Calling(w'.(registry := r), RegistryContract, to, amount, SlashK(k), Some(w'))
              && !w.registry.entered && r.entered
            case _ => Start(w, tx) == AfterSlash(w', k)
  {
  }

  /** The session closed and its balance set aside. */
  function SlashClosed(w: World, sender: Address, id: Id, evidence: nat): World
    requires Escrow.Active(w.escrow, id)
  {
    var e := w.escrow.(entered := true);
    Transferred(w, sender, EscrowContract, 0).(escrow :=
      Escrow.Close(Escrow.Emit(e, w.now, Escrow.ProviderSlashed(id, e.sessions[id].provider, evidence)), w.now, id))
  }

  /** Whatever becomes of the registry's part, the escrow is left where its own part had got to. */
  lemma RegistryAnswered(c: World, w': World, to: Address, amount: nat, k: Escrow.Kont, r: Reaction) returns (v0: World)
    requires c == w'.(registry := c.registry) && w'.escrow.entered && k.RefundAfterSlash?
    ensures Advance(Calling(c, RegistryContract, to, amount, SlashK(k), Some(w')), r) == AfterSlash(v0, k)
    ensures v0.escrow.entered && v0.now == w'.now && v0.escrow.sessions == w'.escrow.sessions
    ensures OutOf(v0.transfers, EscrowContract) == OutOf(w'.transfers, EscrowContract)
    ensures Balance(v0, EscrowContract) == Balance(w', EscrowContract)
  {
    var p := Calling(c, RegistryContract, to, amount, SlashK(k), Some(w'));
    var u := Send(c, RegistryContract, to, amount, r);
    if u.Some? {
      SentThenHeld(p, r, u.value);
      GuardsHold(Paid(c, RegistryContract, to, amount), r);
      ReactSound(Paid(c, RegistryContract, to, amount), r);
      PaymentSound(c, c, RegistryContract, to, amount);
      v0 := u.value.(registry := Registry.Exit(u.value.registry));
    } else {
      v0 := w'.(registry := Registry.Exit(w'.registry));
    }
  }

  lemma SlashPays(w: World, tx: Tx, id: Id, evidence: nat, v: World)
    requires Exec(w, tx) == Done(v) && tx.call == ToEscrow(Escrow.SlashProvider(id, evidence))
    ensures id in w.escrow.sessions
    ensures var s := w.escrow.sessions[id];
            OutOf(v.transfers, EscrowContract) == OutOf(w.transfers, EscrowContract) + Payment(s.user, s.remainingBalance)
  {
    var p := Start(w, tx);
    assert Advance(Reverted, tx.first) == Reverted && Advance(Reverted, tx.second) == Reverted;
    SlashStarts(w, tx, id, evidence);
    var s, w' := w.escrow.sessions[id], SlashClosed(w, tx.sender, id, evidence);
    var k := Escrow.RefundAfterSlash(s.user, s.remainingBalance);
    OutOfRecorded(w.transfers, tx.sender, EscrowContract, 0, EscrowContract);
    if p.Calling? && p.k.SlashK? {
      var v0 := RegistryAnswered(p.w, w', p.to, p.amount, k, tx.first);
      AfterSlashRefunds(v0, s.user, s.remainingBalance);
      LastRefund(v0, AfterSlash(v0, k), tx.second, v, s.user, s.remainingBalance);
    } else {
      AfterSlashRefunds(w', s.user, s.remainingBalance);
      if p.Calling? {
        SecondUnused(p, tx.first, tx.second);
      }
      LastRefund(w', p, tx.first, v, s.user, s.remainingBalance);
    }
  }

  /** Every completed call of the escrow sends exactly what is due, to whom it is due, in order, and nothing else;
      whatever the receivers do in between. */
  lemma CompletedEscrowCallPays(w: World, tx: Tx, v: World)
    requires Exec(w, tx) == Done(v) && tx.call.ToEscrow?
    ensures OutOf(v.transfers, EscrowContract) == OutOf(w.transfers, EscrowContract) + EscrowDues(w, tx.value, tx.call.escrow)
  {
    var c := tx.call.escrow;
    if c.StopSession? {
      StopPays(w, tx, c.id, v);
    } else if c.SlashProvider? {
      SlashPays(w, tx, c.id, c.evidence, v);
    } else {
      assert Advance(Reverted, tx.first) == Reverted && Advance(Reverted, tx.second) == Reverted;
      SimpleDues(w, tx);
      OnePayment(w, tx, v);
    }
  }

  /** A completed startSession has recorded what its caller asked for and paid, and a fifth has gone to that provider. */
  lemma SessionAsAsked(w: World, tx: Tx, id: Id, provider: Address, rate: nat, v: World)
    requires Exec(w, tx) == Done(v) && tx.call == ToEscrow(Escrow.StartSession(id, provider, rate))
    ensures id !in w.escrow.sessions
    ensures v.escrow.sessions == w.escrow.sessions[id := Escrow.Session(tx.sender, provider, rate, tx.value - tx.value / 5, w.now, true)]
    ensures OutOf(v.transfers, EscrowContract) == OutOf(w.transfers, EscrowContract) + Payment(provider, tx.value / 5)
  {
    assert Advance(Reverted, tx.first) == Reverted && Advance(Reverted, tx.second) == Reverted;
    CompletedEscrowCallPays(w, tx, v);
    var p := Start(w, tx);
    StartOpens(w.escrow, Msg(tx.sender, tx.value, w.now), id, provider, rate);
    SecondUnused(p, tx.first, tx.second);
    var u := Send(p.w, p.from, p.to, p.amount, tx.first);
    SessionsHeld(p.w, p.from, p.to, p.amount, tx.first, u.value);
  }

  /** A completed deposit has recorded what its caller asked for and paid, and nothing has left the escrow. */
  lemma DepositAsAsked(w: World, tx: Tx, id: Id, provider: Address, v: World)
    requires Exec(w, tx) == Done(v) && tx.call == ToEscrow(Escrow.DepositFor(id, provider))
    ensures id !in w.escrow.escrows && tx.value > 0
    ensures v.escrow.escrows == w.escrow.escrows[id := Escrow.Deposit(tx.sender, provider, tx.value, w.now, Escrow.Pending)]
    ensures OutOf(v.transfers, EscrowContract) == OutOf(w.transfers, EscrowContract)
  {
    assert Advance(Reverted, tx.first) == Reverted && Advance(Reverted, tx.second) == Reverted;
    CompletedEscrowCallPays(w, tx, v);
    assert OutOf(w.transfers, EscrowContract) + [] == OutOf(w.transfers, EscrowContract);
  }

  function RegistryDues(w: World, sender: Address, c: Registry.Call): seq<Payout> {
    match c
    case Unstake(amount) => Payment(sender, amount)
    case SlashStake(provider, _) =>
      if provider in w.registry.providers then Payment(w.registry.owner, w.registry.providers[provider].stakedAmount / 2) else []
    case _ => []
  }

  lemma RegistryStarts(w: World, tx: Tx)
    requires tx.call.ToRegistry? && !Start(w, tx).Reverted?
    ensures var p, due := Start(w, tx), RegistryDues(w, tx.sender, tx.call.registry);
            if p.Calling? then
              && p.from.RegistryContract? && p.k.RegistryK? && p.rescue.None? && p.w.registry.entered && due == Payment(p.to, p.amount)
              && OutOf(p.w.transfers, RegistryContract) == OutOf(w.transfers, RegistryContract)
            else due == [] && OutOf(p.w.transfers, RegistryContract) == OutOf(w.transfers, RegistryContract)
  {
    OutOfRecorded(w.transfers, tx.sender, RegistryContract, tx.value, RegistryContract);
  }

  /** Every completed call of the registry: unstaking pays the provider itself, a slash pays half the stake to the owner. */
  lemma CompletedRegistryCallPays(w: World, tx: Tx, v: World)
    requires Exec(w, tx) == Done(v) && tx.call.ToRegistry?
    ensures OutOf(v.transfers, RegistryContract) == OutOf(w.transfers, RegistryContract) + RegistryDues(w, tx.sender, tx.call.registry)
  {
    assert Advance(Reverted, tx.first) == Reverted && Advance(Reverted, tx.second) == Reverted;
    RegistryStarts(w, tx);
    var p := Start(w, tx);
    if p.Calling? {
      RegistryCallPays(p, tx.first, tx.second, v);
    } else {
      assert OutOf(w.transfers, RegistryContract) + [] == OutOf(w.transfers, RegistryContract);
    }
  }

  lemma RegistryCallPays(p: Pause, first: Reaction, second: Reaction, v: World)
    requires p.Calling? && p.from.RegistryContract? && p.k.RegistryK? && p.rescue.None? && p.w.registry.entered
    requires Advance(Advance(p, first), second) == Done(v)
    ensures OutOf(v.transfers, RegistryContract) == OutOf(p.w.transfers, RegistryContract) + Payment(p.to, p.amount)
  {
    var u := Send(p.w, p.from, p.to, p.amount, first);
    if u.Some? {
      SentThenHeld(p, first, u.value);
    }
  }
}
