/** Streaming sessions over whole runs: what has been paid depends on the clock alone. */
module StreamTheorems {
  import opened Common
  import opened Machine
  import opened Guarantee
  import opened ChainTheorems
  import opened Payments
  import opened PaymentTheorems
  import opened CompletionTheorems
  import opened SettlementTheorems
  import Escrow = EscrowSpec
  import EL = EscrowLedger
  import ES = EscrowSound
  import Auction = AuctionSpec

  /** An account's terms are fixed by its first event. */
  predicate SameTerms(a: EL.Account, b: EL.Account) {
    && a.Account? && b.Account? && a.user == b.user && a.start == b.start && a.total == b.total
    && a.upfront == b.upfront && a.escrowed == b.escrowed && a.rate == b.rate && a.provider == b.provider
  }

  lemma {:induction false} TermsPersist(events: seq<Escrow.Entry>, more: seq<Escrow.Entry>, id: Id)
    requires EL.AccountOf(events, id).Account? && !EL.AccountOf(events + more, id).Broken?
    ensures SameTerms(EL.AccountOf(events, id), EL.AccountOf(events + more, id))
    decreases |more|
  {
    if more == [] {
      assert events + more == events;
    } else {
      var front, x := more[..|more| - 1], more[|more| - 1];
      assert events + more == (events + front) + [x];
      EL.AccountAppend(events + front, x, id);
      TermsPersist(events, front, id);
    }
  }

  lemma GrownTerms(now: nat, e: Escrow.State, e': Escrow.State, id: Id)
    requires EL.Grows(e, e') && EL.SessionOk(now, e, id) && EL.SessionOk(now, e', id) && id in e.sessions
    ensures SameTerms(EL.AccountOf(e.events, id), EL.AccountOf(e'.events, id))
  {
    assert e'.events == e.events + e'.events[|e.events|..];
    TermsPersist(e.events, e'.events[|e.events|..], id);
  }

  /** A payment from the escrow that completes leaves every session as it was when the payment was made. */
  lemma PaymentKeepsSessions(p: Pause, r: Reaction, v: World)
    requires p.Calling? && p.from.EscrowContract? && p.rescue.None? && p.w.escrow.entered
    requires Send(p.w, p.from, p.to, p.amount, r) == Some(v)
    ensures v.escrow.sessions == p.w.escrow.sessions && v.escrow.entered && v.now == p.w.now
  {
    GuardsHold(Paid(p.w, p.from, p.to, p.amount), r);
    ReactSound(Paid(p.w, p.from, p.to, p.amount), r);
  }

  /** The session record after a completed drip, whatever the provider did on being paid. */
  lemma DripRecord(w: World, tx: Tx, id: Id, v: World)
    requires Escrow.Active(w.escrow, id) && Exec(w, tx) == Done(v)
    requires tx.call == ToEscrow(Escrow.ReleasePayment(id)) || tx.call == ToEscrow(Escrow.SubmitProof(id))
    ensures var s := w.escrow.sessions[id];
            && Escrow.Owed(s, w.now).Some?
            && var owed := Escrow.Owed(s, w.now).value;
            && id in v.escrow.sessions
            && v.escrow.sessions[id] ==
                 if owed == 0 then s else s.(remainingBalance := s.remainingBalance - owed, lastPaidAt := w.now)
  {
    var p := Start(w, tx);
    if p.Calling? {
      var u := Send(p.w, p.from, p.to, p.amount, tx.first);
      if u.Some? {
        PaymentKeepsSessions(p, tx.first, u.value);
      }
    }
  }

  /** Two agreeing ledgers around a drip: the later one stands where an ideal stream stands. */
  lemma LedgerAfterDrip(now: nat, e: Escrow.State, e': Escrow.State, id: Id, owed: nat)
    requires EL.SessionOk(now, e, id) && EL.SessionOk(now, e', id) && EL.Grows(e, e') && Escrow.Active(e, id)
    requires Escrow.Owed(e.sessions[id], now) == Some(owed) && id in e'.sessions
    requires e'.sessions[id].lastPaidAt == if owed == 0 then e.sessions[id].lastPaidAt else now
    ensures var a, b := EL.AccountOf(e.events, id), EL.AccountOf(e'.events, id);
            SameTerms(a, b) && a.start <= now && EL.Gross(b) == EL.Streamed(a, now) == EL.Gross(a) + owed
  {
    var a, b := EL.AccountOf(e.events, id), EL.AccountOf(e'.events, id);
    GrownTerms(now, e, e', id);
    ES.DripOnSchedule(now, e, id);
    SameStream(a, b, e'.sessions[id].lastPaidAt);
  }

  lemma SameStream(a: EL.Account, b: EL.Account, t: nat)
    requires SameTerms(a, b) && a.start <= t
    ensures EL.Streamed(a, t) == EL.Streamed(b, t)
  {
  }

  lemma ReachableStep(w: World, tx: Tx, id: Id, v: World)
    requires Reachable(w) && Exec(w, tx) == Done(v)
    ensures EL.SessionOk(w.now, w.escrow, id) && EL.SessionOk(w.now, v.escrow, id) && EL.Grows(w.escrow, v.escrow)
  {
    ReachableInv(w);
    Guarantee.StepSound(w, tx);
    GuarInv(w, v);
  }

  /** After a drip at any time of any run, the gross paid is what an ideal stream has paid by then, so drips in
      between make no difference; pendingPayment has predicted the amount, and the provider has got its share of it. */
  lemma DripIsPathIndependent(w: World, tx: Tx, id: Id, v: World)
    requires Reachable(w) && Escrow.Active(w.escrow, id) && Exec(w, tx) == Done(v)
    requires tx.call == ToEscrow(Escrow.ReleasePayment(id)) || tx.call == ToEscrow(Escrow.SubmitProof(id))
    ensures DripOnTime(w.now, w.escrow, v.escrow, id)
    ensures OutOf(v.transfers, EscrowContract) == OutOf(w.transfers, EscrowContract) + Instalment(w, id)
  {
    CompletedEscrowCallPays(w, tx, v);
    DripAccounts(w, tx, id, v);
  }

  lemma DripAccounts(w: World, tx: Tx, id: Id, v: World)
    requires Reachable(w) && Escrow.Active(w.escrow, id) && Exec(w, tx) == Done(v)
    requires tx.call == ToEscrow(Escrow.ReleasePayment(id)) || tx.call == ToEscrow(Escrow.SubmitProof(id))
    ensures DripOnTime(w.now, w.escrow, v.escrow, id)
  {
    ReachableStep(w, tx, id, v);
    DripRecord(w, tx, id, v);
    LedgerAfterDrip(w.now, w.escrow, v.escrow, id, Escrow.Owed(w.escrow.sessions[id], w.now).value);
  }

  /** What a drip at `now` has to do: pay exactly what pendingPayment says, and so stand where the ideal stream stands. */
  ghost predicate DripOnTime(now: nat, e: Escrow.State, e': Escrow.State, id: Id) {
    var a, b, pending := EL.AccountOf(e.events, id), EL.AccountOf(e'.events, id), Escrow.PendingPayment(e, now, id);
    && pending.Some? && SameTerms(a, b) && a.start <= now
    && EL.Gross(b) == EL.Streamed(a, now) == EL.Gross(a) + pending.value
    && Escrow.Active(e, id) && Escrow.Active(e', id)
    && e'.sessions[id].remainingBalance == e.sessions[id].remainingBalance - pending.value
  }

  /** The calls that pay what has accrued. */
  predicate Accrues(c: Call, id: Id) {
    c == ToEscrow(Escrow.ReleasePayment(id)) || c == ToEscrow(Escrow.SubmitProof(id)) || c == ToEscrow(Escrow.StopSession(id))
  }

  /** Once elapsed time times rate leaves 256 bits, pendingPayment, the drips and the user's own stop all revert, then and at
      every later time. */
  lemma OverflowLocksStream(w: World, tx: Tx, id: Id, wait: nat)
    requires Escrow.Active(w.escrow, id) && w.escrow.sessions[id].lastPaidAt <= w.now
    requires (w.now - w.escrow.sessions[id].lastPaidAt) * w.escrow.sessions[id].ratePerSecond > MAX_UINT256
    requires Accrues(tx.call, id)
    ensures Escrow.PendingPayment(w.escrow, w.now + wait, id).None?
    ensures Step(Tick(w, wait), tx) == Tick(w, wait)
  {
    var s := w.escrow.sessions[id];
    MoreTime(w.now - s.lastPaidAt, wait, s.ratePerSecond);
    assert Escrow.Owed(s, w.now + wait).None?;
    assert Start(Tick(w, wait), tx) == Reverted;
    RevertedStays(Tick(w, wait), tx);
  }

  lemma RevertedStays(w: World, tx: Tx)
    requires Start(w, tx) == Reverted || Advance(Start(w, tx), tx.first) == Reverted
             || Advance(Advance(Start(w, tx), tx.first), tx.second) == Reverted
    ensures Step(w, tx) == w
  {
    assert Advance(Reverted, tx.first) == Reverted && Advance(Reverted, tx.second) == Reverted;
  }

  lemma MoreTime(elapsed: nat, wait: nat, rate: nat)
    ensures (elapsed + wait) * rate >= elapsed * rate
  {
    assert (elapsed + wait) * rate == elapsed * rate + wait * rate;
  }

  // ---- Stopping ----

  /** The pause at which stopSession refunds the user, with the session closed. */
  lemma StopRefunds(w: World, u: World, id: Id, r: Reaction, v: World)
    requires Escrow.Active(u.escrow, id) && u.escrow.entered
    requires Advance(Resume(u, EscrowK(Escrow.FinishStop(id))), r) == Done(v)
    ensures id in v.escrow.sessions && v.escrow.sessions[id] == u.escrow.sessions[id].(remainingBalance := 0, isActive := false)
  {
    var p := Resume(u, EscrowK(Escrow.FinishStop(id)));
    if p.Calling? {
      PaymentKeepsSessions(p, r, Send(p.w, p.from, p.to, p.amount, r).value);
    }
  }

  lemma StopRecord(w: World, tx: Tx, id: Id, v: World)
    requires Escrow.Active(w.escrow, id) && tx.call == ToEscrow(Escrow.StopSession(id)) && Exec(w, tx) == Done(v)
    ensures var s := w.escrow.sessions[id];
            && Escrow.Owed(s, w.now).Some?
            && var owed := Escrow.Owed(s, w.now).value;
            && id in v.escrow.sessions
            && v.escrow.sessions[id] ==
                 s.(remainingBalance := 0, isActive := false, lastPaidAt := if owed == 0 then s.lastPaidAt else w.now)
  {
    var s := w.escrow.sessions[id];
    var p := Start(w, tx);
    if Escrow.Owed(s, w.now).value > 0 {
      var u := Send(p.w, p.from, p.to, p.amount, tx.first).value;
      PaymentKeepsSessions(p, tx.first, u);
      StopRefunds(w, u, id, tx.second, v);
    } else if p.Calling? {
      PaymentKeepsSessions(p, tx.first, Send(p.w, p.from, p.to, p.amount, tx.first).value);
    }
  }

  /** stopSession at time t pays the provider the stream up to t, less the fee, and its caller, who is the session's user,
      exactly the rest; and sends nothing else. */
  lemma StopRefundsRemainder(w: World, tx: Tx, id: Id, v: World)
    requires Reachable(w) && Escrow.Active(w.escrow, id)
    requires tx.call == ToEscrow(Escrow.StopSession(id)) && Exec(w, tx) == Done(v)
    ensures StoppedOnTime(w, v, id, tx.sender)
    ensures tx.sender == w.escrow.sessions[id].user
  {
    ReachableStep(w, tx, id, v);
    StopRecord(w, tx, id, v);
    StopSends(w, tx, id, v);
    StopAccounts(w, v, id, Escrow.Owed(w.escrow.sessions[id], w.now).value);
  }

  lemma StopSends(w: World, tx: Tx, id: Id, v: World)
    requires Escrow.Active(w.escrow, id) && Escrow.Owed(w.escrow.sessions[id], w.now).Some?
    requires tx.call == ToEscrow(Escrow.StopSession(id)) && Exec(w, tx) == Done(v)
    ensures tx.sender == w.escrow.sessions[id].user && StopSent(w, v, id, Escrow.Owed(w.escrow.sessions[id], w.now).value)
  {
    assert Advance(Reverted, tx.first) == Reverted && Advance(Reverted, tx.second) == Reverted;
    StopPays(w, tx, id, v);
    StopDues(w, id);
    StopStarts(w, tx, id);
    var trail := OutOf(w.transfers, EscrowContract);
    assert trail + (Instalment(w, id) + Remainder(w, id)) == trail + Instalment(w, id) + Remainder(w, id);
  }

  ghost predicate StopSent(w: World, v: World, id: Id, owed: nat)
    requires id in w.escrow.sessions
  {
    var s := w.escrow.sessions[id];
    && owed <= s.remainingBalance
    && OutOf(v.transfers, EscrowContract) ==
         OutOf(w.transfers, EscrowContract) + Payment(s.provider, Net(owed)) + Payment(s.user, s.remainingBalance - owed)
  }

  lemma StopAccounts(w: World, v: World, id: Id, owed: nat)
    requires EL.SessionOk(w.now, w.escrow, id) && EL.SessionOk(w.now, v.escrow, id) && EL.Grows(w.escrow, v.escrow)
    requires Escrow.Active(w.escrow, id) && Escrow.Owed(w.escrow.sessions[id], w.now) == Some(owed) && StopSent(w, v, id, owed)
    requires id in v.escrow.sessions
    requires var s := w.escrow.sessions[id];
             v.escrow.sessions[id] == s.(remainingBalance := 0, isActive := false, lastPaidAt := if owed == 0 then s.lastPaidAt else w.now)
    ensures StoppedOnTime(w, v, id, w.escrow.sessions[id].user)
  {
    LedgerAfterDrip(w.now, w.escrow, v.escrow, id, owed);
  }

  ghost predicate StoppedOnTime(w: World, v: World, id: Id, user: Address)
    requires id in w.escrow.sessions
  {
    var a, b := EL.AccountOf(w.escrow.events, id), EL.AccountOf(v.escrow.events, id);
    && SameTerms(a, b) && a.start <= w.now && !b.open
    && EL.Gross(b) == EL.Streamed(a, w.now) >= EL.Gross(a) && b.refund == a.escrowed - EL.Gross(b) >= 0
    && OutOf(v.transfers, EscrowContract) ==
         OutOf(w.transfers, EscrowContract) + Payment(a.provider, Net(EL.Gross(b) - EL.Gross(a))) + Payment(user, b.refund)
  }

  // ---- Conservation ----

  /** In every reachable state each session's deposit is accounted for to the wei, and splitting payments into
      k drips has cost the protocol less than one wei of fee each. */
  lemma SessionConserved(w: World, id: Id)
    requires Reachable(w) && id in w.escrow.sessions
    ensures var a, s := EL.AccountOf(w.escrow.events, id), w.escrow.sessions[id];
            && a.Account?
            && a.total == a.upfront + a.net + a.fee + a.refund + s.remainingBalance
            && a.upfront == a.total / 5
            && 0 <= EL.Gross(a) - 10 * a.fee <= 9 * a.drips
  {
    ReachableInv(w);
    assert EL.SessionOk(w.now, w.escrow, id);
  }

  // ---- Sessions whose user is a contract ----

  lemma {:induction false} RefundAnnounced(events: seq<Escrow.Entry>, id: Id)
    requires EL.AccountOf(events, id).Account? && EL.AccountOf(events, id).refund > 0
    ensures var a := EL.AccountOf(events, id); Payout(a.user, a.refund) in EL.Named(events)
    decreases |events|
  {
    var front, x := events[..|events| - 1], events[|events| - 1];
    if EL.AccountOf(front, id).Account? && EL.AccountOf(front, id).refund == EL.AccountOf(events, id).refund {
      RefundAnnounced(front, id);
    }
  }

  lemma {:induction false} OutOfSent(transfers: seq<Transfer>, from: Address, x: Payout)
    requires x in OutOf(transfers, from)
    ensures Transfer(from, x.to, x.amount) in transfers
    decreases |transfers|
  {
    var front := transfers[..|transfers| - 1];
    if x in OutOf(front, from) {
      OutOfSent(front, from, x);
    }
  }

  /** Over any run, a session whose user is a contract has refunded nothing: its deposit has gone to the provider and into
      fees, or is still there. */
  lemma ContractUserNeverRefunded(w: World, id: Id)
    requires Reachable(w) && id in w.escrow.sessions && IsContract(w.escrow.sessions[id].user)
    ensures var a := EL.AccountOf(w.escrow.events, id);
            a.Account? && a.refund == 0 && a.total == a.upfront + a.net + a.fee + w.escrow.sessions[id].remainingBalance
  {
    SessionConserved(w, id);
    SessionUser(w, id);
    var a := EL.AccountOf(w.escrow.events, id);
    if a.refund > 0 {
      RefundAnnounced(w.escrow.events, id);
      PaidAsAnnounced(w);
      OutOfSent(w.transfers, EscrowContract, Payout(a.user, a.refund));
    }
  }

  lemma SessionUser(w: World, id: Id)
    requires Reachable(w) && id in w.escrow.sessions
    ensures var a := EL.AccountOf(w.escrow.events, id); a.Account? && a.user == w.escrow.sessions[id].user
  {
    ReachableInv(w);
    assert EL.SessionOk(w.now, w.escrow, id);
  }

  /** A session opened by an award: nobody can stop it, an authority can slash it exactly when nothing is left in it, and
      none of its deposit has come back. */
  lemma AwardedSessionFate(w: World, tx: Tx, id: Id, evidence: nat)
    requires Reachable(w) && id in w.auction.jobs && w.auction.jobs[id].status.Awarded?
    ensures id in w.escrow.sessions
    ensures tx.call == ToEscrow(Escrow.StopSession(id)) ==> Step(w, tx) == w
    ensures tx.call == ToEscrow(Escrow.SlashProvider(id, evidence)) ==>
              (Exec(w, tx).Done? <==>
                 && tx.sender.Wallet? && tx.value == 0 && (tx.sender == w.escrow.proofAuthority || tx.sender == w.escrow.owner)
                 && Escrow.Active(w.escrow, id) && w.escrow.sessions[id].remainingBalance == 0)
    ensures EL.AccountOf(w.escrow.events, id).Account? && EL.AccountOf(w.escrow.events, id).refund == 0
  {
    AwardHasItsSession(w, id);
    ContractUserNeverRefunded(w, id);
    if tx.call == ToEscrow(Escrow.StopSession(id)) {
      assert Start(w, tx) == Reverted;
      RevertedStays(w, tx);
    } else if tx.call == ToEscrow(Escrow.SlashProvider(id, evidence)) {
      SlashFate(w, tx, id, evidence);
    }
  }

  // ---- Witnesses ----

  /** A job open, with nobody bidding, after its window has closed. */
  lemma LonelyJobReachable(w: World, alice: Address, value: nat)
    requires Genesis(w) && Scarce(w) && alice.Wallet? && 0 < value <= Balance(w, alice) && w.now + 100 <= MAX_UINT256
    ensures var u := Tick(Run(w, [Plain(alice, value, AnyJob(1))]), 31);
            && Reachable(u) && Scarce(u) && Balance(u, AuctionContract) == value && 1 !in u.escrow.sessions
            && 1 in u.auction.jobs && u.auction.jobs[1].status.Open? && Auction.WindowClosed(u.auction.jobs[1], u.now)
            && Auction.BidsOf(u.auction, 1) == [] && u.auction.fallbackProvider == w.auction.fallbackProvider
  {
    var x := Plain(alice, value, AnyJob(1));
    AfterOne(w, x);
    PostAccepted(Tick(w, 1), alice, value, 1);
    RunKeepsTotal(w, [x]);
    TickReachable(Run(w, [x]), 31);
  }

  /** Such a session with money in it is reachable from every deployment with a fallback provider: post a job, let the
      window pass, close. */
  lemma AuctionSessionReachable(w: World, alice: Address, value: nat) returns (v: World)
    requires Genesis(w) && Scarce(w) && alice.Wallet? && 0 < value <= Balance(w, alice) && w.now + 100 <= MAX_UINT256
    requires w.auction.fallbackProvider.Wallet?
    ensures Reachable(v) && 1 in v.auction.jobs && v.auction.jobs[1].status.Awarded?
    ensures Escrow.Active(v.escrow, 1) && v.escrow.sessions[1].remainingBalance == value - value / 5 > 0
  {
    var x, tx := Plain(alice, value, AnyJob(1)), Tx(alice, 0, ToAuction(Auction.CloseAuction(1)), Accept, Accept);
    LonelyJobReachable(w, alice, value);
    AfterOneMore(w, [x], Block(31, tx));
    v := Run(w, [x] + [Block(31, tx)]);
    CloseFate(Tick(Run(w, [x]), 31), tx, 1);
    CloseMovesBalance(Tick(Run(w, [x]), 31), tx, 1, v);
  }

  function OpeningOf(alice: Address, value: nat, bob: Address, rate: nat): seq<Block> {
    [Block(0, Tx(alice, value, ToEscrow(Escrow.StartSession(1, bob, rate)), Accept, Accept))]
  }

  /** A session at any rate is reachable from every deployment. */
  lemma SessionReachable(w: World, alice: Address, value: nat, bob: Address, rate: nat, wait: nat)
    requires Genesis(w) && Scarce(w) && alice.Wallet? && bob.Wallet? && 0 < value <= Balance(w, alice) && rate > 0
    ensures var v := Tick(Run(w, OpeningOf(alice, value, bob, rate)), wait);
            && Reachable(v) && Scarce(v) && v.now == w.now + wait
            && 1 in v.escrow.sessions && v.escrow.sessions[1] == Escrow.Session(alice, bob, rate, value - value / 5, w.now, true)
  {
    var b := OpeningOf(alice, value, bob, rate)[0];
    AfterOne(w, b);
    assert Run(w, []) == w && Tick(w, 0) == w;
    StartSessionFate(w, b.tx, 1, bob, rate);
    var v := Run(w, [b]);
    SessionAsAsked(w, b.tx, 1, bob, rate, v);
    RunKeepsTotal(w, [b]);
    RunNow(w, b);
    TickReachable(v, wait);
  }

  lemma RunNow(w: World, b: Block)
    ensures Run(w, [b]).now == w.now + b.wait
  {
    AfterOne(w, b);
    Guarantee.StepSound(Tick(w, b.wait), b.tx);
  }

  /** The overflow is reachable: at the highest rate, from two seconds on, drips and the user's own stop never go through,
      while a slash by the owner does, and sends the user everything that is left. */
  lemma OverflowReachable(w: World, alice: Address, value: nat, bob: Address, wait: nat, tx: Tx, evidence: nat)
    requires Genesis(w) && Scarce(w) && alice.Wallet? && bob.Wallet? && 0 < value <= Balance(w, alice) && wait >= 2
    ensures var v := Tick(Run(w, OpeningOf(alice, value, bob, MAX_UINT256)), wait);
            && Escrow.Active(v.escrow, 1) && Escrow.PendingPayment(v.escrow, v.now, 1).None?
            && (Accrues(tx.call, 1) ==> Step(v, tx) == v)
            && (tx.call == ToEscrow(Escrow.SlashProvider(1, evidence)) && tx.value == 0 && tx.sender.Wallet?
                && tx.sender == v.escrow.owner && Accepts(tx.first) && Accepts(tx.second) ==>
                  Exec(v, tx).Done? && OutOf(Step(v, tx).transfers, EscrowContract) ==
                                         OutOf(v.transfers, EscrowContract) + Payment(alice, value - value / 5))
  {
    var v := Tick(Run(w, OpeningOf(alice, value, bob, MAX_UINT256)), wait);
    SessionReachable(w, alice, value, bob, MAX_UINT256, wait);
    if tx.call == ToEscrow(Escrow.SlashProvider(1, evidence)) {
      SlashFate(v, tx, 1, evidence);
      if Exec(v, tx).Done? {
        SlashPays(v, tx, 1, evidence, Step(v, tx));
      }
    } else if Accrues(tx.call, 1) {
      OverflowLocksStream(v, tx, 1, 0);
    }
  }

  /** Without any overflow the provider has a say: at one wei a second the user's stop goes through exactly when the
      provider takes its instalment, and the user the rest. */
  lemma StopNeedsProvider(w: World, alice: Address, value: nat, bob: Address, wait: nat, first: Reaction, second: Reaction)
    requires Genesis(w) && Scarce(w) && alice.Wallet? && bob.Wallet? && 0 < value <= Balance(w, alice) && 0 < wait <= MAX_UINT256
    ensures var v := Tick(Run(w, OpeningOf(alice, value, bob, 1)), wait);
            Exec(v, Tx(alice, 0, ToEscrow(Escrow.StopSession(1)), first, second)).Done? <==>
              Accepts(first) && (wait < value - value / 5 ==> Accepts(second))
  {
    SessionReachable(w, alice, value, bob, 1, wait);
    StopFate(Tick(Run(w, OpeningOf(alice, value, bob, 1)), wait), Tx(alice, 0, ToEscrow(Escrow.StopSession(1)), first, second), 1);
  }
}
