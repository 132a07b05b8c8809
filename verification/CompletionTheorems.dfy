/** When calls complete: no contract is ever short of the ETH a payment needs, so what decides is the call's own
    conditions and whether the receivers accept. */
module CompletionTheorems {
  import opened Common
  import opened MapSum
  import opened Machine
  import opened Guarantee
  import opened ChainTheorems
  import opened Payments
  import opened PaymentTheorems
  import Escrow = EscrowSpec
  import EL = EscrowLedger
  import ES = EscrowSound
  import Registry = RegistrySpec
  import RS = RegistrySound
  import Auction = AuctionSpec
  import AS = AuctionSound

  // ---- Payments that can be made ----

  /** Whether a receiver in the end takes its payment; what it does before that never decides it. */
  predicate Accepts(r: Reaction) {
    match r
    case Accept => true
    case Reject => false
    case Then(_, rest) => Accepts(rest)
  }

  lemma {:induction false} ReactCompletes(w: World, r: Reaction)
    ensures React(w, r).Some? <==> Accepts(r)
    decreases r
  {
    if r.Then? {
      ReactCompletes(Step(w, r.tx), r.rest);
    }
  }

  /** The escrow and the registry hold at least what they owe. */
  ghost predicate Covered(w: World) {
    EscrowSlack(w) >= 0 && RegistrySlack(w) >= 0
  }

  predicate Able(p: Pause) {
    p.Calling? ==> p.amount <= Balance(p.w, p.from)
  }

  lemma AfterSlashAble(v: World, k: Escrow.Kont)
    requires k.RefundAfterSlash? && EscrowSlack(v) >= EL.Owing(k)
    ensures Able(AfterSlash(v, k))
  {
  }

  lemma EscrowStepAble(w: World, paid: World, s: Escrow.Step, value: nat)
    requires Covered(w) && EL.Booked(w.now, w.escrow, EL.Liabilities(w.escrow) + value, s) && (s.Slash? ==> value == 0)
    requires paid.now == w.now && paid.registry == w.registry && Balance(paid, RegistryContract) == Balance(w, RegistryContract)
    requires Balance(paid, EscrowContract) == Balance(w, EscrowContract) + value
    ensures Able(FromEscrow(paid, s))
  {
    if s.Slash? {
      var c := Registry.SlashStake(s.provider, s.evidence);
      RS.BeginBooked(w.registry, Msg(EscrowContract, 0, w.now), c);
      if !Registry.Begin(w.registry, Msg(EscrowContract, 0, w.now), c).Pay? {
        AfterSlashAble(paid.(escrow := s.e), s.k);
      }
    }
  }

  /** Whatever a transaction first has to pay, the contract that pays it has the ETH. */
  lemma StartAble(w: World, tx: Tx)
    requires Covered(w)
    ensures Able(Start(w, tx))
  {
    if tx.sender.Wallet? && tx.value <= Balance(w, tx.sender) {
      var m := Msg(tx.sender, tx.value, w.now);
      match tx.call
      case ToEscrow(c) =>
        ES.BeginBooked(w.escrow, m, c);
        EscrowStepAble(w, Transferred(w, tx.sender, EscrowContract, tx.value), Escrow.Begin(w.escrow, m, c), tx.value);
      case ToRegistry(c) => RS.BeginBooked(w.registry, m, c);
      case ToAuction(c) =>
        AuctionAble(w, Transferred(w, tx.sender, AuctionContract, tx.value), m,
                    Registry.ActiveAmong(w.registry, w.registry.providerList), c);
      case ToWallet(_) =>
    }
  }

  lemma AuctionAble(w: World, paid: World, m: Msg, active: seq<Registry.Provider>, c: Auction.Call)
    requires paid.auction == w.auction
    ensures Able(FromAuction(paid, Auction.Begin(w.auction, m, Balance(paid, AuctionContract), active, c)))
  {
    AS.BeginBooked(w.auction, m, Balance(paid, AuctionContract), active, c);
    match Auction.Begin(w.auction, m, Balance(paid, AuctionContract), active, c)
    case Award(_, id, provider, rate, deposit) => StartOpens(paid.escrow, Msg(AuctionContract, deposit, paid.now), id, provider, rate);
    case _ =>
  }

  lemma EscrowResumeAble(v: World, k: Escrow.Kont)
    requires v.escrow.entered && EscrowSlack(v) >= EL.Owing(k) && EL.KontOk(v.escrow, v.now, k)
    ensures Able(FromEscrow(v, Escrow.Resume(v.escrow, v.now, k)))
  {
    ES.ResumeBooked(v.escrow, v.now, k);
  }

  /** The same for the second payment of stopSession and slashProvider, after any reaction to the first. */
  lemma ResumeAble(w: World, v: World, k: Kont)
    requires Covered(w) && Waiting(w, v, k)
    ensures Able(Resume(v, k))
  {
    match k
    case EscrowK(k) => EscrowResumeAble(v, k);
    case SlashK(k) => AfterSlashAble(v.(registry := Registry.Exit(v.registry)), k);
    case _ =>
  }

  lemma AdvanceAble(w: World, p: Pause, r: Reaction)
    requires Covered(w) && PauseSound(w, p) && Able(p)
    ensures Able(Advance(p, r))
  {
    if p.Calling? {
      var u := Send(p.w, p.from, p.to, p.amount, r);
      if u.Some? {
        ReactSound(Paid(p.w, p.from, p.to, p.amount), r);
        WaitingThen(w, Paid(p.w, p.from, p.to, p.amount), u.value, p.k);
        ResumeAble(w, u.value, p.k);
      } else if p.rescue.Some? {
        AfterSlashAble(p.rescue.value.(registry := Registry.Exit(p.rescue.value.registry)), p.k.k);
      }
    }
  }

  /** No call makes a third payment. */
  lemma NoThirdPayment(w: World, tx: Tx)
    ensures !Exec(w, tx).Calling?
  {
    var p := Start(w, tx);
    var q := Advance(p, tx.first);
    if p.Calling? && q.Calling? {
      var u := Send(p.w, p.from, p.to, p.amount, tx.first);
      ResumesOnce(if u.Some? then u.value else p.rescue.value, p.k);
      assert q.k == EscrowK(Escrow.Exit) && q.rescue.None?;
    }
  }

  lemma ResumesOnce(v: World, k: Kont)
    ensures var q := Resume(v, k); q.Calling? ==> q.k == EscrowK(Escrow.Exit) && q.rescue.None? && q.from.EscrowContract?
  {
  }

  /** In every reachable state, and in every state outside code runs in, at any depth, no call fails for want of ETH. */
  lemma NeverShort(w: World, tx: Tx, v: World, inner: Tx)
    requires Reachable(w) && (v == w || v in SeenDuring(w, tx))
    ensures Able(Start(v, inner)) && Able(Advance(Start(v, inner), inner.first)) && !Exec(v, inner).Calling?
  {
    ReachableInv(w);
    if v in SeenDuring(w, tx) {
      CallPointsSolvent(w, tx, v);
    }
    Guarantee.StartSound(v, inner);
    StartAble(v, inner);
    AdvanceAble(v, Start(v, inner), inner.first);
    NoThirdPayment(v, inner);
  }

  lemma Sent(p: Pause, r: Reaction)
    requires p.Calling? && Able(p)
    ensures Send(p.w, p.from, p.to, p.amount, r).Some? <==> !IsContract(p.to) && Accepts(r)
  {
    if CanPay(p.w, p.from, p.to, p.amount) {
      ReactCompletes(Paid(p.w, p.from, p.to, p.amount), r);
    }
  }

  /** A payment after which only guards are given back: the receiver decides. */
  predicate Final(k: Kont) {
    k == EscrowK(Escrow.Exit) || k.RegistryK? || k.AuctionK? || k.AwardK? || k.WalletK?
  }

  lemma FinalFate(p: Pause, r: Reaction)
    requires p.Calling? && Able(p) && Final(p.k) && p.rescue.None?
    ensures Advance(p, r).Done? <==> !IsContract(p.to) && Accepts(r)
    ensures !Advance(p, r).Calling?
  {
    Sent(p, r);
  }

  lemma OnePaymentFate(w: World, tx: Tx)
    requires Covered(w)
    requires var p := Start(w, tx); p.Calling? ==> Final(p.k) && p.rescue.None?
    ensures var p := Start(w, tx); Exec(w, tx).Done? <==> p.Done? || (p.Calling? && !IsContract(p.to) && Accepts(tx.first))
  {
    StartAble(w, tx);
    if Start(w, tx).Calling? {
      FinalFate(Start(w, tx), tx.first);
    }
  }

  // ---- Supply ----

  /** Little enough ETH for the contracts' percentages to stay within 256 bits. There are some 2^87 wei. */
  ghost predicate Scarce(w: World) {
    Sum(w.eth) * 2000 <= MAX_UINT256
  }

  lemma SessionBounded(w: World, id: Id)
    requires Covered(w) && id in w.escrow.sessions
    ensures w.escrow.sessions[id].remainingBalance + w.escrow.accruedFees <= Sum(w.eth)
  {
    SumBounds(EL.Balances(w.escrow), id);
    SumBounds(w.eth, EscrowContract);
  }

  lemma DepositBounded(w: World, id: Id)
    requires Covered(w) && id in w.escrow.escrows
    ensures EL.Outstanding(w.escrow.escrows[id]) + w.escrow.accruedFees <= Sum(w.eth)
  {
    SumBounds(EL.Deposits(w.escrow), id);
    SumBounds(w.eth, EscrowContract);
  }

  lemma ReachableCovered(w: World)
    requires Reachable(w)
    ensures Covered(w) && !w.escrow.entered && !w.registry.entered && !w.auction.entered
  {
    ReachableInv(w);
  }

  /** Time may pass between transactions. */
  lemma TickReachable(w: World, wait: nat)
    requires Reachable(w)
    ensures Reachable(Tick(w, wait))
  {
    var start, blocks :| Genesis(start) && w == Run(start, blocks);
    var idle := Block(wait, Tx(Zero, 0, ToWallet(Zero), Reject, Reject));
    assert (blocks + [idle])[..|blocks|] == blocks;
    assert Advance(Reverted, Reject) == Reverted;
    assert Run(start, blocks + [idle]) == Tick(w, wait);
  }

  // ---- Single payments ----

  /** A refund goes through exactly when 24 hours have passed, as the view isLockupExpired says, for the depositor, who only
      has to accept it. */
  lemma RefundFate(w: World, tx: Tx, id: Id)
    requires Reachable(w) && tx.call == ToEscrow(Escrow.Refund(id))
    ensures Escrow.IsLockupExpired(w.escrow, w.now, id) == Some(true) <==>
              id in w.escrow.escrows && w.escrow.escrows[id].depositedAt + 24 * 3600 <= Min(w.now, MAX_UINT256)
    ensures Exec(w, tx).Done? <==>
              && tx.sender.Wallet? && tx.value == 0 && id in w.escrow.escrows && w.escrow.escrows[id].status.Pending?
              && tx.sender == w.escrow.escrows[id].user && w.escrow.escrows[id].depositedAt + 24 * 3600 <= Min(w.now, MAX_UINT256)
              && Accepts(tx.first)
  {
    ReachableCovered(w);
    OnePaymentFate(w, tx);
  }

  /** A release needs a deposit still pending and a provider that takes its money; no arithmetic ever stops it. */
  lemma ReleaseFate(w: World, tx: Tx, id: Id)
    requires Reachable(w) && Scarce(w) && tx.call == ToEscrow(Escrow.Release(id))
    ensures Exec(w, tx).Done? <==>
              && tx.sender.Wallet? && tx.value == 0 && (tx.sender == w.escrow.releaseAuthority || tx.sender == w.escrow.owner)
              && id in w.escrow.escrows && w.escrow.escrows[id].status.Pending?
              && !IsContract(w.escrow.escrows[id].provider) && Accepts(tx.first)
  {
    ReachableCovered(w);
    OnePaymentFate(w, tx);
    if id in w.escrow.escrows {
      DepositBounded(w, id);
    }
  }

  /** The owner can always resolve a dispute, either way, if the party it pays takes its money. */
  lemma ResolveFate(w: World, tx: Tx, id: Id, toProvider: bool)
    requires Reachable(w) && Scarce(w) && tx.call == ToEscrow(Escrow.ResolveDispute(id, toProvider))
    ensures Exec(w, tx).Done? <==>
              && tx.sender.Wallet? && tx.value == 0 && tx.sender == w.escrow.owner
              && id in w.escrow.escrows && w.escrow.escrows[id].status.Disputed?
              && var d := w.escrow.escrows[id];
                 !IsContract(if toProvider then d.provider else d.user) && Accepts(tx.first)
  {
    ReachableCovered(w);
    OnePaymentFate(w, tx);
    if id in w.escrow.escrows {
      DepositBounded(w, id);
    }
  }

  /** A session opens for whoever pays for one under a fresh id, if the provider takes its upfront part. */
  lemma StartSessionFate(w: World, tx: Tx, id: Id, provider: Address, rate: nat)
    requires Reachable(w) && Scarce(w) && tx.call == ToEscrow(Escrow.StartSession(id, provider, rate))
    ensures Exec(w, tx).Done? <==>
              && tx.sender.Wallet? && 0 < tx.value <= Balance(w, tx.sender) && rate > 0 && id !in w.escrow.sessions
              && !IsContract(provider) && Accepts(tx.first)
  {
    ReachableCovered(w);
    OnePaymentFate(w, tx);
    SumBounds(w.eth, tx.sender);
    StartOpens(w.escrow, Msg(tx.sender, tx.value, w.now), id, provider, rate);
  }

  /** Whether a session's clock times its rate stays within 256 bits. */
  predicate InRange(w: World, s: Escrow.Session) {
    (w.now - s.lastPaidAt) * s.ratePerSecond <= MAX_UINT256
  }

  /** What a session has earned its provider since it was last paid: time at its rate, as far as the balance goes. */
  function Earned(w: World, s: Escrow.Session): int {
    if (w.now - s.lastPaidAt) * s.ratePerSecond < s.remainingBalance then (w.now - s.lastPaidAt) * s.ratePerSecond
    else s.remainingBalance
  }

  /** In every reachable state pendingPayment shows an active session's earnings, and fails only where the multiplication
      leaves 256 bits; of any other id it shows nothing. */
  lemma PendingIsEarned(w: World, id: Id)
    requires Reachable(w)
    ensures Escrow.Active(w.escrow, id) ==>
              var s := w.escrow.sessions[id];
              && s.lastPaidAt <= w.now && Earned(w, s) >= 0
              && Escrow.PendingPayment(w.escrow, w.now, id) == if InRange(w, s) then Some(Earned(w, s)) else None
    ensures !Escrow.Active(w.escrow, id) ==> Escrow.PendingPayment(w.escrow, w.now, id) == Some(0)
  {
    if Escrow.Active(w.escrow, id) {
      PaidInThePast(w, id);
      OwedIsEarned(w, w.escrow.sessions[id]);
    }
  }

  lemma PaidInThePast(w: World, id: Id)
    requires Reachable(w) && id in w.escrow.sessions
    ensures w.escrow.sessions[id].lastPaidAt <= w.now
  {
    ReachableInv(w);
    assert EL.SessionOk(w.now, w.escrow, id);
  }

  lemma OwedIsEarned(w: World, s: Escrow.Session)
    requires s.lastPaidAt <= w.now
    ensures Earned(w, s) >= 0 && Escrow.Owed(s, w.now) == if InRange(w, s) then Some(Earned(w, s)) else None
  {
    assert (w.now - s.lastPaidAt) * s.ratePerSecond >= 0;
  }

  /** When a session's earnings can be paid out: they can be computed, and the provider takes what there is. */
  predicate CanDrip(w: World, tx: Tx, id: Id) {
    && tx.sender.Wallet? && tx.value == 0 && Escrow.Active(w.escrow, id)
    && var s := w.escrow.sessions[id];
       InRange(w, s) && (Earned(w, s) > 0 ==> !IsContract(s.provider) && Accepts(tx.first))
  }

  /** Anyone can have a session's earnings paid out, exactly when they can be. */
  lemma DripFate(w: World, tx: Tx, id: Id)
    requires Reachable(w) && Scarce(w) && tx.call == ToEscrow(Escrow.ReleasePayment(id))
    ensures Exec(w, tx).Done? <==> CanDrip(w, tx, id)
  {
    ReachableCovered(w);
    PendingIsEarned(w, id);
    OnePaymentFate(w, tx);
    if id in w.escrow.sessions {
      SessionBounded(w, id);
    }
  }

  /** A proof does the same, from the proof authority or the owner. */
  lemma ProofFate(w: World, tx: Tx, id: Id)
    requires Reachable(w) && Scarce(w) && tx.call == ToEscrow(Escrow.SubmitProof(id))
    ensures Exec(w, tx).Done? <==> CanDrip(w, tx, id) && (tx.sender == w.escrow.proofAuthority || tx.sender == w.escrow.owner)
  {
    ReachableCovered(w);
    PendingIsEarned(w, id);
    OnePaymentFate(w, tx);
    if id in w.escrow.sessions {
      SessionBounded(w, id);
    }
  }

  /** A provider gets back what it asks for, up to its stake. */
  lemma UnstakeFate(w: World, tx: Tx, amount: nat)
    requires Reachable(w) && tx.call == ToRegistry(Registry.Unstake(amount))
    ensures Exec(w, tx).Done? <==>
              && tx.sender.Wallet? && tx.value == 0 && tx.sender in w.registry.providers
              && 0 < amount <= w.registry.providers[tx.sender].stakedAmount && Accepts(tx.first)
  {
    ReachableCovered(w);
    OnePaymentFate(w, tx);
  }

  /** A user cancels its own open job, unless bids are still being taken and there is one. */
  lemma CancelFate(w: World, tx: Tx, id: Id)
    requires Reachable(w) && tx.call == ToAuction(Auction.CancelJob(id))
    ensures Exec(w, tx).Done? <==>
              && tx.sender.Wallet? && tx.value == 0 && id in w.auction.jobs && w.auction.jobs[id].status.Open?
              && tx.sender == w.auction.jobs[id].user
              && (w.now > w.auction.jobs[id].depositedAt + 30 || Auction.BidsOf(w.auction, id) == [])
              && Accepts(tx.first)
  {
    ReachableInv(w);
    OnePaymentFate(w, tx);
    assert AS.RecordOk(w.auction, id);
  }

  /** Whom an award would go to. */
  function Winning(a: Auction.State, id: Id): Address {
    var bids := Auction.BidsOf(a, id);
    if bids == [] then a.fallbackProvider else Auction.Winner(bids).provider
  }

  lemma OpenSessionFate(c: World, id: Id, provider: Address, rate: nat, deposit: nat)
    requires rate > 0 && deposit <= Balance(c, AuctionContract) && deposit * 2000 <= MAX_UINT256 && !c.escrow.entered
    ensures var p := OpenSession(c, id, provider, rate, deposit);
            && !p.Done? && (p.Calling? <==> deposit > 0 && id !in c.escrow.sessions)
            && (p.Calling? ==> p.k.AwardK? && p.to == provider && p.rescue.None?)
  {
  }

  lemma CloseCalls(w: World, tx: Tx, id: Id)
    requires !w.escrow.entered && !w.auction.entered && Scarce(w) && AS.RecordOk(w.auction, id)
    requires tx.call == ToAuction(Auction.CloseAuction(id)) && tx.sender.Wallet?
    ensures var p := Start(w, tx);
            && !p.Done? && (p.Calling? ==> Final(p.k) && p.to == Winning(w.auction, id) && p.rescue.None?)
            && (p.Calling? <==>
                  && tx.value == 0 && id in w.auction.jobs && w.auction.jobs[id].status.Open?
                  && w.now > w.auction.jobs[id].depositedAt + 30
                  && (Auction.BidsOf(w.auction, id) == [] ==> w.auction.fallbackProvider != Zero)
                  && Balance(w, AuctionContract) > 0 && id !in w.escrow.sessions)
  {
    SumBounds(w.eth, AuctionContract);
    var s := Auction.Close(w.auction, Msg(tx.sender, 0, w.now), id, Balance(w, AuctionContract));
    if s.Award? {
      OpenSessionFate(Transferred(w, tx.sender, AuctionContract, 0).(auction := s.a), id, s.provider, s.ratePerSecond, s.deposit);
    }
  }

  /** An auction settles once its window has closed, if there is a winner who accepts, a deposit left in the contract, and
      nobody has yet opened a session under the job's id. */
  lemma CloseFate(w: World, tx: Tx, id: Id)
    requires Reachable(w) && Scarce(w) && tx.call == ToAuction(Auction.CloseAuction(id))
    ensures Exec(w, tx).Done? <==>
              && tx.sender.Wallet? && tx.value == 0 && id in w.auction.jobs && w.auction.jobs[id].status.Open?
              && w.now > w.auction.jobs[id].depositedAt + 30
              && (Auction.BidsOf(w.auction, id) == [] ==> w.auction.fallbackProvider != Zero)
              && Balance(w, AuctionContract) > 0 && id !in w.escrow.sessions
              && !IsContract(Winning(w.auction, id)) && Accepts(tx.first)
  {
    ReachableInv(w);
    assert AS.RecordOk(w.auction, id);
    if tx.sender.Wallet? {
      CloseCalls(w, tx, id);
    }
    OnePaymentFate(w, tx);
  }

  // ---- stopSession ----

  /** A session's user can stop it exactly when its earnings can be computed, the provider takes them, and the user takes
      what is left. */
  lemma StopFate(w: World, tx: Tx, id: Id)
    requires Reachable(w) && Scarce(w) && tx.call == ToEscrow(Escrow.StopSession(id))
    ensures Exec(w, tx).Done? <==> CanStop(w, tx, id)
  {
    ReachableCovered(w);
    PendingIsEarned(w, id);
    if Start(w, tx).Reverted? {
      StopBegins(w, tx, id);
      assert Advance(Reverted, tx.first) == Reverted && Advance(Reverted, tx.second) == Reverted;
    } else {
      StopStarts(w, tx, id);
      StartAble(w, tx);
      Guarantee.StartSound(w, tx);
      AdvanceAble(w, Start(w, tx), tx.first);
      StopEnds(w, Start(w, tx), tx, id);
    }
  }

  predicate CanStop(w: World, tx: Tx, id: Id) {
    && tx.sender.Wallet? && tx.value == 0 && Escrow.Active(w.escrow, id) && tx.sender == w.escrow.sessions[id].user
    && InRange(w, w.escrow.sessions[id]) && Taken(w.escrow.sessions[id], Earned(w, w.escrow.sessions[id]), tx)
  }

  /** The provider takes its instalment if there is one, then the user takes the remainder if there is one. */
  predicate Taken(s: Escrow.Session, owed: int, tx: Tx) {
    && (owed > 0 ==> !IsContract(s.provider) && Accepts(tx.first))
    && (owed < s.remainingBalance ==> Accepts(if owed > 0 then tx.second else tx.first))
  }

  lemma StopBegins(w: World, tx: Tx, id: Id)
    requires Covered(w) && !w.escrow.entered && Scarce(w) && tx.call == ToEscrow(Escrow.StopSession(id))
    requires Escrow.Active(w.escrow, id) ==> w.escrow.sessions[id].lastPaidAt <= w.now
    ensures CanStop(w, tx, id) ==> !Start(w, tx).Reverted?
  {
    if id in w.escrow.sessions {
      SessionBounded(w, id);
    }
  }

  lemma RefundFinal(p: Pause, v0: World, to: Address, amount: nat, r: Reaction)
    requires RefundPause(p, v0, to, amount) && Able(p) && !IsContract(to)
    ensures Advance(p, r).Done? <==> amount == 0 || Accepts(r)
    ensures !Advance(p, r).Calling?
  {
    if p.Calling? {
      FinalFate(p, r);
    }
  }

  lemma StopEnds(w: World, p: Pause, tx: Tx, id: Id)
    requires tx.sender.Wallet? && tx.value == 0
    requires Escrow.Active(w.escrow, id) && Escrow.Owed(w.escrow.sessions[id], w.now).Some? && StopPause(w, tx.sender, id, p)
    requires tx.sender == w.escrow.sessions[id].user && Able(p) && Able(Advance(p, tx.first))
    requires InRange(w, w.escrow.sessions[id]) && Escrow.Owed(w.escrow.sessions[id], w.now).value == Earned(w, w.escrow.sessions[id])
    ensures Advance(Advance(p, tx.first), tx.second).Done? <==> CanStop(w, tx, id)
  {
    var s, owed := w.escrow.sessions[id], Escrow.Owed(w.escrow.sessions[id], w.now).value;
    if owed == 0 {
      RefundFinal(p, StopClosed(w, tx.sender, id), s.user, s.remainingBalance, tx.first);
    } else {
      Sent(p, tx.first);
      assert Advance(Reverted, tx.second) == Reverted;
      var u := Send(p.w, p.from, p.to, p.amount, tx.first);
      if u.Some? {
        StopFinishes(p, tx.first, u.value, id);
        RefundFinal(Advance(p, tx.first), u.value.(escrow := Escrow.Close(u.value.escrow, u.value.now, id)),
                    s.user, s.remainingBalance - owed, tx.second);
      }
    }
  }

  // ---- slashProvider ----

  /** Whether the registry does its part of slashProvider: the escrow is its authority and the provider registered. */
  predicate RegistryHears(w: World, provider: Address) {
    && (w.registry.slashAuthority == EscrowContract || w.registry.owner == EscrowContract)
    && provider in w.registry.providers && w.registry.providers[provider].slashCount < MAX_UINT256
  }

  predicate CanSlash(w: World, tx: Tx, id: Id) {
    && tx.sender.Wallet? && tx.value == 0 && (tx.sender == w.escrow.proofAuthority || tx.sender == w.escrow.owner)
    && Escrow.Active(w.escrow, id)
    && var s := w.escrow.sessions[id];
       s.remainingBalance > 0 ==>
         !IsContract(s.user) && Accepts(if RegistryHears(w, s.provider) then tx.second else tx.first)
  }

  /** A slash by an authority goes through, overflow or not and whatever the registry and its owner do, exactly when
      there is nothing left to refund or the user can take it. */
  lemma SlashFate(w: World, tx: Tx, id: Id, evidence: nat)
    requires Reachable(w) && tx.call == ToEscrow(Escrow.SlashProvider(id, evidence))
    ensures Exec(w, tx).Done? <==> CanSlash(w, tx, id)
  {
    ReachableCovered(w);
    if Start(w, tx).Reverted? {
      SlashAllowed(w, tx, id, evidence);
      assert Advance(Reverted, tx.first) == Reverted && Advance(Reverted, tx.second) == Reverted;
    } else {
      StartAble(w, tx);
      Guarantee.StartSound(w, tx);
      AdvanceAble(w, Start(w, tx), tx.first);
      SlashEnds(w, tx, id, evidence);
    }
  }

  /** The refund that ends slashProvider, from wherever it is made. */
  lemma SlashRefund(q: Pause, v0: World, to: Address, amount: nat, r: Reaction)
    requires RefundPause(q, v0, to, amount) && Able(q)
    ensures Advance(q, r).Done? <==> (amount > 0 ==> !IsContract(to) && Accepts(r))
    ensures !Advance(q, r).Calling?
  {
    if amount > 0 {
      FinalFate(q, r);
    }
  }

  lemma SlashAllowed(w: World, tx: Tx, id: Id, evidence: nat)
    requires !w.escrow.entered && !w.registry.entered && tx.call == ToEscrow(Escrow.SlashProvider(id, evidence))
    requires Start(w, tx).Reverted?
    ensures !CanSlash(w, tx, id)
  {
  }

  lemma SlashEnds(w: World, tx: Tx, id: Id, evidence: nat)
    requires !w.registry.entered && tx.call == ToEscrow(Escrow.SlashProvider(id, evidence)) && !Start(w, tx).Reverted?
    requires Able(Start(w, tx)) && Able(Advance(Start(w, tx), tx.first))
    ensures Exec(w, tx).Done? <==> CanSlash(w, tx, id)
  {
    SlashStarts(w, tx, id, evidence);
    var p, s, w' := Start(w, tx), w.escrow.sessions[id], SlashClosed(w, tx.sender, id, evidence);
    var k := Escrow.RefundAfterSlash(s.user, s.remainingBalance);
    if RegistryHears(w, s.provider) {
      var v0 := RegistryAnswered(p.w, w', p.to, p.amount, k, tx.first);
      AfterSlashRefunds(v0, s.user, s.remainingBalance);
      SlashRefund(Advance(p, tx.first), v0, s.user, s.remainingBalance, tx.second);
    } else {
      AfterSlashRefunds(w', s.user, s.remainingBalance);
      SlashRefund(p, w', s.user, s.remainingBalance, tx.first);
    }
  }
}
