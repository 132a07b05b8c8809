/** Deposits, stakes and auctions over whole runs. */
module SettlementTheorems {
  import opened Common
  import opened MapSum
  import opened Machine
  import opened Guarantee
  import opened ChainTheorems
  import opened Payments
  import opened PaymentTheorems
  import Escrow = EscrowSpec
  import EL = EscrowLedger
  import Registry = RegistrySpec
  import RS = RegistrySound
  import Auction = AuctionSpec
  import AS = AuctionSound

  // ---- Simple deposits ----

  /** What the log says was paid out on account of deposit `id`. */
  ghost function PaymentsFor(events: seq<Escrow.Entry>, id: Id): seq<Payout> {
    if events == [] then []
    else
      var x := events[|events| - 1].event;
      PaymentsFor(events[..|events| - 1], id) + if (x.PaidOut? || x.RefundedTo?) && x.id == id then EL.Announced(x) else []
  }

  lemma {:induction false} CustodyTellsPayments(events: seq<Escrow.Entry>, id: Id)
    requires !EL.CustodyOf(events, id).Misused?
    ensures PaymentsFor(events, id) ==
            match EL.CustodyOf(events, id)
            case Settled(user, provider, amount, _, refunded) => if refunded then Payment(user, amount) else Payment(provider, Net(amount))
            case _ => []
    decreases |events|
  {
    if events != [] {
      var front, x := events[..|events| - 1], events[|events| - 1];
      CustodyTellsPayments(front, id);
      if (x.event.PaidOut? || x.event.RefundedTo?) && x.event.id == id {
        CustodyPays(EL.CustodyOf(front, id), x, id);
      }
    }
  }

  /** One event of a deposit in custody: the payment it announces is the one custody is left for. */
  lemma CustodyPays(c: EL.Custody, x: Escrow.Entry, id: Id)
    requires (x.event.PaidOut? || x.event.RefundedTo?) && x.event.id == id && !EL.PostDeposit(c, x, id).Misused?
    ensures c.Holding?
    ensures EL.Announced(x.event) == if x.event.PaidOut? then Payment(c.provider, Net(c.amount)) else Payment(c.user, c.amount)
  {
    if c.Holding? {
      TenPercent(c.amount);
    }
  }

  /** Over any run a deposit is paid out at most once: all of it back to the depositor, or all but the fee to its own
      provider, as its status says. The log this is read from lists exactly what has left the contract. */
  lemma DepositPaidAtMostOnce(w: World, id: Id)
    requires Reachable(w)
    ensures OutOf(w.transfers, EscrowContract) == EL.Named(w.escrow.events)
    ensures PaymentsFor(w.escrow.events, id) ==
            if id !in w.escrow.escrows then []
            else
              var d := w.escrow.escrows[id];
              if d.status.Refunded? then Payment(d.user, d.amount)
              else if d.status.Released? then Payment(d.provider, Net(d.amount)) else []
  {
    ReachableInv(w);
    PaidAsAnnounced(w);
    assert EL.DepositOk(w.escrow, id);
    CustodyTellsPayments(w.escrow.events, id);
  }

  /** No refund without a dispute comes before the lockup has passed; and the ETH has gone to the depositor, right after
      what had been sent before. */
  lemma RefundWaitsForLockup(w: World, k: nat, id: Id, user: Address, amount: nat)
    requires Reachable(w) && k < |w.escrow.events| && w.escrow.events[k].event == Escrow.RefundedTo(id, user, amount)
    ensures var c := EL.CustodyOf(w.escrow.events[..k], id);
            && c.Holding? && c.user == user && c.amount == amount
            && (c.disputed || w.escrow.events[k].at >= c.at + Escrow.LOCKUP_PERIOD)
            && EL.Named(w.escrow.events[..k]) + Payment(c.user, c.amount) <= OutOf(w.transfers, EscrowContract)
  {
    PaidAsAnnounced(w);
    AnnouncedAt(w.escrow.events, k);
    NotMisused(w, id);
    RefundReads(w.escrow.events, k, id, user, amount);
  }

  lemma NotMisused(w: World, id: Id)
    requires Reachable(w)
    ensures !EL.CustodyOf(w.escrow.events, id).Misused?
  {
    ReachableInv(w);
    assert EL.DepositOk(w.escrow, id);
  }

  /** The custody a refund ends. */
  lemma RefundReads(events: seq<Escrow.Entry>, k: nat, id: Id, user: Address, amount: nat)
    requires k < |events| && events[k].event == Escrow.RefundedTo(id, user, amount) && !EL.CustodyOf(events, id).Misused?
    ensures var c := EL.CustodyOf(events[..k], id);
            c.Holding? && c.user == user && c.amount == amount && (c.disputed || events[k].at >= c.at + Escrow.LOCKUP_PERIOD)
  {
    NeverMisused(events, k + 1, id);
    EL.CustodyAppend(events[..k], events[k], id);
    assert events[..k + 1] == events[..k] + [events[k]];
  }

  lemma {:induction false} NeverMisused(events: seq<Escrow.Entry>, k: nat, id: Id)
    requires k <= |events| && !EL.CustodyOf(events, id).Misused?
    ensures !EL.CustodyOf(events[..k], id).Misused?
    decreases |events|
  {
    if k < |events| {
      var front := events[..|events| - 1];
      NeverMisused(front, k, id);
      assert front[..k] == events[..k];
    } else {
      assert events[..k] == events;
    }
  }

  // ---- Stakes ----

  lemma ReachableStake(w: World, blocks: seq<Block>, a: Address)
    requires Reachable(w) && a in w.registry.providers
    ensures var v := Run(w, blocks);
            && w.registry.events <= v.registry.events && a in v.registry.providers
            && RS.StakeOf(w.registry.events, a) == Some(w.registry.providers[a].stakedAmount)
            && RS.StakeOf(v.registry.events, a) == Some(v.registry.providers[a].stakedAmount)
  {
    ReachableInv(w);
    RunInv(w, blocks);
    RunGrows(w, blocks);
    assert RS.StakeOk(w.registry, a) && RS.StakeOk(Run(w, blocks).registry, a);
  }

  /** From any reachable state, if `a` neither registers nor moves stake, k slashes leave ceil(s / 2^k), however
      many other transactions and re-entrant calls there are. */
  lemma SlashesHalveStake(w: World, blocks: seq<Block>, a: Address, more: seq<Registry.Event>)
    requires Reachable(w) && a in w.registry.providers
    requires Run(w, blocks).registry.events == w.registry.events + more
    requires forall x | x in more :: !RS.StakingBy(x, a)
    ensures var v := Run(w, blocks);
            a in v.registry.providers
            && v.registry.providers[a].stakedAmount == RS.CeilShift(w.registry.providers[a].stakedAmount, RS.Slashes(more, a))
  {
    ReachableStake(w, blocks, a);
    RS.SlashesHalve(w.registry.events, more, a);
  }

  /** The registry's books: its balance is the stakes, an active provider is staked, the list is the set of providers. */
  lemma RegistryBooks(w: World, a: Address)
    requires Reachable(w)
    ensures Balance(w, RegistryContract) == Sum(RS.Stakes(w.registry))
    ensures Registry.IsActive(w.registry, a) ==> w.registry.providers[a].stakedAmount >= Registry.MIN_STAKE
    ensures a in w.registry.providerList <==> a in w.registry.providers
    ensures |w.registry.providerList| == |w.registry.providers|
  {
    ReachableInv(w);
    ListCounts(w.registry.providerList, w.registry.providers.Keys);
  }

  lemma {:induction false} ListCounts(list: seq<Address>, keys: set<Address>)
    requires forall i, j | 0 <= i < j < |list| :: list[i] != list[j]
    requires forall a :: a in list <==> a in keys
    ensures |list| == |keys|
    decreases |list|
  {
    if list == [] {
      assert keys == {};
    } else {
      var last := list[|list| - 1];
      assert last in list;
      var front := list[..|list| - 1];
      forall a
        ensures a in front <==> a in keys - {last}
      {
        if a in keys - {last} {
          assert a in list;
        }
      }
      ListCounts(front, keys - {last});
    }
  }

  // ---- Auctions ----

  /** The award stands on the first lowest-price bid, and the view lowestBid still names it. */
  lemma AwardIsLowestBid(w: World, id: Id) returns (i: nat)
    requires Reachable(w) && id in w.auction.jobs && w.auction.jobs[id].status.Awarded? && Auction.BidsOf(w.auction, id) != []
    ensures var bids, j := Auction.BidsOf(w.auction, id), w.auction.jobs[id];
            && i < |bids| && Auction.Lowest(bids) == bids[i]
            && j.winningProvider == bids[i].provider && j.winningRatePerSecond == Auction.Rate(bids[i].pricePerHour)
            && (forall k | 0 <= k < |bids| :: bids[i].pricePerHour <= bids[k].pricePerHour)
            && (forall k | 0 <= k < i :: bids[i].pricePerHour < bids[k].pricePerHour)
            && bids[i].pricePerHour <= j.maxPricePerHour
            && (bids[i].pricePerHour >= 3600 ==>
                  bids[i].pricePerHour - 3600 < 3600 * j.winningRatePerSecond <= bids[i].pricePerHour)
  {
    ReachableInv(w);
    assert AS.BookOk(w.now, w.auction, id);
    var bids := Auction.BidsOf(w.auction, id);
    i := AS.LowestIsFirstCheapest(bids);
    AS.WinnerIsLowest(bids);
    AS.RateBounds(bids[i].pricePerHour);
  }

  /** The fallback rate, read back per hour, respects the ceiling exactly when the ceiling is a wei a second or more. */
  lemma FallbackRespectsCeiling(w: World, id: Id)
    requires Reachable(w) && id in w.auction.jobs && w.auction.jobs[id].status.Awarded? && Auction.BidsOf(w.auction, id) == []
    ensures var j := w.auction.jobs[id];
            j.winningRatePerSecond * 3600 <= j.maxPricePerHour <==> j.maxPricePerHour >= 3600
  {
    ReachableInv(w);
    assert AS.BookOk(w.now, w.auction, id);
    AS.RateBounds(w.auction.jobs[id].maxPricePerHour);
  }

  /** Only a provider whose own record is active, and therefore staked, gets a bid stored; at most once per job. */
  lemma BidderIsStaked(w: World, tx: Tx, id: Id, price: nat, v: World)
    requires Reachable(w) && tx.call == ToAuction(Auction.SubmitBid(id, price)) && Exec(w, tx) == Done(v)
    ensures Registry.IsActive(w.registry, tx.sender) && w.registry.providers[tx.sender].stakedAmount >= Auction.MIN_STAKE
    ensures (id, tx.sender) !in w.auction.hasBid && (id, tx.sender) in v.auction.hasBid
    ensures Auction.BidsOf(v.auction, id) == Auction.BidsOf(w.auction, id) + [Auction.Bid(tx.sender, price, w.now)]
  {
    ReachableInv(w);
    AS.ScanEqualsLookup(w.registry, tx.sender);
  }

  /** Submitting again, at any later time, changes nothing: redelivered events are harmless. */
  lemma SecondBidIsIgnored(w: World, blocks: seq<Block>, tx: Tx, id: Id, price: nat)
    requires (id, tx.sender) in w.auction.hasBid && tx.call == ToAuction(Auction.SubmitBid(id, price))
    ensures Step(Run(w, blocks), tx) == Run(w, blocks)
  {
    RunGrows(w, blocks);
    assert Start(Run(w, blocks), tx) == Reverted;
    assert Advance(Reverted, tx.first) == Reverted && Advance(Reverted, tx.second) == Reverted;
  }

  // ---- Whose money does a settlement move? ----

  /** Where cancelJob stands when it pays: the job is cancelled and the whole balance is on its way to its user. */
  ghost predicate CancelPause(w: World, user: Address, id: Id, p: Pause) {
    && p.Calling? && p.from.AuctionContract? && p.to == user && p.amount == Balance(w, AuctionContract) == Balance(p.w, AuctionContract)
    && p.k.AuctionK? && p.rescue.None? && p.w.auction.entered && AS.Pooled(p.w.auction) == 0 && p.w.transfers == w.transfers
    && p.w.auction.events == w.auction.events + [Auction.JobCancelled(id, user, Balance(w, AuctionContract))]
    && CancelsOnly(w, p.w, id)
  }

  /** The job is cancelled, and no job has changed otherwise. */
  predicate CancelsOnly(w: World, v: World, id: Id) {
    id in w.auction.jobs && v.auction.jobs == w.auction.jobs[id := w.auction.jobs[id].(status := Auction.Cancelled)]
  }

  lemma CancelStarts(w: World, tx: Tx, id: Id)
    requires tx.call == ToAuction(Auction.CancelJob(id)) && !Start(w, tx).Reverted?
    ensures id in w.auction.jobs && w.auction.jobs[id].status.Open? && w.auction.jobs[id].user == tx.sender && !w.auction.entered
    ensures CancelPause(w, tx.sender, id, Start(w, tx))
  {
    AS.CancelSound(w.auction, Msg(tx.sender, 0, w.now), id, Balance(w, AuctionContract));
  }

  /** The auction has emptied itself, and whoever it paid is done. */
  lemma AuctionSent(c: World, from: Address, to: Address, amount: nat, r: Reaction, u: World)
    requires CanPay(c, from, to, amount) && React(Paid(c, from, to, amount), r) == Some(u)
    requires c.auction.entered && AS.Pooled(c.auction) == 0
    requires Balance(c, AuctionContract) == if from.AuctionContract? then amount else 0
    ensures u.auction.jobs == c.auction.jobs && c.auction.events <= u.auction.events && Recorded(c.transfers, from, to, amount) <= u.transfers
    ensures OutOf(u.transfers, AuctionContract) ==
            OutOf(c.transfers, AuctionContract) + if from.AuctionContract? then Payment(to, amount) else []
  {
    var paid := Paid(c, from, to, amount);
    ContractSends(c, from, to, amount);
    HeldTrail(paid, r, u);
    GuardsHold(paid, r);
    ReactSound(paid, r);
    assert OutOf(c.transfers, AuctionContract) + [] == OutOf(c.transfers, AuctionContract);
  }

  /** What a completed cancelJob has done with `balance`: cancelled the job, announced it, and sent the balance to the job's user
      and nobody else. */
  ghost predicate Refunds(w: World, v: World, id: Id, user: Address, balance: nat) {
    && CancelsOnly(w, v, id)
    && w.auction.events + [Auction.JobCancelled(id, user, balance)] <= v.auction.events
    && Recorded(w.transfers, AuctionContract, user, balance) <= v.transfers
    && OutOf(v.transfers, AuctionContract) == OutOf(w.transfers, AuctionContract) + Payment(user, balance)
  }

  /** cancelJob sends the auction's whole balance to the job's user, and nothing else. */
  lemma CancelMovesBalance(w: World, tx: Tx, id: Id, v: World)
    requires tx.call == ToAuction(Auction.CancelJob(id)) && Exec(w, tx) == Done(v)
    ensures id in w.auction.jobs && w.auction.jobs[id].status.Open? && w.auction.jobs[id].user == tx.sender
    ensures Refunds(w, v, id, tx.sender, Balance(w, AuctionContract))
  {
    assert Advance(Reverted, tx.first) == Reverted && Advance(Reverted, tx.second) == Reverted;
    CancelStarts(w, tx, id);
    CancelFinishes(w, Start(w, tx), tx, id, v);
  }

  lemma CancelFinishes(w: World, p: Pause, tx: Tx, id: Id, v: World)
    requires CancelPause(w, tx.sender, id, p) && Advance(Advance(p, tx.first), tx.second) == Done(v)
    ensures Refunds(w, v, id, tx.sender, Balance(w, AuctionContract))
  {
    assert Advance(Reverted, tx.second) == Reverted;
    var u := Send(p.w, p.from, p.to, p.amount, tx.first);
    AuctionSent(p.w, p.from, p.to, p.amount, tx.first, u.value);
  }

  /** The session an award opens on a deposit. */
  function Opened(j: Auction.Job, deposit: nat, now: nat): Escrow.Session {
    Escrow.Session(AuctionContract, j.winningProvider, j.winningRatePerSecond, deposit - deposit / 5, now, true)
  }

  function OpenedEvent(j: Auction.Job, id: Id, deposit: nat): Escrow.Event {
    Escrow.SessionStarted(id, AuctionContract, j.winningProvider, deposit, deposit / 5, deposit - deposit / 5, j.winningRatePerSecond)
  }

  /** Awarded to the first lowest bid, or to the fallback when nobody bid. */
  predicate WonBy(a: Auction.State, id: Id, j: Auction.Job) {
    var bids := Auction.BidsOf(a, id);
    j.status.Awarded? &&
    j.winningProvider == if bids == [] then a.fallbackProvider else Auction.Winner(bids).provider
  }

  /** What closeAuction has done with `balance` when only the provider's upfront payment is still to be sent. */
  predicate AwardStands(w: World, v: World, id: Id, balance: nat) {
    && id in w.auction.jobs && id in v.auction.jobs && WonBy(w.auction, id, v.auction.jobs[id])
    && v.auction.jobs == w.auction.jobs[id := w.auction.jobs[id].(
         status := Auction.Awarded, winningProvider := v.auction.jobs[id].winningProvider,
         winningRatePerSecond := v.auction.jobs[id].winningRatePerSecond)]
    && w.escrow.events + [Escrow.Entry(w.now, OpenedEvent(v.auction.jobs[id], id, balance))] <= v.escrow.events
    && v.escrow.sessions == w.escrow.sessions[id := Opened(v.auction.jobs[id], balance, w.now)]
  }

  ghost predicate ClosePause(w: World, id: Id, p: Pause) {
    var balance := Balance(w, AuctionContract);
    && p.Calling? && AwardStands(w, p.w, id, balance) && w.auction.jobs[id].status.Open?
    && p.from.EscrowContract? && p.to == p.w.auction.jobs[id].winningProvider && p.amount == balance / 5
    && p.k.AwardK? && p.rescue.None? && p.w.escrow.entered && p.w.auction.entered
    && AS.Pooled(p.w.auction) == 0 == Balance(p.w, AuctionContract)
    && p.w.transfers == Recorded(w.transfers, AuctionContract, EscrowContract, balance)
  }

  lemma AwardStarts(w: World, paid: World, a: Auction.State, id: Id, provider: Address, rate: nat)
    requires paid.escrow == w.escrow && paid.transfers == w.transfers && paid.now == w.now
    requires Balance(paid, AuctionContract) == Balance(w, AuctionContract)
    requires id in w.auction.jobs && w.auction.jobs[id].status.Open? && id in a.jobs && WonBy(w.auction, id, a.jobs[id])
    requires a.jobs[id].winningProvider == provider && a.jobs[id].winningRatePerSecond == rate && a.entered && AS.Pooled(a) == 0
    requires a.jobs == w.auction.jobs[id := w.auction.jobs[id].(
               status := Auction.Awarded, winningProvider := provider, winningRatePerSecond := rate)]
    ensures var p := OpenSession(paid.(auction := a), id, provider, rate, Balance(w, AuctionContract));
            !p.Reverted? ==> ClosePause(w, id, p)
  {
    StartOpens(w.escrow, Msg(AuctionContract, Balance(w, AuctionContract), w.now), id, provider, rate);
  }

  lemma CloseStarts(w: World, tx: Tx, id: Id)
    requires tx.call == ToAuction(Auction.CloseAuction(id)) && !Start(w, tx).Reverted?
    ensures ClosePause(w, id, Start(w, tx))
  {
    var s := Auction.Close(w.auction, Msg(tx.sender, 0, w.now), id, Balance(w, AuctionContract));
    AS.CloseSound(w.auction, Msg(tx.sender, 0, w.now), id, Balance(w, AuctionContract));
    AwardStarts(w, Transferred(w, tx.sender, AuctionContract, 0), s.a, id, s.provider, s.ratePerSecond);
  }

  /** What a completed closeAuction has done with `balance`: opened the winner's session on it, sent it to the escrow and
      a fifth of it on to the winner, and sent nothing else. */
  ghost predicate Awards(w: World, v: World, id: Id, balance: nat) {
    && AwardStands(w, v, id, balance)
    && var winner := v.auction.jobs[id].winningProvider;
    && Recorded(Recorded(w.transfers, AuctionContract, EscrowContract, balance), EscrowContract, winner, balance / 5) <= v.transfers
    && OutOf(v.transfers, AuctionContract) == OutOf(w.transfers, AuctionContract) + Payment(EscrowContract, balance)
    && OutOf(v.transfers, EscrowContract) == OutOf(w.transfers, EscrowContract) + Payment(winner, balance / 5)
  }

  /** closeAuction opens the winner's session with the auction's whole balance. */
  lemma CloseMovesBalance(w: World, tx: Tx, id: Id, v: World)
    requires tx.call == ToAuction(Auction.CloseAuction(id)) && Exec(w, tx) == Done(v)
    ensures id in w.auction.jobs && w.auction.jobs[id].status.Open? && Awards(w, v, id, Balance(w, AuctionContract))
  {
    assert Advance(Reverted, tx.first) == Reverted && Advance(Reverted, tx.second) == Reverted;
    CloseStarts(w, tx, id);
    CloseFinishes(w, Start(w, tx), tx, id, v);
  }

  lemma CloseFinishes(w: World, p: Pause, tx: Tx, id: Id, v: World)
    requires ClosePause(w, id, p) && Advance(Advance(p, tx.first), tx.second) == Done(v)
    ensures Awards(w, v, id, Balance(w, AuctionContract))
  {
    assert Advance(Reverted, tx.second) == Reverted;
    var u := Send(p.w, p.from, p.to, p.amount, tx.first).value;
    AwardHeld(w, p, id, tx.first, u);
    assert v == u.(escrow := u.escrow.(entered := false), auction := Auction.Exit(u.auction));
  }

  /** The winner has been paid, and may have done what it likes in between. */
  lemma AwardHeld(w: World, p: Pause, id: Id, r: Reaction, u: World)
    requires ClosePause(w, id, p) && Send(p.w, p.from, p.to, p.amount, r) == Some(u)
    ensures Awards(w, u, id, Balance(w, AuctionContract))
  {
    var balance := Balance(w, AuctionContract);
    AuctionSent(p.w, p.from, p.to, p.amount, r, u);
    SentThenHeld(p, r, u);
    SessionsHeld(p.w, p.from, p.to, p.amount, r, u);
    OutOfRecorded(w.transfers, AuctionContract, EscrowContract, balance, AuctionContract);
    OutOfRecorded(w.transfers, AuctionContract, EscrowContract, balance, EscrowContract);
  }

  /** In a run in which jobs never overlap, a completed cancel or close moves exactly the deposit its own job was posted
      with: back to the job's user, or into the winner's session. */
  lemma SettlementMovesOwnDeposit(w: World, tx: Tx, id: Id, v: World, x: Auction.Event)
    requires Reachable(w) && AS.NoOverlap(w.auction.events) && Exec(w, tx) == Done(v)
    requires x in w.auction.events && x.JobPosted? && x.id == id
    ensures tx.call == ToAuction(Auction.CancelJob(id)) ==> Refunds(w, v, id, x.user, x.deposit)
    ensures tx.call == ToAuction(Auction.CloseAuction(id)) ==> Awards(w, v, id, x.deposit)
  {
    ReachableInv(w);
    assert AS.RecordOk(w.auction, id);
    AS.PostedOnce(w.auction.events, x);
    if tx.call == ToAuction(Auction.CancelJob(id)) {
      CancelMovesBalance(w, tx, id, v);
      OwnDepositExactly(w, id);
    } else if tx.call == ToAuction(Auction.CloseAuction(id)) {
      CloseMovesBalance(w, tx, id, v);
      OwnDepositExactly(w, id);
    }
  }

  /** A job posted since the last settlement gets exactly its own deposit moved if and only if no other job was
      posted since then; in runs where jobs never overlap that is always so. */
  lemma OwnDepositExactly(w: World, id: Id)
    requires Reachable(w) && AS.RecordOf(w.auction.events, id).Posted?
    ensures var d := AS.RecordOf(w.auction.events, id).deposit;
            (id, d) in AS.Pool(w.auction.events) ==>
              (Balance(w, AuctionContract) == d <==> AS.Pool(w.auction.events) == [(id, d)])
    ensures AS.NoOverlap(w.auction.events) ==> Balance(w, AuctionContract) == AS.RecordOf(w.auction.events, id).deposit
  {
    ReachableInv(w);
    var events, d := w.auction.events, AS.RecordOf(w.auction.events, id).deposit;
    forall i
      ensures !AS.RecordOf(events, i).Garbled?
    {
      assert AS.RecordOk(w.auction, i);
    }
    if (id, d) in AS.Pool(events) {
      AS.AloneInPool(events, id, d);
    }
    if AS.NoOverlap(events) {
      AS.WithoutOverlap(events);
      assert AS.Pool(events)[..0] == [];
    }
  }

  function Plain(sender: Address, value: nat, c: Auction.Call): Block {
    Block(1, Tx(sender, value, ToAuction(c), Accept, Accept))
  }

  /** A job of no particular size, with a ceiling of zero. */
  function AnyJob(id: Id): Auction.Call {
    Auction.PostJob(id, 0, 0, 0, 1)
  }

  lemma AfterOne(w: World, b: Block)
    ensures Run(w, [b]) == Step(Tick(w, b.wait), b.tx)
  {
    assert [b][..0] == [];
  }

  lemma AfterOneMore(w: World, blocks: seq<Block>, b: Block)
    ensures Run(w, blocks + [b]) == Step(Tick(Run(w, blocks), b.wait), b.tx)
  {
    assert (blocks + [b])[..|blocks|] == blocks;
  }

  /** A fresh job with a positive deposit is posted. */
  lemma PostAccepted(w: World, sender: Address, value: nat, id: Id)
    requires sender.Wallet? && 0 < value <= Balance(w, sender) && id !in w.auction.jobs && !w.auction.entered && w.now + 30 <= MAX_UINT256
    ensures var v := Step(w, Plain(sender, value, AnyJob(id)).tx);
            && v.now == w.now && v.eth == Move(w.eth, sender, AuctionContract, value) && !v.auction.entered
            && v.auction.jobs == w.auction.jobs[id := Auction.Job(sender, w.now, 0, 0, 0, 1, Auction.Open, Zero, 0)]
            && v.auction.bids == w.auction.bids && v.auction.fallbackProvider == w.auction.fallbackProvider && v.escrow == w.escrow
  {
    var tx := Plain(sender, value, AnyJob(id)).tx;
    var p := Start(w, tx);
    assert p.Done?;
    assert Advance(p, Accept) == p;
  }

  /** An open job without bids is cancelled by its user, who receives the whole balance. */
  lemma CancelAccepted(w: World, sender: Address, id: Id)
    requires sender.Wallet? && id in w.auction.jobs && w.auction.jobs[id].status.Open? && w.auction.jobs[id].user == sender
    requires Auction.BidsOf(w.auction, id) == [] && !w.auction.entered && w.auction.jobs[id].depositedAt + 30 <= MAX_UINT256
    ensures var v := Step(w, Plain(sender, 0, Auction.CancelJob(id)).tx);
            && Balance(v, sender) == Balance(w, sender) + Balance(w, AuctionContract) && Balance(v, AuctionContract) == 0
            && v.auction.jobs == w.auction.jobs[id := w.auction.jobs[id].(status := Auction.Cancelled)]
  {
    var tx := Plain(sender, 0, Auction.CancelJob(id)).tx;
    var p := Start(w, tx);
    assert p.Calling? && p.amount == Balance(w, AuctionContract) && p.to == sender;
    var u := Paid(p.w, p.from, p.to, p.amount);
    assert React(u, Accept) == Some(u);
    assert Advance(p, Accept) == Resume(u, AuctionK);
    assert Advance(Resume(u, AuctionK), Accept) == Resume(u, AuctionK);
  }

  /** Without the proviso it fails, from every deployment and for any two users: of two open jobs, the first to be
      cancelled takes both deposits, and the other stays open with nothing behind it. */
  lemma OverlapMovesBothDeposits(w: World, alice: Address, bob: Address, a: nat, b: nat)
    requires Genesis(w) && alice.Wallet? && bob.Wallet? && alice != bob && w.now + 100 <= MAX_UINT256
    requires 0 < a <= Balance(w, alice) && 0 < b <= Balance(w, bob)
    ensures var v := Run(w, [Plain(alice, a, AnyJob(1)), Plain(bob, b, AnyJob(2)), Plain(alice, 0, Auction.CancelJob(1))]);
            && Balance(v, alice) == Balance(w, alice) + b && Balance(v, AuctionContract) == 0
            && 2 in v.auction.jobs && v.auction.jobs[2].status.Open?
  {
    var x, y, z := Plain(alice, a, AnyJob(1)), Plain(bob, b, AnyJob(2)), Plain(alice, 0, Auction.CancelJob(1));
    AfterOne(w, x);
    PostAccepted(Tick(w, 1), alice, a, 1);
    AfterOneMore(w, [x], y);
    PostAccepted(Tick(Run(w, [x]), 1), bob, b, 2);
    assert [x] + [y] == [x, y];
    AfterOneMore(w, [x, y], z);
    CancelAccepted(Tick(Run(w, [x, y]), 1), alice, 1);
    assert [x, y] + [z] == [x, y, z];
  }
}
