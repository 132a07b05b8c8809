/** What holds in every reachable state of the three contracts, and at every point where outside code runs. */
module ChainTheorems {
  import opened Common
  import opened MapSum
  import opened Machine
  import opened Guarantee
  import EL = EscrowLedger
  import ES = EscrowSound
  import RS = RegistrySound
  import Auction = AuctionSpec
  import AS = AuctionSound

  // ---- Reachable states ----

  ghost predicate LedgersOk(w: World) {
    && (forall id :: EL.SessionOk(w.now, w.escrow, id))
    && (forall id :: EL.DepositOk(w.escrow, id))
    && RS.RegistryOk(w.registry) && (forall a :: RS.StakeOk(w.registry, a))
    && (forall id :: AS.BookOk(w.now, w.auction, id))
    && (forall id :: AS.RecordOk(w.auction, id))
  }

  /** Every wei each contract holds is owed, and nothing owed is missing. */
  ghost predicate Solvent(w: World) {
    EscrowSlack(w) == 0 && RegistrySlack(w) == 0 && AuctionFunded(w)
  }

  ghost predicate Idle(w: World) {
    !w.escrow.entered && !w.registry.entered && !w.auction.entered
  }

  ghost predicate Inv(w: World) {
    LedgersOk(w) && Solvent(w) && Idle(w)
  }

  lemma GenesisInv(w: World)
    requires Genesis(w)
    ensures Inv(w)
  {
    assert EL.Deposits(w.escrow) == map[] && EL.Balances(w.escrow) == map[];
    assert RS.Stakes(w.registry) == map[];
  }

  lemma TickInv(w: World, wait: nat)
    requires Inv(w)
    ensures Inv(Tick(w, wait))
  {
    var v := Tick(w, wait);
    forall id
      ensures EL.SessionOk(v.now, v.escrow, id) && AS.BookOk(v.now, v.auction, id)
    {
      assert EL.SessionOk(w.now, w.escrow, id) && AS.BookOk(w.now, w.auction, id);
    }
  }

  lemma GuarInv(w: World, v: World)
    requires Inv(w) && Guar(w, v)
    ensures Inv(v)
  {
  }

  lemma {:induction false} RunInv(w: World, blocks: seq<Block>)
    requires Inv(w)
    ensures Inv(Run(w, blocks))
    decreases |blocks|
  {
    if blocks != [] {
      var front, b := blocks[..|blocks| - 1], blocks[|blocks| - 1];
      RunInv(w, front);
      TickInv(Run(w, front), b.wait);
      StepSound(Tick(Run(w, front), b.wait), b.tx);
      GuarInv(Tick(Run(w, front), b.wait), Run(w, blocks));
    }
  }

  /** Between transactions the three balances are exactly what the ledgers, replayed from the events, say is owed. */
  lemma ReachableInv(w: World)
    requires Reachable(w)
    ensures Inv(w)
  {
    var start, blocks :| Genesis(start) && w == Run(start, blocks);
    GenesisInv(start);
    RunInv(start, blocks);
  }

  /** No run creates or destroys ETH, over all wallets and contracts. */
  lemma {:induction false} RunKeepsTotal(w: World, blocks: seq<Block>)
    ensures Sum(Run(w, blocks).eth) == Sum(w.eth)
    decreases |blocks|
  {
    if blocks != [] {
      var front, b := blocks[..|blocks| - 1], blocks[|blocks| - 1];
      RunKeepsTotal(w, front);
      StepSound(Tick(Run(w, front), b.wait), b.tx);
    }
  }

  // ---- Call points ----

  /** The state outside code is shown: ledgers intact, each contract holding at least what it owes. */
  ghost predicate Shown(w: World, v: World) {
    && v.now == w.now && Sum(v.eth) == Sum(w.eth)
    && EscrowSlack(v) >= EscrowSlack(w) && RegistrySlack(v) == RegistrySlack(w) && (AuctionFunded(w) ==> AuctionFunded(v))
    && EL.Keeps(w.now, w.escrow, v.escrow) && RS.Keeps(w.registry, v.registry) && AS.Keeps(w.now, w.auction, v.auction)
  }

  lemma ShownTransitive(u: World, w: World, v: World)
    requires Shown(u, w) && Shown(w, v)
    ensures Shown(u, v)
  {
  }

  lemma WaitingShown(w: World, v: World, k: Kont)
    requires Waiting(w, v, k)
    ensures Shown(w, v)
  {
  }

  lemma {:induction false} SeenBySound(w: World, r: Reaction)
    ensures forall v | v in SeenBy(w, r) :: Shown(w, v)
    decreases r, 0
  {
    match r
    case Then(tx, rest) =>
      SeenDuringSound(w, tx);
      StepSound(w, tx);
      SeenBySound(Step(w, tx), rest);
      forall v | v in SeenBy(Step(w, tx), rest)
        ensures Shown(w, v)
      {
        ShownTransitive(w, Step(w, tx), v);
      }
    case _ =>
  }

  lemma {:induction false} SeenAtSound(w: World, p: Pause, r: Reaction)
    requires PauseSound(w, p)
    ensures forall v | v in SeenAt(p, r) :: Shown(w, v)
    decreases r, 1
  {
    if p.Calling? && CanPay(p.w, p.from, p.to, p.amount) {
      var c := Paid(p.w, p.from, p.to, p.amount);
      WaitingShown(w, c, p.k);
      SeenBySound(c, r);
      forall v | v in SeenAt(p, r)
        ensures Shown(w, v)
      {
        ShownTransitive(w, c, v);
      }
    }
  }

  lemma {:induction false} SeenDuringSound(w: World, tx: Tx)
    ensures forall v | v in SeenDuring(w, tx) :: Shown(w, v)
    decreases tx, 0
  {
    Guarantee.StartSound(w, tx);
    AdvanceSound(w, Start(w, tx), tx.first);
    SeenAtSound(w, Start(w, tx), tx.first);
    SeenAtSound(w, Advance(Start(w, tx), tx.first), tx.second);
  }

  /** Solvency at every external call point of every transaction, at any depth of re-entry. */
  lemma CallPointsSolvent(w: World, tx: Tx, v: World)
    requires Reachable(w) && v in SeenDuring(w, tx)
    ensures Balance(v, EscrowContract) >= EL.Liabilities(v.escrow)
    ensures Balance(v, RegistryContract) == Sum(RS.Stakes(v.registry))
    ensures Balance(v, AuctionContract) == AS.Pooled(v.auction)
    ensures LedgersOk(v)
  {
    ReachableInv(w);
    SeenDuringSound(w, tx);
  }

  // ---- Guards ----

  /** While a contract is being paid for, whoever is paid cannot move a session, a fee, a stake or a job. */
  lemma GuardsHold(w: World, r: Reaction)
    requires React(w, r).Some?
    ensures var v := React(w, r).value;
            && (w.escrow.entered ==> EL.Frozen(w.escrow, v.escrow) && Balance(v, EscrowContract) == Balance(w, EscrowContract))
            && (w.registry.entered ==> RS.Frozen(w.registry, v.registry) && Balance(v, RegistryContract) == Balance(w, RegistryContract))
            && (w.auction.entered ==> v.auction.jobs == w.auction.jobs && Balance(v, AuctionContract) == Balance(w, AuctionContract))
  {
    ReactSound(w, r);
    var v := React(w, r).value;
    if w.escrow.entered {
      assert EL.Balances(v.escrow) == EL.Balances(w.escrow) && EL.Deposits(v.escrow) == EL.Deposits(w.escrow);
    }
  }

  // ---- Whole runs only move forward ----

  lemma {:induction false} RunGrows(w: World, blocks: seq<Block>)
    ensures var v := Run(w, blocks);
            w.now <= v.now && EL.Grows(w.escrow, v.escrow) && RS.Grows(w.registry, v.registry) && AS.Grows(w.now, w.auction, v.auction)
    decreases |blocks|
  {
    if blocks != [] {
      var front, b := blocks[..|blocks| - 1], blocks[|blocks| - 1];
      RunGrows(w, front);
      StepSound(Tick(Run(w, front), b.wait), b.tx);
      GrowsOn(w, Run(w, front), b.wait, Run(w, blocks));
    }
  }

  lemma GrowsOn(w: World, u: World, wait: nat, v: World)
    requires w.now <= u.now && EL.Grows(w.escrow, u.escrow) && RS.Grows(w.registry, u.registry) && AS.Grows(w.now, w.auction, u.auction)
    requires Guar(Tick(u, wait), v)
    ensures w.now <= v.now && EL.Grows(w.escrow, v.escrow) && RS.Grows(w.registry, v.registry) && AS.Grows(w.now, w.auction, v.auction)
  {
    ES.GrowsTransitive(w.escrow, u.escrow, v.escrow);
    AuctionGrowsLater(w.now, u.now + wait, w.auction, u.auction, v.auction);
  }

  lemma AuctionGrowsLater(now: nat, later: nat, a: Auction.State, b: Auction.State, c: Auction.State)
    requires now <= later && AS.Grows(now, a, b) && AS.Grows(later, b, c)
    ensures AS.Grows(now, a, c)
  {
    forall id
      ensures Auction.BidsOf(a, id) <= Auction.BidsOf(c, id)
    {
      assert Auction.BidsOf(a, id) <= Auction.BidsOf(b, id) && Auction.BidsOf(b, id) <= Auction.BidsOf(c, id);
    }
  }

  /** Once a job's window has closed its bids never change again. */
  lemma ClosedBookIsFinal(w: World, blocks: seq<Block>, id: Id)
    requires id in w.auction.jobs && Auction.WindowClosed(w.auction.jobs[id], w.now)
    ensures Auction.BidsOf(Run(w, blocks).auction, id) == Auction.BidsOf(w.auction, id)
  {
    RunGrows(w, blocks);
  }

  /** Ids are never reused, terms never change, and Released and Refunded deposits stay so. */
  lemma DepositsAreFinal(w: World, blocks: seq<Block>, id: Id)
    requires id in w.escrow.escrows
    ensures var v := Run(w, blocks);
            id in v.escrow.escrows && EL.Later(w.escrow.escrows[id], v.escrow.escrows[id])
    ensures w.escrow.escrows[id].status.Released? || w.escrow.escrows[id].status.Refunded? ==>
              Run(w, blocks).escrow.escrows[id] == w.escrow.escrows[id]
  {
    RunGrows(w, blocks);
  }
}
