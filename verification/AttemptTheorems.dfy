/** Who can change what, over whole runs and through any depth of calls back into the contracts. */
module AttemptTheorems {
  import opened Common
  import opened Machine
  import Escrow = EscrowSpec
  import Registry = RegistrySpec
  import Auction = AuctionSpec

  /** A transaction, and the state it starts from. */
  datatype Attempt = Attempt(w: World, tx: Tx)

  /** Every transaction sent in the course of one, itself included, at any depth of reactions to its payments. */
  ghost function Attempts(w: World, tx: Tx): seq<Attempt>
    decreases tx, 0
  {
    [Attempt(w, tx)] + AttemptsAt(Start(w, tx), tx.first) + AttemptsAt(Advance(Start(w, tx), tx.first), tx.second)
  }

  ghost function AttemptsAt(p: Pause, r: Reaction): seq<Attempt>
    decreases r, 1
  {
    if p.Calling? && CanPay(p.w, p.from, p.to, p.amount) then AttemptsBy(Paid(p.w, p.from, p.to, p.amount), r) else []
  }

  ghost function AttemptsBy(w: World, r: Reaction): seq<Attempt>
    decreases r, 0
  {
    match r
    case Then(tx, rest) => Attempts(w, tx) + AttemptsBy(Step(w, tx), rest)
    case _ => []
  }

  ghost function RunAttempts(w: World, blocks: seq<Block>): seq<Attempt> {
    if blocks == [] then []
    else
      var b := blocks[|blocks| - 1];
      RunAttempts(w, blocks[..|blocks| - 1]) + Attempts(Tick(Run(w, blocks[..|blocks| - 1]), b.wait), b.tx)
  }

  // ---- Facts about storage, and who may end them ----

  /** A fact about the contracts' storage. */
  type Fact = (Escrow.State, Registry.State, Auction.State) -> bool

  predicate On(fact: Fact, w: World) {
    fact(w.escrow, w.registry, w.auction)
  }

  predicate PauseOn(fact: Fact, safe: Kont -> bool, p: Pause) {
    && (!p.Reverted? ==> On(fact, p.w)) && (p.Calling? ==> safe(p.k))
    && (p.Calling? && p.rescue.Some? ==> On(fact, p.rescue.value))
  }

  /** Only a transaction with the right to, or the continuation of one, ends the fact. */
  ghost predicate Protects(fact: Fact, right: Attempt -> bool, safe: Kont -> bool) {
    && (forall w, tx | On(fact, w) && !right(Attempt(w, tx)) :: PauseOn(fact, safe, Start(w, tx)))
    && (forall v, k | On(fact, v) && safe(k) :: PauseOn(fact, safe, Resume(v, k)))
  }

  /** Nobody with the right to end the fact tries while it holds. */
  ghost predicate NoneMay(attempts: seq<Attempt>, fact: Fact, right: Attempt -> bool) {
    forall a | a in attempts :: !(On(fact, a.w) && right(a))
  }

  lemma Split(a: seq<Attempt>, b: seq<Attempt>, fact: Fact, right: Attempt -> bool)
    requires NoneMay(a + b, fact, right)
    ensures NoneMay(a, fact, right) && NoneMay(b, fact, right)
  {
    assert forall x | x in a :: x in a + b;
    assert forall x | x in b :: x in a + b;
  }

  lemma {:induction false} ReactKeeps(w: World, r: Reaction, fact: Fact, right: Attempt -> bool, safe: Kont -> bool)
    requires Protects(fact, right, safe) && On(fact, w) && NoneMay(AttemptsBy(w, r), fact, right)
    ensures React(w, r).Some? ==> On(fact, React(w, r).value)
    decreases r, 0
  {
    if r.Then? {
      Split(Attempts(w, r.tx), AttemptsBy(Step(w, r.tx), r.rest), fact, right);
      StepKeeps(w, r.tx, fact, right, safe);
      ReactKeeps(Step(w, r.tx), r.rest, fact, right, safe);
    }
  }

  lemma {:induction false} AdvanceKeeps(p: Pause, r: Reaction, fact: Fact, right: Attempt -> bool, safe: Kont -> bool)
    requires Protects(fact, right, safe) && PauseOn(fact, safe, p) && NoneMay(AttemptsAt(p, r), fact, right)
    ensures PauseOn(fact, safe, Advance(p, r))
    decreases r, 2
  {
    if p.Calling? && CanPay(p.w, p.from, p.to, p.amount) {
      ReactKeeps(Paid(p.w, p.from, p.to, p.amount), r, fact, right, safe);
    }
  }

  /** A transaction in which nobody has the right to end it, at any depth, leaves the fact alone. */
  lemma {:induction false} StepKeeps(w: World, tx: Tx, fact: Fact, right: Attempt -> bool, safe: Kont -> bool)
    requires Protects(fact, right, safe) && On(fact, w) && NoneMay(Attempts(w, tx), fact, right)
    ensures On(fact, Step(w, tx))
    decreases tx, 1
  {
    var p := Start(w, tx);
    Split([Attempt(w, tx)] + AttemptsAt(p, tx.first), AttemptsAt(Advance(p, tx.first), tx.second), fact, right);
    Split([Attempt(w, tx)], AttemptsAt(p, tx.first), fact, right);
    assert Attempt(w, tx) in [Attempt(w, tx)];
    AdvanceKeeps(p, tx.first, fact, right, safe);
    AdvanceKeeps(Advance(p, tx.first), tx.second, fact, right, safe);
  }

  lemma {:induction false} RunKeeps(w: World, blocks: seq<Block>, fact: Fact, right: Attempt -> bool, safe: Kont -> bool)
    requires Protects(fact, right, safe) && On(fact, w) && NoneMay(RunAttempts(w, blocks), fact, right)
    ensures On(fact, Run(w, blocks))
    decreases |blocks|
  {
    if blocks != [] {
      var front, b := blocks[..|blocks| - 1], blocks[|blocks| - 1];
      Split(RunAttempts(w, front), Attempts(Tick(Run(w, front), b.wait), b.tx), fact, right);
      RunKeeps(w, front, fact, right, safe);
      StepKeeps(Tick(Run(w, front), b.wait), b.tx, fact, right, safe);
    }
  }

  /** Over any run, a fact that no longer holds was ended by somebody with the right to: in some transaction, at some depth,
      while it still held. */
  lemma EndedByRight(w: World, blocks: seq<Block>, fact: Fact, right: Attempt -> bool, safe: Kont -> bool) returns (a: Attempt)
    requires Protects(fact, right, safe) && On(fact, w) && !On(fact, Run(w, blocks))
    ensures a in RunAttempts(w, blocks) && On(fact, a.w) && right(a)
  {
    if NoneMay(RunAttempts(w, blocks), fact, right) {
      RunKeeps(w, blocks, fact, right, safe);
    }
    a :| a in RunAttempts(w, blocks) && On(fact, a.w) && right(a);
  }

  // ---- A transaction's beginning, contract by contract ----

  /** The payments that leave nothing behind but guards to give back, and those of slashProvider. */
  ghost predicate Ordinary(safe: Kont -> bool) {
    && safe(EscrowK(Escrow.Exit)) && safe(RegistryK) && safe(AuctionK) && safe(AwardK) && safe(WalletK)
    && forall k: Escrow.Kont | k.RefundAfterSlash? :: safe(SlashK(k))
  }

  /** The fact is about the contracts' records, not about their guards. */
  ghost predicate Unguarded(fact: Fact) {
    && (forall e: Escrow.State, r, a | fact(e, r, a) :: fact(e.(entered := false), r, a))
    && (forall e, r: Registry.State, a | fact(e, r, a) :: fact(e, r.(entered := false), a))
    && (forall e, r, a: Auction.State | fact(e, r, a) :: fact(e, r, a.(entered := false)))
  }

  ghost predicate EscrowKeeps(fact: Fact, safe: Kont -> bool, w: World, s: Escrow.Step) {
    && (!s.Revert? ==> fact(s.e, w.registry, w.auction))
    && (s.Pay? ==> safe(EscrowK(s.k)))
    && (s.Slash? ==>
          && s.k.RefundAfterSlash?
          && var asked := Registry.Begin(w.registry, Msg(EscrowContract, 0, w.now), Registry.SlashStake(s.provider, s.evidence));
             asked.Pay? ==> fact(s.e, asked.r, w.auction))
  }

  lemma EscrowBegins(fact: Fact, safe: Kont -> bool, w: World, paid: World, s: Escrow.Step)
    requires Ordinary(safe) && Unguarded(fact) && EscrowKeeps(fact, safe, w, s)
    requires paid.now == w.now && paid.registry == w.registry && paid.auction == w.auction
    ensures PauseOn(fact, safe, FromEscrow(paid, s))
  {
    if s.Slash? {
      AfterSlashKeeps(fact, safe, paid.(escrow := s.e), s.k);
    }
  }

  lemma AfterSlashKeeps(fact: Fact, safe: Kont -> bool, v: World, k: Escrow.Kont)
    requires Ordinary(safe) && Unguarded(fact) && On(fact, v) && k.RefundAfterSlash?
    ensures PauseOn(fact, safe, AfterSlash(v, k))
  {
  }

  /** Every step the auction may begin, and the session it opens, leave the fact alone. */
  ghost predicate AuctionKeeps(fact: Fact, w: World, s: Auction.Step) {
    && (!s.Revert? ==> fact(w.escrow, w.registry, s.a))
    && (s.Award? ==>
          var session := Escrow.Begin(w.escrow, Msg(AuctionContract, s.deposit, w.now), Escrow.StartSession(s.id, s.provider, s.ratePerSecond));
          session.Pay? ==> fact(session.e, w.registry, s.a))
  }

  lemma AuctionBegins(fact: Fact, safe: Kont -> bool, w: World, paid: World, s: Auction.Step)
    requires Ordinary(safe) && AuctionKeeps(fact, w, s)
    requires paid.now == w.now && paid.registry == w.registry && paid.escrow == w.escrow
    ensures PauseOn(fact, safe, FromAuction(paid, s))
  {
  }

  /** What each contract may do to the fact when a wallet calls it. */
  ghost predicate Spares(fact: Fact, safe: Kont -> bool, w: World, tx: Tx) {
    var m := Msg(tx.sender, tx.value, w.now);
    match tx.call
    case ToEscrow(c) => EscrowKeeps(fact, safe, w, Escrow.Begin(w.escrow, m, c))
    case ToRegistry(c) => var s := Registry.Begin(w.registry, m, c); !s.Revert? ==> fact(w.escrow, s.r, w.auction)
    case ToAuction(c) =>
      forall balance, active: seq<Registry.Provider> :: AuctionKeeps(fact, w, Auction.Begin(w.auction, m, balance, active, c))
    case ToWallet(_) => true
  }

  lemma StartSpares(fact: Fact, safe: Kont -> bool, w: World, tx: Tx)
    requires Ordinary(safe) && Unguarded(fact) && On(fact, w) && (tx.sender.Wallet? ==> Spares(fact, safe, w, tx))
    ensures PauseOn(fact, safe, Start(w, tx))
  {
    if tx.sender.Wallet? && tx.value <= Balance(w, tx.sender) {
      var m := Msg(tx.sender, tx.value, w.now);
      match tx.call
      case ToEscrow(c) => EscrowBegins(fact, safe, w, Transferred(w, tx.sender, EscrowContract, tx.value), Escrow.Begin(w.escrow, m, c));
      case ToAuction(c) =>
        var paid := Transferred(w, tx.sender, AuctionContract, tx.value);
        AuctionBegins(fact, safe, w, paid, Auction.Begin(w.auction, m, Balance(paid, AuctionContract),
                                                         Registry.ActiveAmong(w.registry, w.registry.providerList), c));
      case _ =>
    }
  }

  /** Continuations only give guards back, or close a session. */
  lemma ResumeSpares(fact: Fact, safe: Kont -> bool, v: World, k: Kont)
    requires Ordinary(safe) && Unguarded(fact) && On(fact, v) && safe(k)
    requires forall id | k == EscrowK(Escrow.FinishStop(id)) && id in v.escrow.sessions ::
               fact(Escrow.Close(v.escrow, v.now, id), v.registry, v.auction)
    requires k.SlashK? ==> k.k.RefundAfterSlash?
    ensures PauseOn(fact, safe, Resume(v, k))
  {
    if k.SlashK? {
      AfterSlashKeeps(fact, safe, v.(registry := Registry.Exit(v.registry)), k.k);
    }
  }

  /** All that has to be shown of a fact: wallets without the right spare it, and so does closing a session that may still be
      to be closed. */
  lemma ProtectsBy(fact: Fact, right: Attempt -> bool, safe: Kont -> bool)
    requires Ordinary(safe) && Unguarded(fact) && forall k: Kont | k.SlashK? && safe(k) :: k.k.RefundAfterSlash?
    requires forall w, tx: Tx | On(fact, w) && tx.sender.Wallet? && !right(Attempt(w, tx)) :: Spares(fact, safe, w, tx)
    requires forall v: World, id: Id | On(fact, v) && safe(EscrowK(Escrow.FinishStop(id))) && id in v.escrow.sessions ::
               fact(Escrow.Close(v.escrow, v.now, id), v.registry, v.auction)
    ensures Protects(fact, right, safe)
  {
    forall w, tx | On(fact, w) && !right(Attempt(w, tx))
      ensures PauseOn(fact, safe, Start(w, tx))
    {
      StartSpares(fact, safe, w, tx);
    }
    forall v, k | On(fact, v) && safe(k)
      ensures PauseOn(fact, safe, Resume(v, k))
    {
      ResumeSpares(fact, safe, v, k);
    }
  }

  /** Every payment that any call makes. */
  function AnyPayment(): Kont -> bool {
    (k: Kont) => k.SlashK? ==> k.k.RefundAfterSlash?
  }
}
