/** One induction over everything outside code can do. `Related` is what any activity guarantees about the state before
    and after it; it is a preorder, every function of the three contracts respects it, and so does every reaction. */
module Guarantee {
  import opened Common
  import opened MapSum
  import opened Machine
  import Escrow = EscrowSpec
  import EL = EscrowLedger
  import ES = EscrowSound
  import Registry = RegistrySpec
  import RS = RegistrySound
  import Auction = AuctionSpec
  import AS = AuctionSound

  // ---- ETH ----

  lemma MoveKeepsTotal(eth: map<Address, nat>, from: Address, to: Address, amount: nat)
    requires amount <= Lookup(eth, from)
    ensures Sum(Move(eth, from, to, amount)) == Sum(eth)
  {
    var taken := eth[from := Lookup(eth, from) - amount];
    SumUpdate(eth, from, Lookup(eth, from) - amount);
    SumUpdate(taken, to, Lookup(taken, to) + amount);
  }

  // ---- The guarantee ----

  ghost function EscrowSlack(w: World): int {
    Balance(w, EscrowContract) - EL.Liabilities(w.escrow)
  }

  ghost function RegistrySlack(w: World): int {
    Balance(w, RegistryContract) - Sum(RS.Stakes(w.registry))
  }

  ghost predicate AuctionFunded(w: World) {
    Balance(w, AuctionContract) == AS.Pooled(w.auction)
  }

  /** `held` says the activity has taken the contract's guard and not given it back; `owing` is money it has set aside. */
  ghost predicate EscrowPart(w: World, v: World, held: bool, owing: nat) {
    && EL.Grows(w.escrow, v.escrow) && EL.Keeps(w.now, w.escrow, v.escrow)
    && EscrowSlack(v) == EscrowSlack(w) + owing
    && if held then !w.escrow.entered && v.escrow.entered
       else v.escrow.entered == w.escrow.entered && (w.escrow.entered ==> EL.Frozen(w.escrow, v.escrow))
  }

  ghost predicate RegistryPart(w: World, v: World, held: bool) {
    && RS.Grows(w.registry, v.registry) && RS.Keeps(w.registry, v.registry)
    && RegistrySlack(v) == RegistrySlack(w)
    && if held then !w.registry.entered && v.registry.entered
       else v.registry.entered == w.registry.entered && (w.registry.entered ==> RS.Frozen(w.registry, v.registry))
  }

  ghost predicate AuctionPart(w: World, v: World, held: bool) {
    && AS.Grows(w.now, w.auction, v.auction) && AS.Keeps(w.now, w.auction, v.auction)
    && (AuctionFunded(w) ==> AuctionFunded(v))
    && if held then !w.auction.entered && v.auction.entered
       else v.auction.entered == w.auction.entered
            && (w.auction.entered ==> AS.Frozen(w.auction, v.auction) && Balance(v, AuctionContract) == Balance(w, AuctionContract))
  }

  ghost predicate Related(w: World, v: World, escrowHeld: bool, owing: nat, registryHeld: bool, auctionHeld: bool) {
    && v.now == w.now && Sum(v.eth) == Sum(w.eth)
    && EscrowPart(w, v, escrowHeld, owing) && RegistryPart(w, v, registryHeld) && AuctionPart(w, v, auctionHeld)
  }

  /** The relation between a state before and a state after any completed activity. */
  ghost predicate Guar(w: World, v: World) {
    Related(w, v, false, 0, false, false)
  }

  lemma GuarReflexive(w: World)
    ensures Guar(w, w)
  {
  }

  lemma RelatedThen(w: World, c: World, v: World, e: bool, owing: nat, r: bool, a: bool)
    requires Related(w, c, e, owing, r, a) && Guar(c, v)
    ensures Related(w, v, e, owing, r, a)
  {
    ES.GrowsTransitive(w.escrow, c.escrow, v.escrow);
    if w.escrow.entered {
      ES.FrozenTransitive(w.escrow, c.escrow, v.escrow);
    }
    AS.GrowsTransitive(w.now, w.auction, c.auction, v.auction);
  }

  // ---- Calls in progress ----

  /** What holds while the outer call, begun in w, waits for its payment to return. */
  ghost predicate Waiting(w: World, v: World, k: Kont) {
    match k
    case EscrowK(k) => Related(w, v, true, EL.Owing(k), false, false) && EL.KontOk(v.escrow, w.now, k)
    case SlashK(k) => Related(w, v, true, EL.Owing(k), true, false) && k.RefundAfterSlash?
    case RegistryK => Related(w, v, false, 0, true, false)
    case AuctionK => Related(w, v, false, 0, false, true)
    case AwardK => Related(w, v, true, 0, false, true)
    case WalletK => Guar(w, v)
  }

  ghost predicate PauseSound(w: World, p: Pause) {
    match p
    case Reverted => true
    case Done(v) => Guar(w, v)
    case Calling(c, from, to, amount, k, rescue) =>
      && (CanPay(c, from, to, amount) ==> Waiting(w, Paid(c, from, to, amount), k))
      && (rescue.Some? ==> k.SlashK? && k.k.RefundAfterSlash? && !w.registry.entered
                           && Related(w, rescue.value, true, EL.Owing(k.k), false, false))
  }

  /** Waiting survives whatever the receiver does: its continuation needs only what the guard protects. */
  lemma WaitingThen(w: World, c: World, v: World, k: Kont)
    requires Waiting(w, c, k) && Guar(c, v)
    ensures Waiting(w, v, k)
  {
    match k
    case EscrowK(k) => RelatedThen(w, c, v, true, EL.Owing(k), false, false);
    case SlashK(k) => RelatedThen(w, c, v, true, EL.Owing(k), true, false);
    case RegistryK => RelatedThen(w, c, v, false, 0, true, false);
    case AuctionK => RelatedThen(w, c, v, false, 0, false, true);
    case AwardK => RelatedThen(w, c, v, true, 0, false, true);
    case WalletK => RelatedThen(w, c, v, false, 0, false, false);
  }

  // ---- Beginning a transaction ----

  /** The other two contracts are as they were. */
  lemma EscrowAlone(w: World, v: World)
    requires v.now == w.now && v.registry == w.registry && v.auction == w.auction
    requires Balance(v, RegistryContract) == Balance(w, RegistryContract)
    requires Balance(v, AuctionContract) == Balance(w, AuctionContract)
    ensures RegistryPart(w, v, false) && AuctionPart(w, v, false)
  {
  }

  lemma RegistryAlone(w: World, v: World)
    requires v.now == w.now && v.escrow == w.escrow && v.auction == w.auction
    requires Balance(v, EscrowContract) == Balance(w, EscrowContract)
    requires Balance(v, AuctionContract) == Balance(w, AuctionContract)
    ensures EscrowPart(w, v, false, 0) && AuctionPart(w, v, false)
  {
  }

  /** The escrow is about to pay: what it still owes, and what it is paying, is covered. */
  lemma EscrowPays(w: World, c: World, to: Address, amount: nat, k: Escrow.Kont)
    requires c.now == w.now && Sum(c.eth) == Sum(w.eth) && RegistryPart(w, c, false) && AuctionPart(w, c, false)
    requires EL.Grows(w.escrow, c.escrow) && EL.Keeps(w.now, w.escrow, c.escrow) && EL.KontOk(c.escrow, w.now, k)
    requires !w.escrow.entered && c.escrow.entered && EscrowSlack(c) == EscrowSlack(w) + amount + EL.Owing(k)
    ensures PauseSound(w, Calling(c, EscrowContract, to, amount, EscrowK(k), None))
  {
    PaymentSound(w, c, EscrowContract, to, amount);
  }

  /** A sound step of the escrow, begun with `value` more on its balance, seen from the whole chain. */
  lemma EscrowStepSound(w: World, paid: World, s: Escrow.Step, value: nat)
    requires paid == w.(eth := paid.eth, transfers := paid.transfers) && Sum(paid.eth) == Sum(w.eth)
    requires forall x | IsContract(x) :: Balance(paid, x) == Balance(w, x) + if x == EscrowContract then value else 0
    requires EL.Booked(w.now, w.escrow, EL.Liabilities(w.escrow) + value, s)
    requires w.escrow.entered && !s.Revert? ==> s.Return? && s.e.entered && EL.Frozen(w.escrow, s.e)
    requires !w.escrow.entered && s.Return? ==> !s.e.entered
    requires s.Slash? ==> value == 0
    ensures PauseSound(w, FromEscrow(paid, s))
  {
    match s
    case Return(e) => EscrowAlone(w, paid.(escrow := e));
    case Pay(e, to, amount, k) =>
      EscrowAlone(w, paid.(escrow := e));
      EscrowPays(w, paid.(escrow := e), to, amount, k);
    case Slash(e, provider, evidence, k) => SlashBegins(w, paid, s);
    case Revert =>
  }

  lemma EscrowBegins(w: World, from: Address, value: nat, c: Escrow.Call)
    requires !IsContract(from) && value <= Balance(w, from)
    ensures var paid := Transferred(w, from, EscrowContract, value);
            PauseSound(w, FromEscrow(paid, Escrow.Begin(w.escrow, Msg(from, value, w.now), c)))
  {
    ES.BeginBooked(w.escrow, Msg(from, value, w.now), c);
    MoveKeepsTotal(w.eth, from, EscrowContract, value);
    EscrowStepSound(w, Transferred(w, from, EscrowContract, value), Escrow.Begin(w.escrow, Msg(from, value, w.now), c), value);
  }

  lemma PaymentSound(w: World, c: World, from: Address, to: Address, amount: nat)
    ensures CanPay(c, from, to, amount) ==> Sum(Paid(c, from, to, amount).eth) == Sum(c.eth)
    ensures CanPay(c, from, to, amount) && IsContract(from) ==>
              forall x | IsContract(x) ::
                Balance(Paid(c, from, to, amount), x) == Balance(c, x) - if x == from then amount else 0
  {
    if CanPay(c, from, to, amount) {
      MoveKeepsTotal(c.eth, from, to, amount);
    }
  }

  /** slashProvider up to the registry's payment to its owner, or past a registry that refuses at once. */
  lemma SlashBegins(w: World, paid: World, s: Escrow.Step)
    requires s.Slash? && EL.Booked(w.now, w.escrow, EL.Liabilities(w.escrow), s) && !w.escrow.entered
    requires paid.now == w.now && paid.registry == w.registry && paid.auction == w.auction && Sum(paid.eth) == Sum(w.eth)
    requires forall x | IsContract(x) :: Balance(paid, x) == Balance(w, x)
    ensures PauseSound(w, FromEscrow(paid, s))
  {
    var w' := paid.(escrow := s.e);
    var m, c := Msg(EscrowContract, 0, w.now), Registry.SlashStake(s.provider, s.evidence);
    RS.BeginBooked(w.registry, m, c);
    assert Related(w, w', true, EL.Owing(s.k), false, false);
    var asked := Registry.Begin(w.registry, m, c);
    if asked.Pay? {
      RegistryAsked(w, w', s.k, asked.r, asked.to, asked.amount);
    } else {
      AfterSlashSound(w, w', s.k);
    }
  }

  lemma RegistryAsked(w: World, w': World, k: Escrow.Kont, r: Registry.State, to: Address, amount: nat)
    requires Related(w, w', true, EL.Owing(k), false, false) && k.RefundAfterSlash? && w'.registry == w.registry
    requires Balance(w', RegistryContract) == Balance(w, RegistryContract)
    requires RS.Booked(w.registry, Sum(RS.Stakes(w.registry)), Registry.Pay(r, to, amount))
    ensures PauseSound(w, Calling(w'.(registry := r), RegistryContract, to, amount, SlashK(k), Some(w')))
  {
    PaymentSound(w, w'.(registry := r), RegistryContract, to, amount);
  }

  lemma AfterSlashSound(w: World, v: World, k: Escrow.Kont)
    requires Related(w, v, true, EL.Owing(k), false, false) && k.RefundAfterSlash?
    ensures PauseSound(w, AfterSlash(v, k))
  {
    EscrowResumes(w, v, k);
  }

  lemma EscrowReturned(w: World, v: World, owing: nat, e: Escrow.State)
    requires Related(w, v, true, owing, false, false)
    requires EL.Booked(w.now, v.escrow, EL.Liabilities(v.escrow) + owing, Escrow.Return(e)) && !e.entered
    ensures Guar(w, v.(escrow := e))
  {
    ES.GrowsTransitive(w.escrow, v.escrow, e);
    assert EscrowPart(w, v.(escrow := e), false, 0);
  }

  lemma EscrowResumed(w: World, v: World, k: Escrow.Kont, s: Escrow.Step)
    requires Related(w, v, true, EL.Owing(k), false, false)
    requires EL.Booked(w.now, v.escrow, EL.Liabilities(v.escrow) + EL.Owing(k), s)
    requires !s.Slash? && (s.Return? ==> !s.e.entered)
    ensures PauseSound(w, FromEscrow(v, s))
  {
    if s.Return? {
      EscrowReturned(w, v, EL.Owing(k), s.e);
    } else if s.Pay? {
      ES.GrowsTransitive(w.escrow, v.escrow, s.e);
      EscrowPays(w, v.(escrow := s.e), s.to, s.amount, s.k);
    }
  }

  lemma EscrowResumes(w: World, v: World, k: Escrow.Kont)
    requires Related(w, v, true, EL.Owing(k), false, false) && EL.KontOk(v.escrow, w.now, k)
    ensures PauseSound(w, FromEscrow(v, Escrow.Resume(v.escrow, v.now, k)))
  {
    ES.ResumeBooked(v.escrow, v.now, k);
    EscrowResumed(w, v, k, Escrow.Resume(v.escrow, v.now, k));
  }

  lemma RegistryBegins(w: World, from: Address, value: nat, c: Registry.Call)
    requires !IsContract(from) && value <= Balance(w, from)
    ensures var paid := Transferred(w, from, RegistryContract, value);
            PauseSound(w, FromRegistry(paid, Registry.Begin(w.registry, Msg(from, value, w.now), c)))
  {
    RS.BeginBooked(w.registry, Msg(from, value, w.now), c);
    MoveKeepsTotal(w.eth, from, RegistryContract, value);
    RegistryStepSound(w, Transferred(w, from, RegistryContract, value), Registry.Begin(w.registry, Msg(from, value, w.now), c), value);
  }

  /** A sound step of the registry, begun with `value` more on its balance, seen from the whole chain. */
  lemma RegistryStepSound(w: World, paid: World, s: Registry.Step, value: nat)
    requires paid == w.(eth := paid.eth, transfers := paid.transfers) && Sum(paid.eth) == Sum(w.eth)
    requires forall x | IsContract(x) :: Balance(paid, x) == Balance(w, x) + if x == RegistryContract then value else 0
    requires RS.Booked(w.registry, Sum(RS.Stakes(w.registry)) + value, s)
    requires w.registry.entered && s.Return? ==> RS.Frozen(w.registry, s.r)
    ensures PauseSound(w, FromRegistry(paid, s))
  {
    match s
    case Return(r) => RegistryAlone(w, paid.(registry := r));
    case Pay(r, to, amount) => RegistryPays(w, paid.(registry := r), to, amount);
    case Revert =>
  }

  lemma RegistryPays(w: World, c: World, to: Address, amount: nat)
    requires c.now == w.now && Sum(c.eth) == Sum(w.eth) && c.escrow == w.escrow && c.auction == w.auction
    requires Balance(c, EscrowContract) == Balance(w, EscrowContract)
    requires Balance(c, AuctionContract) == Balance(w, AuctionContract)
    requires RS.Grows(w.registry, c.registry) && RS.Keeps(w.registry, c.registry)
    requires !w.registry.entered && c.registry.entered && RegistrySlack(c) == RegistrySlack(w) + amount
    ensures PauseSound(w, Calling(c, RegistryContract, to, amount, RegistryK, None))
  {
    PaymentSound(w, c, RegistryContract, to, amount);
    if CanPay(c, RegistryContract, to, amount) {
      RegistryAlone(w, Paid(c, RegistryContract, to, amount));
    }
  }

  /** The other two contracts are as they were. */
  lemma AuctionAlone(w: World, v: World)
    requires v.now == w.now && v.escrow == w.escrow && v.registry == w.registry
    requires Balance(v, EscrowContract) == Balance(w, EscrowContract)
    requires Balance(v, RegistryContract) == Balance(w, RegistryContract)
    ensures EscrowPart(w, v, false, 0) && RegistryPart(w, v, false)
  {
  }

  lemma AuctionPays(w: World, c: World, to: Address, amount: nat)
    requires c.now == w.now && Sum(c.eth) == Sum(w.eth) && c.escrow == w.escrow && c.registry == w.registry
    requires Balance(c, EscrowContract) == Balance(w, EscrowContract)
    requires Balance(c, RegistryContract) == Balance(w, RegistryContract)
    requires AS.Grows(w.now, w.auction, c.auction) && AS.Keeps(w.now, w.auction, c.auction)
    requires !w.auction.entered && c.auction.entered && amount == Balance(c, AuctionContract) && AS.Pooled(c.auction) == 0
    ensures PauseSound(w, Calling(c, AuctionContract, to, amount, AuctionK, None))
  {
    PaymentSound(w, c, AuctionContract, to, amount);
    if CanPay(c, AuctionContract, to, amount) {
      AuctionAlone(w, Paid(c, AuctionContract, to, amount));
    }
  }

  /** A sound step of the auction, begun with `value` more on its balance, seen from the whole chain. */
  lemma AuctionStepSound(w: World, paid: World, s: Auction.Step, value: nat)
    requires paid == w.(eth := paid.eth, transfers := paid.transfers) && Sum(paid.eth) == Sum(w.eth)
    requires forall x | IsContract(x) :: Balance(paid, x) == Balance(w, x) + if x == AuctionContract then value else 0
    requires AS.Booked(w.now, w.auction, Balance(paid, AuctionContract) == AS.Pooled(w.auction) + value,
                          Balance(paid, AuctionContract), s)
    requires w.auction.entered && s.Return? ==> AS.Frozen(w.auction, s.a) && value == 0
    ensures PauseSound(w, FromAuction(paid, s))
  {
    match s
    case Return(a) => AuctionAlone(w, paid.(auction := a));
    case Pay(a, to, amount) => AuctionPays(w, paid.(auction := a), to, amount);
    case Award(a, id, provider, rate, deposit) => OpenSessionSound(w, paid.(auction := a), id, provider, rate, deposit);
    case Revert =>
  }

  lemma AuctionBegins(w: World, from: Address, value: nat, active: seq<Registry.Provider>, c: Auction.Call)
    requires !IsContract(from) && value <= Balance(w, from)
    ensures var paid := Transferred(w, from, AuctionContract, value);
            PauseSound(w, FromAuction(paid, Auction.Begin(w.auction, Msg(from, value, w.now), Balance(paid, AuctionContract), active, c)))
  {
    var paid := Transferred(w, from, AuctionContract, value);
    var m := Msg(from, value, w.now);
    AS.BeginBooked(w.auction, m, Balance(paid, AuctionContract), active, c);
    MoveKeepsTotal(w.eth, from, AuctionContract, value);
    AuctionStepSound(w, paid, Auction.Begin(w.auction, m, Balance(paid, AuctionContract), active, c), value);
  }

  lemma OpenSessionSound(w: World, c: World, id: Id, provider: Address, rate: nat, deposit: nat)
    requires c.now == w.now && c.escrow == w.escrow && c.registry == w.registry && Sum(c.eth) == Sum(w.eth)
    requires forall x: Address | x.EscrowContract? || x.RegistryContract? :: Balance(c, x) == Balance(w, x)
    requires !w.auction.entered && c.auction.entered && deposit == Balance(c, AuctionContract) && AS.Pooled(c.auction) == 0
    requires AS.Grows(w.now, w.auction, c.auction) && AS.Keeps(w.now, w.auction, c.auction)
    ensures PauseSound(w, OpenSession(c, id, provider, rate, deposit))
  {
    var m, call := Msg(AuctionContract, deposit, w.now), Escrow.StartSession(id, provider, rate);
    ES.BeginBooked(w.escrow, m, call);
    MoveKeepsTotal(c.eth, AuctionContract, EscrowContract, deposit);
    match Escrow.Begin(w.escrow, m, call)
    case Pay(e, to, upfront, k) =>
      OpenedSound(w, Transferred(c, AuctionContract, EscrowContract, deposit).(escrow := e), to, upfront);
    case _ =>
  }

  /** The new session's upfront payment is on its way: both guards are held and the auction is empty. */
  lemma OpenedSound(w: World, c: World, to: Address, upfront: nat)
    requires c.now == w.now && Sum(c.eth) == Sum(w.eth) && c.registry == w.registry
    requires Balance(c, RegistryContract) == Balance(w, RegistryContract)
    requires !w.auction.entered && c.auction.entered && Balance(c, AuctionContract) == 0 == AS.Pooled(c.auction)
    requires AS.Grows(w.now, w.auction, c.auction) && AS.Keeps(w.now, w.auction, c.auction)
    requires EL.Grows(w.escrow, c.escrow) && EL.Keeps(w.now, w.escrow, c.escrow)
    requires !w.escrow.entered && c.escrow.entered && EscrowSlack(c) == EscrowSlack(w) + upfront
    ensures PauseSound(w, Calling(c, EscrowContract, to, upfront, AwardK, None))
  {
    PaymentSound(w, c, EscrowContract, to, upfront);
  }

  lemma WalletPays(w: World, from: Address, to: Address, value: nat)
    requires !IsContract(from)
    ensures PauseSound(w, Calling(w, from, to, value, WalletK, None))
  {
    if CanPay(w, from, to, value) {
      MoveKeepsTotal(w.eth, from, to, value);
    }
  }

  lemma StartSound(w: World, tx: Tx)
    ensures PauseSound(w, Start(w, tx))
  {
    if tx.sender.Wallet? && tx.value <= Balance(w, tx.sender) {
      match tx.call
      case ToEscrow(c) => EscrowBegins(w, tx.sender, tx.value, c);
      case ToRegistry(c) => RegistryBegins(w, tx.sender, tx.value, c);
      case ToAuction(c) =>
        AuctionBegins(w, tx.sender, tx.value, Registry.ActiveAmong(w.registry, w.registry.providerList), c);
      case ToWallet(to) => WalletPays(w, tx.sender, to, tx.value);
    }
  }

  // ---- Resuming ----

  lemma ResumeSound(w: World, v: World, k: Kont)
    requires Waiting(w, v, k)
    ensures PauseSound(w, Resume(v, k))
  {
    match k
    case EscrowK(k) => EscrowResumes(w, v, k);
    case SlashK(k) => SlashResumes(w, v, k);
    case RegistryK => RS.ExitSound(v.registry);
    case AuctionK => AuctionExits(w, v);
    case AwardK => AwardResumes(w, v);
    case WalletK =>
  }

  lemma SlashResumes(w: World, v: World, k: Escrow.Kont)
    requires Waiting(w, v, SlashK(k))
    ensures PauseSound(w, Resume(v, SlashK(k)))
  {
    RS.ExitSound(v.registry);
    AfterSlashSound(w, v.(registry := Registry.Exit(v.registry)), k);
  }

  lemma AwardResumes(w: World, v: World)
    requires Waiting(w, v, AwardK)
    ensures PauseSound(w, Resume(v, AwardK))
  {
    ES.ResumeBooked(v.escrow, v.now, Escrow.Exit);
    ES.GrowsTransitive(w.escrow, v.escrow, v.escrow.(entered := false));
    AuctionExits(w, v);
  }

  lemma AuctionExits(w: World, v: World)
    requires v.now == w.now && AuctionPart(w, v, true)
    ensures AuctionPart(w, v.(auction := Auction.Exit(v.auction)), false)
  {
    AS.ExitSound(w.now, v.auction);
    AS.GrowsTransitive(w.now, w.auction, v.auction, Auction.Exit(v.auction));
  }

  lemma RescueSound(w: World, u: World, k: Escrow.Kont)
    requires Related(w, u, true, EL.Owing(k), false, false) && k.RefundAfterSlash? && !w.registry.entered
    ensures PauseSound(w, Resume(u, SlashK(k)))
  {
    assert u.(registry := Registry.Exit(u.registry)) == u;
    AfterSlashSound(w, u, k);
  }

  // ---- The induction ----

  lemma {:induction false} ReactSound(w: World, r: Reaction)
    ensures React(w, r).Some? ==> Guar(w, React(w, r).value)
    decreases r, 0
  {
    match r
    case Then(tx, rest) =>
      StepSound(w, tx);
      ReactSound(Step(w, tx), rest);
      if React(w, r).Some? {
        RelatedThen(w, Step(w, tx), React(w, r).value, false, 0, false, false);
      }
    case _ => GuarReflexive(w);
  }

  lemma {:induction false} AdvanceSound(w: World, p: Pause, r: Reaction)
    requires PauseSound(w, p)
    ensures PauseSound(w, Advance(p, r))
    decreases r, 2
  {
    match p
    case Calling(c, from, to, amount, k, rescue) =>
      match Send(c, from, to, amount, r) {
        case Some(v) =>
          var c' := Paid(c, from, to, amount);
          ReactSound(c', r);
          WaitingThen(w, c', v, k);
          ResumeSound(w, v, k);
        case None =>
          if rescue.Some? {
            RescueSound(w, rescue.value, k.k);
          }
      }
    case _ =>
  }

  lemma {:induction false} ExecSound(w: World, tx: Tx)
    ensures PauseSound(w, Exec(w, tx))
    decreases tx, 0
  {
    StartSound(w, tx);
    AdvanceSound(w, Start(w, tx), tx.first);
    AdvanceSound(w, Advance(Start(w, tx), tx.first), tx.second);
  }

  /** Every transaction, with every behaviour of everyone it pays, respects the guarantee. */
  lemma {:induction false} StepSound(w: World, tx: Tx)
    ensures Guar(w, Step(w, tx))
    decreases tx, 1
  {
    ExecSound(w, tx);
    GuarReflexive(w);
  }
}
