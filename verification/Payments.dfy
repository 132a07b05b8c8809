/** Where the ETH goes. Over every run, what leaves each contract is exactly what its events announce: to the same
    addresses, for the same amounts, in the same order. */
module Payments {
  import opened Common
  import opened Machine
  import opened Guarantee
  import Escrow = EscrowSpec
  import EL = EscrowLedger
  import ES = EscrowSound
  import Registry = RegistrySpec
  import RS = RegistrySound
  import Auction = AuctionSpec
  import AS = AuctionSound

  /** What left an address, in order. */
  ghost function OutOf(transfers: seq<Transfer>, from: Address): seq<Payout> {
    if transfers == [] then []
    else
      var t := transfers[|transfers| - 1];
      OutOf(transfers[..|transfers| - 1], from) + if t.from == from then [Payout(t.to, t.amount)] else []
  }

  lemma OutOfRecorded(transfers: seq<Transfer>, from: Address, to: Address, amount: nat, x: Address)
    ensures OutOf(Recorded(transfers, from, to, amount), x) == OutOf(transfers, x) + if from == x then Payment(to, amount) else []
    ensures OutOf(transfers, x) + [] == OutOf(transfers, x)
  {
    if amount > 0 {
      assert (transfers + [Transfer(from, to, amount)])[..|transfers|] == transfers;
    }
  }

  // ---- One contract's payments against its announcements ----

  /** Whether the guard is held, what has been paid out, and what the events announce. */
  datatype Ledger = Ledger(held: bool, paid: seq<Payout>, named: seq<Payout>)

  /** From a to b: while somebody else holds the guard nothing is paid or announced; otherwise payments keep up with
      announcements, save for what is due when the guard has been taken. */
  ghost predicate Follows(a: Ledger, b: Ledger, took: bool, due: seq<Payout>) {
    && (if took then !a.held && b.held else b.held == a.held && due == [])
    && (a.held ==> b.paid == a.paid && b.named == a.named)
    && (!a.held && a.paid == a.named ==> b.paid + due == b.named)
  }

  lemma FollowsThen(a: Ledger, b: Ledger, c: Ledger, took: bool, due: seq<Payout>)
    requires Follows(a, b, took, due) && Follows(b, c, false, [])
    ensures Follows(a, c, took, due)
  {
    assert b.paid + [] == b.paid && c.paid + [] == c.paid;
  }

  lemma FollowsSelf(a: Ledger)
    ensures Follows(a, a, false, [])
  {
    assert a.paid + [] == a.paid;
  }

  ghost function EscrowBook(w: World): Ledger {
    Ledger(w.escrow.entered, OutOf(w.transfers, EscrowContract), EL.Named(w.escrow.events))
  }

  ghost function RegistryBook(w: World): Ledger {
    Ledger(w.registry.entered, OutOf(w.transfers, RegistryContract), RS.Named(w.registry.events))
  }

  ghost function AuctionBook(w: World): Ledger {
    Ledger(w.auction.entered, OutOf(w.transfers, AuctionContract), AS.Named(w.auction.events))
  }

  /** A job awarded is backed by the session the award opened: in the auction's name, on the winner's terms. */
  predicate BackedJob(w: World, id: Id)
    requires id in w.auction.jobs
  {
    var j := w.auction.jobs[id];
    j.status.Awarded? ==>
      && id in w.escrow.sessions && w.escrow.sessions[id].user == AuctionContract
      && w.escrow.sessions[id].provider == j.winningProvider && w.escrow.sessions[id].ratePerSecond == j.winningRatePerSecond
  }

  ghost predicate Backed(w: World) {
    forall id | id in w.auction.jobs :: BackedJob(w, id)
  }

  /** The escrow sends to wallets only. */
  ghost predicate Proper(transfers: seq<Transfer>) {
    forall t | t in transfers && t.from == EscrowContract :: !IsContract(t.to)
  }

  // ---- The relation and its induction ----

  ghost predicate Traced(w: World, v: World, e: bool, due: seq<Payout>, r: bool, a: bool) {
    && w.transfers <= v.transfers && (Proper(w.transfers) ==> Proper(v.transfers)) && (Backed(w) ==> Backed(v))
    && Follows(EscrowBook(w), EscrowBook(v), e, due) && Follows(RegistryBook(w), RegistryBook(v), r, [])
    && (AuctionFunded(w) ==> AuctionFunded(v) && Follows(AuctionBook(w), AuctionBook(v), a, []))
  }

  ghost predicate TracedDone(w: World, v: World) {
    Traced(w, v, false, [], false, false)
  }

  lemma TracedSelf(w: World)
    ensures TracedDone(w, w)
  {
    FollowsSelf(EscrowBook(w));
    FollowsSelf(RegistryBook(w));
    FollowsSelf(AuctionBook(w));
  }

  lemma TracedThen(w: World, c: World, v: World, e: bool, due: seq<Payout>, r: bool, a: bool)
    requires Traced(w, c, e, due, r, a) && TracedDone(c, v)
    ensures Traced(w, v, e, due, r, a)
  {
    FollowsThen(EscrowBook(w), EscrowBook(c), EscrowBook(v), e, due);
    FollowsThen(RegistryBook(w), RegistryBook(c), RegistryBook(v), r, []);
    if AuctionFunded(w) {
      FollowsThen(AuctionBook(w), AuctionBook(c), AuctionBook(v), a, []);
    }
  }

  /** While a payment is out: what has been taken, and what will be due. */
  ghost predicate TracedWait(w: World, v: World, k: Kont) {
    match k
    case EscrowK(k) => Traced(w, v, true, EL.Due(k), false, false) && (k.RefundAfterSlash? ==> v.escrow.events != [])
    case SlashK(k) => Traced(w, v, true, EL.Due(k), true, false) && v.escrow.events != []
    case RegistryK => Traced(w, v, false, [], true, false)
    case AuctionK => Traced(w, v, false, [], false, true)
    case AwardK => Traced(w, v, true, [], false, true)
    case WalletK => TracedDone(w, v)
  }

  ghost predicate TracedPause(w: World, p: Pause) {
    match p
    case Reverted => true
    case Done(v) => TracedDone(w, v)
    case Calling(c, from, to, amount, k, rescue) =>
      && (CanPay(c, from, to, amount) ==> TracedWait(w, Paid(c, from, to, amount), k))
      && (rescue.Some? ==> k.SlashK? && Traced(w, rescue.value, true, EL.Due(k.k), false, false) && rescue.value.escrow.events != [])
  }

  lemma TracedWaitThen(w: World, c: World, v: World, k: Kont)
    requires TracedWait(w, c, k) && TracedDone(c, v) && c.escrow.events <= v.escrow.events
    ensures TracedWait(w, v, k)
  {
    match k
    case EscrowK(k) => TracedThen(w, c, v, true, EL.Due(k), false, false);
    case SlashK(k) => TracedThen(w, c, v, true, EL.Due(k), true, false);
    case RegistryK => TracedThen(w, c, v, false, [], true, false);
    case AuctionK => TracedThen(w, c, v, false, [], false, true);
    case AwardK => TracedThen(w, c, v, true, [], false, true);
    case WalletK => TracedThen(w, c, v, false, [], false, false);
  }

  // ---- Single movements of ETH ----

  /** A transfer into a contract, or from a wallet: no contract has paid. */
  ghost predicate SameOut(w: World, c: World) {
    && w.transfers <= c.transfers && (Proper(w.transfers) ==> Proper(c.transfers))
    && forall x: Address | IsContract(x) :: OutOf(c.transfers, x) == OutOf(w.transfers, x)
  }

  lemma WalletSends(w: World, from: Address, to: Address, amount: nat)
    requires !IsContract(from) && amount <= Balance(w, from)
    ensures SameOut(w, Transferred(w, from, to, amount))
  {
    forall x: Address | IsContract(x)
      ensures OutOf(Recorded(w.transfers, from, to, amount), x) == OutOf(w.transfers, x)
    {
      OutOfRecorded(w.transfers, from, to, amount, x);
    }
  }

  /** A contract pays: its own trail gains the payment, the others' stay. */
  lemma ContractSends(c: World, from: Address, to: Address, amount: nat)
    requires CanPay(c, from, to, amount)
    ensures var v := Paid(c, from, to, amount);
            && c.transfers <= v.transfers && (Proper(c.transfers) ==> Proper(v.transfers))
            && forall x: Address ::
                 OutOf(v.transfers, x) == if x == from then OutOf(c.transfers, x) + Payment(to, amount) else OutOf(c.transfers, x)
  {
    forall x: Address
      ensures OutOf(Recorded(c.transfers, from, to, amount), x)
              == if x == from then OutOf(c.transfers, x) + Payment(to, amount) else OutOf(c.transfers, x)
    {
      OutOfRecorded(c.transfers, from, to, amount, x);
    }
  }

  /** Sessions keep their terms, and no new job is awarded: what was backed still is. */
  lemma BackedKept(w: World, v: World)
    requires EL.Grows(w.escrow, v.escrow) && AS.OnlyAwarded(w.auction, v.auction, None)
    ensures Backed(w) ==> Backed(v)
  {
    if Backed(w) {
      forall id | id in v.auction.jobs
        ensures BackedJob(v, id)
      {
        if v.auction.jobs[id].status.Awarded? {
          assert BackedJob(w, id);
        }
      }
    }
  }

  // ---- One contract moves, the other two are as they were in v ----

  ghost predicate Onward(v: World, c: World) {
    && v.transfers <= c.transfers && (Proper(v.transfers) ==> Proper(c.transfers)) && (Backed(v) ==> Backed(c))
  }

  lemma EscrowMoves(w: World, v: World, c: World, took: bool, due: seq<Payout>, took': bool, due': seq<Payout>, r: bool, a: bool)
    requires Traced(w, v, took, due, r, a) && Onward(v, c) && Follows(EscrowBook(w), EscrowBook(c), took', due')
    requires RegistryBook(c) == RegistryBook(v) && AuctionBook(c) == AuctionBook(v) && (AuctionFunded(v) ==> AuctionFunded(c))
    ensures Traced(w, c, took', due', r, a)
  {
  }

  lemma RegistryMoves(w: World, v: World, c: World, e: bool, due: seq<Payout>, r: bool, r': bool, a: bool)
    requires Traced(w, v, e, due, r, a) && Onward(v, c) && Follows(RegistryBook(w), RegistryBook(c), r', [])
    requires EscrowBook(c) == EscrowBook(v) && AuctionBook(c) == AuctionBook(v) && (AuctionFunded(v) ==> AuctionFunded(c))
    ensures Traced(w, c, e, due, r', a)
  {
  }

  // ---- The escrow ----

  /** The escrow pays what its events have just announced. */
  lemma EscrowPaysTraced(w: World, v: World, e: Escrow.State, to: Address, amount: nat, k: Escrow.Kont, due: seq<Payout>,
                         took: bool)
    requires Traced(w, v, took, due, false, false) && EL.Grows(v.escrow, e) && !w.escrow.entered && e.entered && e.events != []
    requires OutOf(w.transfers, EscrowContract) == EL.Named(w.escrow.events) ==>
               EL.Named(e.events) == OutOf(v.transfers, EscrowContract) + (Payment(to, amount) + EL.Due(k))
    ensures TracedPause(w, Calling(v.(escrow := e), EscrowContract, to, amount, EscrowK(k), None))
  {
    var c := v.(escrow := e);
    if CanPay(c, EscrowContract, to, amount) {
      var u := Paid(c, EscrowContract, to, amount);
      EscrowSends(v, e, to, amount, k);
      EscrowMoves(w, v, u, took, due, true, EL.Due(k), false, false);
    }
  }

  lemma EscrowSends(v: World, e: Escrow.State, to: Address, amount: nat, k: Escrow.Kont)
    requires EL.Grows(v.escrow, e) && CanPay(v.(escrow := e), EscrowContract, to, amount)
    ensures var u, paid := Paid(v.(escrow := e), EscrowContract, to, amount), OutOf(v.transfers, EscrowContract);
            && Onward(v, u) && RegistryBook(u) == RegistryBook(v) && AuctionBook(u) == AuctionBook(v)
            && (AuctionFunded(v) ==> AuctionFunded(u))
            && OutOf(u.transfers, EscrowContract) + EL.Due(k) == paid + (Payment(to, amount) + EL.Due(k))
  {
    var c := v.(escrow := e);
    ContractSends(c, EscrowContract, to, amount);
    PaymentSound(v, c, EscrowContract, to, amount);
    BackedKept(v, c);
    var paid := OutOf(v.transfers, EscrowContract);
    assert paid + Payment(to, amount) + EL.Due(k) == paid + (Payment(to, amount) + EL.Due(k));
  }

  /** A step of the escrow begun in w, with the caller's money on its way in. */
  lemma EscrowStepTraced(w: World, paid: World, s: Escrow.Step)
    requires TracedDone(w, paid) && SameOut(w, paid) && paid.escrow == w.escrow && paid.registry == w.registry && paid.now == w.now
    requires EL.Addressed(w.escrow, EL.Named(w.escrow.events), s)
    requires !s.Revert? ==> EL.Grows(w.escrow, s.e)
    requires w.escrow.entered && !s.Revert? ==> s.Return? && s.e.entered
    requires !w.escrow.entered && s.Return? ==> !s.e.entered
    requires s.Pay? || s.Slash? ==> s.e.entered
    requires s.Slash? ==> s.k.RefundAfterSlash?
    ensures TracedPause(w, FromEscrow(paid, s))
  {
    if s.Return? {
      ReturnTraced(w, paid, s.e);
    } else if s.Pay? {
      EscrowPaysTraced(w, paid, s.e, s.to, s.amount, s.k, [], false);
    } else if s.Slash? {
      SlashTraced(w, paid, s);
    }
  }

  lemma ReturnTraced(w: World, paid: World, e: Escrow.State)
    requires TracedDone(w, paid) && SameOut(w, paid) && paid.escrow == w.escrow && EL.Grows(w.escrow, e)
    requires EL.Named(e.events) == EL.Named(w.escrow.events) && e.entered == w.escrow.entered
    ensures TracedDone(w, paid.(escrow := e))
  {
    var c := paid.(escrow := e);
    BackedKept(paid, c);
    FollowsSelf(EscrowBook(c));
    EscrowMoves(w, paid, c, false, [], false, [], false, false);
  }

  /** slashProvider up to the registry's payment, or past a registry that refuses at once. */
  lemma SlashTraced(w: World, paid: World, s: Escrow.Step)
    requires TracedDone(w, paid) && SameOut(w, paid) && paid.escrow == w.escrow && paid.registry == w.registry && paid.now == w.now
    requires s.Slash? && EL.Addressed(w.escrow, EL.Named(w.escrow.events), s) && EL.Grows(w.escrow, s.e)
    requires !w.escrow.entered && s.e.entered && s.k.RefundAfterSlash?
    ensures TracedPause(w, FromEscrow(paid, s))
  {
    var w' := paid.(escrow := s.e);
    BackedKept(paid, w');
    EscrowMoves(w, paid, w', false, [], true, EL.Due(s.k), false, false);
    var m, c := Msg(EscrowContract, 0, w.now), Registry.SlashStake(s.provider, s.evidence);
    RS.BeginSound(w.registry, m, c);
    var asked := Registry.Begin(w.registry, m, c);
    if asked.Pay? {
      RegistryAskedTraced(w, w', s.k, asked.r, asked.to, asked.amount);
    } else {
      EscrowResumesTraced(w, w', s.k);
    }
  }

  lemma RegistryAskedTraced(w: World, w': World, k: Escrow.Kont, r: Registry.State, to: Address, amount: nat)
    requires Traced(w, w', true, EL.Due(k), false, false) && w'.registry == w.registry && w'.escrow.events != []
    requires OutOf(w'.transfers, RegistryContract) == OutOf(w.transfers, RegistryContract)
    requires RS.Addressed(w.registry, Registry.Pay(r, to, amount)) && !w.registry.entered && r.entered
    ensures TracedPause(w, Calling(w'.(registry := r), RegistryContract, to, amount, SlashK(k), Some(w')))
  {
    var c := w'.(registry := r);
    if CanPay(c, RegistryContract, to, amount) {
      var u := Paid(c, RegistryContract, to, amount);
      ContractSends(c, RegistryContract, to, amount);
      PaymentSound(w, c, RegistryContract, to, amount);
      assert RegistryBook(u).paid + [] == RegistryBook(u).paid;
      RegistryMoves(w, w', u, true, EL.Due(k), false, true, false);
    }
  }

  /** The escrow has given its guard back. */
  lemma EscrowReturnedTraced(w: World, v: World, due: seq<Payout>, e: Escrow.State)
    requires Traced(w, v, true, due, false, false) && EL.Grows(v.escrow, e) && !e.entered
    requires OutOf(w.transfers, EscrowContract) == EL.Named(w.escrow.events) ==> EL.Named(e.events) == OutOf(v.transfers, EscrowContract)
    ensures TracedDone(w, v.(escrow := e))
  {
    var c := v.(escrow := e);
    BackedKept(v, c);
    assert EscrowBook(c).paid + [] == EscrowBook(c).paid;
    EscrowMoves(w, v, c, true, due, false, [], false, false);
  }

  lemma ResumedTraced(w: World, v: World, due: seq<Payout>, s: Escrow.Step)
    requires Traced(w, v, true, due, false, false) && !s.Slash?
    requires !s.Revert? ==> EL.Grows(v.escrow, s.e) && (s.Pay? <==> s.e.entered) && (s.Pay? ==> s.e.events != [])
    requires OutOf(w.transfers, EscrowContract) == EL.Named(w.escrow.events) ==>
               EL.Addressed(v.escrow, OutOf(v.transfers, EscrowContract), s)
    ensures TracedPause(w, FromEscrow(v, s))
  {
    if s.Return? {
      EscrowReturnedTraced(w, v, due, s.e);
    } else if s.Pay? {
      EscrowPaysTraced(w, v, s.e, s.to, s.amount, s.k, due, true);
    }
  }

  /** Carrying on in the escrow after a payment. */
  lemma EscrowResumesTraced(w: World, v: World, k: Escrow.Kont)
    requires Traced(w, v, true, EL.Due(k), false, false) && EL.KontOk(v.escrow, v.now, k)
    requires k.RefundAfterSlash? ==> v.escrow.events != []
    ensures TracedPause(w, FromEscrow(v, Escrow.Resume(v.escrow, v.now, k)))
  {
    ES.ResumeBooked(v.escrow, v.now, k);
    if OutOf(w.transfers, EscrowContract) == EL.Named(w.escrow.events) {
      ES.ResumeAddressed(v.escrow, v.now, k, OutOf(v.transfers, EscrowContract));
    }
    ResumedTraced(w, v, EL.Due(k), Escrow.Resume(v.escrow, v.now, k));
  }

  // ---- The registry ----

  lemma RegistryStepTraced(w: World, paid: World, s: Registry.Step)
    requires TracedDone(w, paid) && SameOut(w, paid) && paid.registry == w.registry && RS.Addressed(w.registry, s)
    requires s.Return? ==> s.r.entered == w.registry.entered
    requires s.Pay? ==> !w.registry.entered && s.r.entered
    ensures TracedPause(w, FromRegistry(paid, s))
  {
    if s.Return? {
      var c := paid.(registry := s.r);
      FollowsSelf(RegistryBook(c));
      RegistryMoves(w, paid, c, false, [], false, false, false);
    } else if s.Pay? {
      var c := paid.(registry := s.r);
      if CanPay(c, RegistryContract, s.to, s.amount) {
        var u := Paid(c, RegistryContract, s.to, s.amount);
        ContractSends(c, RegistryContract, s.to, s.amount);
        PaymentSound(w, c, RegistryContract, s.to, s.amount);
        assert RegistryBook(u).paid + [] == RegistryBook(u).paid;
        RegistryMoves(w, paid, u, false, [], false, true, false);
      }
    }
  }

  lemma RegistryExitsTraced(w: World, v: World, e: bool, due: seq<Payout>)
    requires Traced(w, v, e, due, true, false)
    ensures Traced(w, v.(registry := Registry.Exit(v.registry)), e, due, false, false)
  {
    RegistryMoves(w, v, v.(registry := Registry.Exit(v.registry)), e, due, true, false, false);
  }

  // ---- The auction ----

  lemma AuctionMoves(w: World, v: World, c: World, e: bool, due: seq<Payout>, a: bool, e': bool, due': seq<Payout>, a': bool)
    requires Traced(w, v, e, due, false, a) && Onward(v, c) && Follows(EscrowBook(w), EscrowBook(c), e', due')
    requires RegistryBook(c) == RegistryBook(v)
    requires AuctionFunded(w) ==> AuctionFunded(c) && Follows(AuctionBook(w), AuctionBook(c), a', [])
    ensures Traced(w, c, e', due', false, a')
  {
  }

  lemma AuctionStepTraced(w: World, paid: World, s: Auction.Step)
    requires SameOut(w, paid) && paid.auction == w.auction && paid.escrow == w.escrow && paid.registry == w.registry && paid.now == w.now
    requires AS.Addressed(w.auction, AuctionFunded(w), s)
    requires s.Return? ==> s.a.entered == w.auction.entered && (AuctionFunded(w) ==> AS.Pooled(s.a) == Balance(paid, AuctionContract))
    requires s.Pay? || s.Award? ==> !w.auction.entered && s.a.entered && AS.Pooled(s.a) == 0
    requires s.Pay? ==> s.amount == Balance(paid, AuctionContract)
    requires s.Award? ==> s.deposit == Balance(paid, AuctionContract)
    ensures TracedPause(w, FromAuction(paid, s))
  {
    TracedSelf(w);
    if s.Return? {
      var c := paid.(auction := s.a);
      BackedKept(w, c);
      FollowsSelf(AuctionBook(c));
      AuctionMoves(w, w, c, false, [], false, false, [], false);
    } else if s.Pay? {
      AuctionPaysTraced(w, paid, s.a, s.to, s.amount);
    } else if s.Award? {
      AwardTraced(w, paid, s.a, s.id, s.provider, s.ratePerSecond, s.deposit);
    }
  }

  lemma AuctionPaysTraced(w: World, paid: World, a: Auction.State, to: Address, amount: nat)
    requires SameOut(w, paid) && paid.auction == w.auction && paid.escrow == w.escrow && paid.registry == w.registry
    requires AS.Addressed(w.auction, AuctionFunded(w), Auction.Pay(a, to, amount))
    requires !w.auction.entered && a.entered && AS.Pooled(a) == 0 && amount == Balance(paid, AuctionContract)
    ensures TracedPause(w, Calling(paid.(auction := a), AuctionContract, to, amount, AuctionK, None))
  {
    var c := paid.(auction := a);
    if CanPay(c, AuctionContract, to, amount) {
      var u := Paid(c, AuctionContract, to, amount);
      ContractSends(c, AuctionContract, to, amount);
      PaymentSound(paid, c, AuctionContract, to, amount);
      BackedKept(w, u);
      TracedSelf(w);
      assert AuctionBook(u).paid + [] == AuctionBook(u).paid;
      AuctionMoves(w, w, u, false, [], false, false, [], true);
    }
  }

  /** What startSession does with what it is asked for. */
  lemma StartOpens(e: Escrow.State, m: Msg, id: Id, provider: Address, rate: nat)
    ensures match Escrow.Begin(e, m, Escrow.StartSession(id, provider, rate))
            case Revert => true
            case Pay(e', to, upfront, k) =>
              && !e.entered && e'.entered && to == provider && upfront == m.value / 5 && k == Escrow.Exit && e'.escrows == e.escrows
              && id !in e.sessions
              && e'.sessions == e.sessions[id := Escrow.Session(m.sender, provider, rate, m.value - upfront, m.now, true)]
              && e'.events == e.events + [Escrow.Entry(m.now, Escrow.SessionStarted(id, m.sender, provider, m.value, upfront, m.value - upfront, rate))]
            case _ => false
  {
  }

  /** The award's session is opened for the winner before any outside code runs. */
  lemma AwardTraced(w: World, paid: World, a: Auction.State, id: Id, provider: Address, rate: nat, deposit: nat)
    requires SameOut(w, paid) && paid.auction == w.auction && paid.escrow == w.escrow && paid.registry == w.registry && paid.now == w.now
    requires AS.Addressed(w.auction, AuctionFunded(w), Auction.Award(a, id, provider, rate, deposit))
    requires !w.auction.entered && a.entered && AS.Pooled(a) == 0 && deposit == Balance(paid, AuctionContract)
    ensures TracedPause(w, OpenSession(paid.(auction := a), id, provider, rate, deposit))
  {
    var m, call := Msg(AuctionContract, deposit, w.now), Escrow.StartSession(id, provider, rate);
    var s := Escrow.Begin(w.escrow, m, call);
    StartOpens(w.escrow, m, id, provider, rate);
    ES.BeginAddressed(w.escrow, m, call);
    if s.Pay? {
      var c := Transferred(paid.(auction := a), AuctionContract, EscrowContract, deposit).(escrow := s.e);
      if CanPay(c, EscrowContract, s.to, s.amount) {
        assert Payment(provider, s.amount) + [] == Payment(provider, s.amount);
        AwardSent(w, paid, a, id, provider, rate, deposit, s.e, s.amount);
      }
    }
  }

  lemma DepositSent(c: World, deposit: nat)
    requires deposit <= Balance(c, AuctionContract)
    ensures var v := Transferred(c, AuctionContract, EscrowContract, deposit);
            && c.transfers <= v.transfers && (Proper(c.transfers) ==> Proper(v.transfers))
            && Balance(v, AuctionContract) == Balance(c, AuctionContract) - deposit
            && forall x: Address ::
                 OutOf(v.transfers, x) ==
                 if x == AuctionContract then OutOf(c.transfers, x) + Payment(EscrowContract, deposit) else OutOf(c.transfers, x)
  {
    forall x: Address
      ensures OutOf(Recorded(c.transfers, AuctionContract, EscrowContract, deposit), x)
              == if x == AuctionContract then OutOf(c.transfers, x) + Payment(EscrowContract, deposit) else OutOf(c.transfers, x)
    {
      OutOfRecorded(c.transfers, AuctionContract, EscrowContract, deposit, x);
    }
  }

  lemma AwardBacked(w: World, v: World, id: Id)
    requires EL.Grows(w.escrow, v.escrow) && AS.OnlyAwarded(w.auction, v.auction, Some(id)) && id in v.auction.jobs && BackedJob(v, id)
    ensures Backed(w) ==> Backed(v)
  {
    if Backed(w) {
      forall i | i in v.auction.jobs
        ensures BackedJob(v, i)
      {
        if v.auction.jobs[i].status.Awarded? && i != id {
          assert BackedJob(w, i);
        }
      }
    }
  }

  /** The two movements of ETH in an award: the pool to the escrow, the upfront part to the provider. */
  function AwardMoves(paid: World, a: Auction.State, e: Escrow.State, deposit: nat, provider: Address, upfront: nat): World
    requires deposit <= Balance(paid, AuctionContract)
    requires CanPay(Transferred(paid.(auction := a), AuctionContract, EscrowContract, deposit).(escrow := e), EscrowContract, provider, upfront)
  {
    Paid(Transferred(paid.(auction := a), AuctionContract, EscrowContract, deposit).(escrow := e), EscrowContract, provider, upfront)
  }

  lemma AwardTrails(paid: World, a: Auction.State, e: Escrow.State, deposit: nat, provider: Address, upfront: nat)
    requires deposit <= Balance(paid, AuctionContract)
    requires CanPay(Transferred(paid.(auction := a), AuctionContract, EscrowContract, deposit).(escrow := e), EscrowContract, provider, upfront)
    ensures var u := AwardMoves(paid, a, e, deposit, provider, upfront);
            && u.escrow == e && u.auction == a && u.registry == paid.registry
            && paid.transfers <= u.transfers && (Proper(paid.transfers) ==> Proper(u.transfers))
            && Balance(u, AuctionContract) == Balance(paid, AuctionContract) - deposit
            && OutOf(u.transfers, EscrowContract) == OutOf(paid.transfers, EscrowContract) + Payment(provider, upfront)
            && OutOf(u.transfers, AuctionContract) == OutOf(paid.transfers, AuctionContract) + Payment(EscrowContract, deposit)
            && OutOf(u.transfers, RegistryContract) == OutOf(paid.transfers, RegistryContract)
  {
    var c := Transferred(paid.(auction := a), AuctionContract, EscrowContract, deposit).(escrow := e);
    DepositSent(paid.(auction := a), deposit);
    ContractSends(c, EscrowContract, provider, upfront);
    PaymentSound(paid, c, EscrowContract, provider, upfront);
  }

  lemma AwardSent(w: World, paid: World, a: Auction.State, id: Id, provider: Address, rate: nat, deposit: nat, e: Escrow.State, upfront: nat)
    requires SameOut(w, paid) && paid.auction == w.auction && paid.escrow == w.escrow && paid.registry == w.registry
    requires AS.Addressed(w.auction, AuctionFunded(w), Auction.Award(a, id, provider, rate, deposit))
    requires !w.auction.entered && a.entered && AS.Pooled(a) == 0 && deposit == Balance(paid, AuctionContract)
    requires !w.escrow.entered && e.entered && EL.Grows(w.escrow, e)
    requires id in e.sessions && e.sessions[id].user == AuctionContract && e.sessions[id].provider == provider && e.sessions[id].ratePerSecond == rate
    requires EL.Named(e.events) == EL.Named(w.escrow.events) + Payment(provider, upfront)
    requires CanPay(Transferred(paid.(auction := a), AuctionContract, EscrowContract, deposit).(escrow := e), EscrowContract, provider, upfront)
    ensures TracedWait(w, AwardMoves(paid, a, e, deposit, provider, upfront), AwardK)
  {
    var u := AwardMoves(paid, a, e, deposit, provider, upfront);
    AwardTrails(paid, a, e, deposit, provider, upfront);
    AwardBacked(w, u, id);
    AwardFollows(w, u, deposit, provider, upfront);
    TracedSelf(w);
    AuctionMoves(w, w, u, false, [], false, true, [], true);
  }

  /** Both books of an award balance: the pool has gone to the escrow, the upfront part to the provider. */
  lemma AwardFollows(w: World, u: World, deposit: nat, provider: Address, upfront: nat)
    requires !w.escrow.entered && u.escrow.entered && !w.auction.entered && u.auction.entered
    requires EL.Named(u.escrow.events) == EL.Named(w.escrow.events) + Payment(provider, upfront)
    requires OutOf(u.transfers, EscrowContract) == OutOf(w.transfers, EscrowContract) + Payment(provider, upfront)
    requires AuctionFunded(w) ==> AS.Named(u.auction.events) == AS.Named(w.auction.events) + Payment(EscrowContract, deposit)
    requires OutOf(u.transfers, AuctionContract) == OutOf(w.transfers, AuctionContract) + Payment(EscrowContract, deposit)
    ensures Follows(EscrowBook(w), EscrowBook(u), true, [])
    ensures AuctionFunded(w) ==> Follows(AuctionBook(w), AuctionBook(u), true, [])
  {
    assert AuctionBook(u).paid + [] == AuctionBook(u).paid && EscrowBook(u).paid + [] == EscrowBook(u).paid;
  }

  lemma AuctionExitsTraced(w: World, v: World)
    requires Traced(w, v, false, [], false, true)
    ensures TracedDone(w, v.(auction := Auction.Exit(v.auction)))
  {
    var c := v.(auction := Auction.Exit(v.auction));
    AS.ExitSound(v.now, v.auction);
    BackedKept(v, c);
    AuctionMoves(w, v, c, false, [], true, false, [], false);
  }

  /** The end of closeAuction gives both guards back. */
  lemma AwardResumesTraced(w: World, v: World)
    requires TracedWait(w, v, AwardK)
    ensures TracedPause(w, Resume(v, AwardK))
  {
    var c := v.(escrow := v.escrow.(entered := false), auction := Auction.Exit(v.auction));
    AS.ExitSound(v.now, v.auction);
    BackedKept(v, c);
    AuctionMoves(w, v, c, true, [], true, false, [], false);
  }

  // ---- Whole transactions ----

  lemma SameContracts(w: World, c: World)
    requires SameOut(w, c) && c.escrow == w.escrow && c.registry == w.registry && c.auction == w.auction
    requires Balance(c, AuctionContract) == Balance(w, AuctionContract)
    ensures TracedDone(w, c)
  {
    FollowsSelf(EscrowBook(w));
    FollowsSelf(RegistryBook(w));
    FollowsSelf(AuctionBook(w));
    forall id | id in w.auction.jobs
      ensures BackedJob(w, id) == BackedJob(c, id)
    {
    }
  }

  lemma PaidTraced(w: World, from: Address, to: Address, amount: nat)
    requires !IsContract(from) && amount <= Balance(w, from)
    ensures SameOut(w, Transferred(w, from, to, amount))
    ensures to != AuctionContract ==> TracedDone(w, Transferred(w, from, to, amount))
  {
    WalletSends(w, from, to, amount);
    if to != AuctionContract {
      SameContracts(w, Transferred(w, from, to, amount));
    }
  }

  lemma StartTraced(w: World, tx: Tx)
    ensures TracedPause(w, Start(w, tx))
  {
    if tx.sender.Wallet? && tx.value <= Balance(w, tx.sender) {
      match tx.call
      case ToEscrow(c) => EscrowBeginsTraced(w, tx.sender, tx.value, c);
      case ToRegistry(c) => RegistryBeginsTraced(w, tx.sender, tx.value, c);
      case ToAuction(c) => AuctionBeginsTraced(w, tx.sender, tx.value, Registry.ActiveAmong(w.registry, w.registry.providerList), c);
      case ToWallet(to) =>
        if CanPay(w, tx.sender, to, tx.value) {
          PaidTraced(w, tx.sender, to, tx.value);
        }
    }
  }

  lemma EscrowBeginsTraced(w: World, from: Address, value: nat, c: Escrow.Call)
    requires !IsContract(from) && value <= Balance(w, from)
    ensures TracedPause(w, FromEscrow(Transferred(w, from, EscrowContract, value), Escrow.Begin(w.escrow, Msg(from, value, w.now), c)))
  {
    PaidTraced(w, from, EscrowContract, value);
    ES.BeginSound(w.escrow, Msg(from, value, w.now), c);
    EscrowStepTraced(w, Transferred(w, from, EscrowContract, value), Escrow.Begin(w.escrow, Msg(from, value, w.now), c));
  }

  lemma RegistryBeginsTraced(w: World, from: Address, value: nat, c: Registry.Call)
    requires !IsContract(from) && value <= Balance(w, from)
    ensures TracedPause(w, FromRegistry(Transferred(w, from, RegistryContract, value), Registry.Begin(w.registry, Msg(from, value, w.now), c)))
  {
    PaidTraced(w, from, RegistryContract, value);
    RS.BeginSound(w.registry, Msg(from, value, w.now), c);
    RegistryStepTraced(w, Transferred(w, from, RegistryContract, value), Registry.Begin(w.registry, Msg(from, value, w.now), c));
  }

  lemma AuctionBeginsTraced(w: World, from: Address, value: nat, active: seq<Registry.Provider>, c: Auction.Call)
    requires !IsContract(from) && value <= Balance(w, from)
    ensures var paid := Transferred(w, from, AuctionContract, value);
            TracedPause(w, FromAuction(paid, Auction.Begin(w.auction, Msg(from, value, w.now), Balance(paid, AuctionContract), active, c)))
  {
    var paid := Transferred(w, from, AuctionContract, value);
    PaidTraced(w, from, AuctionContract, value);
    AS.BeginSound(w.auction, Msg(from, value, w.now), Balance(paid, AuctionContract), active, c);
    AuctionStepTraced(w, paid, Auction.Begin(w.auction, Msg(from, value, w.now), Balance(paid, AuctionContract), active, c));
  }

  lemma ResumeTraced(w: World, v: World, k: Kont)
    requires TracedWait(w, v, k) && (k.EscrowK? ==> EL.KontOk(v.escrow, v.now, k.k)) && (k.SlashK? ==> k.k.RefundAfterSlash?)
    ensures TracedPause(w, Resume(v, k))
  {
    match k
    case EscrowK(k) => EscrowResumesTraced(w, v, k);
    case SlashK(k) => SlashResumesTraced(w, v, k);
    case RegistryK => RegistryExitsTraced(w, v, false, []);
    case AuctionK => AuctionExitsTraced(w, v);
    case AwardK => AwardResumesTraced(w, v);
    case WalletK =>
  }

  lemma SlashResumesTraced(w: World, v: World, k: Escrow.Kont)
    requires TracedWait(w, v, SlashK(k)) && k.RefundAfterSlash?
    ensures TracedPause(w, Resume(v, SlashK(k)))
  {
    RegistryExitsTraced(w, v, true, EL.Due(k));
    EscrowResumesTraced(w, v.(registry := Registry.Exit(v.registry)), k);
  }

  lemma {:induction false} ReactTraced(w: World, r: Reaction)
    ensures React(w, r).Some? ==> TracedDone(w, React(w, r).value)
    decreases r, 0
  {
    match r
    case Then(tx, rest) =>
      StepTraced(w, tx);
      ReactTraced(Step(w, tx), rest);
      if React(w, r).Some? {
        TracedThen(w, Step(w, tx), React(w, r).value, false, [], false, false);
      }
    case _ => TracedSelf(w);
  }

  lemma {:induction false} AdvanceTraced(w: World, p: Pause, r: Reaction)
    requires PauseSound(w, p) && TracedPause(w, p)
    ensures TracedPause(w, Advance(p, r))
    decreases r, 2
  {
    if p.Calling? {
      var u := Send(p.w, p.from, p.to, p.amount, r);
      if u.Some? {
        var c := Paid(p.w, p.from, p.to, p.amount);
        ReactTraced(c, r);
        ReactSound(c, r);
        WaitingThen(w, c, u.value, p.k);
        TracedWaitThen(w, c, u.value, p.k);
        WaitingResumable(w, u.value, p.k);
        ResumeTraced(w, u.value, p.k);
      } else if p.rescue.Some? {
        RescueTraced(w, p.rescue.value, p.k.k);
      }
    }
  }

  lemma WaitingResumable(w: World, v: World, k: Kont)
    requires Waiting(w, v, k)
    ensures k.EscrowK? ==> EL.KontOk(v.escrow, v.now, k.k)
    ensures k.SlashK? ==> k.k.RefundAfterSlash?
  {
  }

  lemma RescueTraced(w: World, u: World, k: Escrow.Kont)
    requires Traced(w, u, true, EL.Due(k), false, false) && k.RefundAfterSlash? && !w.registry.entered && u.escrow.events != []
    ensures TracedPause(w, Resume(u, SlashK(k)))
  {
    assert u.(registry := Registry.Exit(u.registry)) == u;
    EscrowResumesTraced(w, u, k);
  }

  lemma {:induction false} ExecTraced(w: World, tx: Tx)
    ensures TracedPause(w, Exec(w, tx))
    decreases tx, 0
  {
    StartTraced(w, tx);
    StartSound(w, tx);
    AdvanceTraced(w, Start(w, tx), tx.first);
    AdvanceSound(w, Start(w, tx), tx.first);
    AdvanceTraced(w, Advance(Start(w, tx), tx.first), tx.second);
  }

  lemma {:induction false} StepTraced(w: World, tx: Tx)
    ensures TracedDone(w, Step(w, tx))
    decreases tx, 1
  {
    ExecTraced(w, tx);
    TracedSelf(w);
  }
}
