/** The provider's auto-bidder: poll, decide, bid. */
module Bidder {
  import opened Common
  import opened EventLogs
  import opened Cursor
  import Registry = RegistrySpec
  import RegistrySound
  import AuctionSound

  /** The wallet behind the configured key, None for a bad key; and whether a registry address is configured. */
  datatype Config = Config(ours: Option<Address>, hasRegistry: bool)

  /** What the node sees when it comes to an event: the clock, and the registry's active providers if that call succeeds. */
  datatype Look = Look(now: int, providers: Option<seq<Registry.Provider>>)

  datatype Bid = Bid(jobId: Id, price: nat)

  /** big.Int's Int64: the low 64 bits, read as a signed number. */
  function Int64(n: nat): int {
    if Uint64(n) >= UINT64 / 2 then Uint64(n) - UINT64 else Uint64(n)
  }

  predicate DeadlinePassed(ev: Posting, now: int) {
    Int64(ev.bidDeadline) > 0 && now > Int64(ev.bidDeadline)
  }

  /** The price of our first entry, if there is one. */
  function Listed(ours: Option<Address>, providers: seq<Registry.Provider>, otherwise: nat): nat {
    if providers == [] then otherwise
    else if ours == Some(providers[0].wallet) then providers[0].pricePerHour
    else Listed(ours, providers[1..], otherwise)
  }

  function OurPrice(c: Config, ev: Posting, look: Look): nat {
    if c.hasRegistry && look.providers.Some? then Listed(c.ours, look.providers.value, ev.maxPricePerHour) else ev.maxPricePerHour
  }

  function BidOn(c: Config, ev: Posting, look: Look): Option<Bid> {
    if DeadlinePassed(ev, look.now) || OurPrice(c, ev, look) > ev.maxPricePerHour then None
    else Some(Bid(ev.jobId, OurPrice(c, ev, look)))
  }

  function BidsOn(c: Config, events: seq<Posting>, looks: nat -> Look): seq<Bid> {
    if events == [] then []
    else
      var front, b := BidsOn(c, events[..|events| - 1], looks), BidOn(c, events[|events| - 1], looks(|events| - 1));
      if b.Some? then front + [b.value] else front
  }

  /** One tick: the node's answer to the poll, and what is seen event by event. */
  datatype Round = Round(answer: Option<seq<RawLog>>, looks: nat -> Look)

  datatype State = State(fromBlock: nat, bids: seq<Bid>, crashed: bool)

  function AfterRound(c: Config, s: State, r: Round): State {
    if s.crashed then s
    else
      match Poll(s.fromBlock, r.answer)
      case Polled(events, next) => State(next, s.bids + BidsOn(c, events, r.looks), false)
      case PollFailed(_) => s
      case Crashed => s.(crashed := true)
  }

  function AfterRounds(c: Config, start: nat, rounds: seq<Round>): State {
    if rounds == [] then State(start, [], false)
    else AfterRound(c, AfterRounds(c, start, rounds[..|rounds| - 1]), rounds[|rounds| - 1])
  }

  // ---- As the source runs it ----

  method LookUpPrice(c: Config, ev: Posting, look: Look) returns (ourPrice: nat)
    ensures ourPrice == OurPrice(c, ev, look)
  {
    ourPrice := ev.maxPricePerHour;
    if c.hasRegistry && look.providers.Some? {
      var providers := look.providers.value;
      for i := 0 to |providers|
        invariant ourPrice == ev.maxPricePerHour
        invariant Listed(c.ours, providers[i..], ev.maxPricePerHour) == OurPrice(c, ev, look)
      {
        if c.ours == Some(providers[i].wallet) {
          ourPrice := providers[i].pricePerHour;
          return;
        }
        assert providers[i..][1..] == providers[i + 1..];
      }
    }
  }

  method BidOnEvents(c: Config, events: seq<Posting>, looks: nat -> Look) returns (bids: seq<Bid>)
    ensures bids == BidsOn(c, events, looks)
  {
    bids := [];
    for i := 0 to |events|
      invariant bids == BidsOn(c, events[..i], looks)
    {
      assert events[..i + 1][..i] == events[..i];
      var ev := events[i];
      if DeadlinePassed(ev, looks(i).now) {
        continue;
      }
      var ourPrice := LookUpPrice(c, ev, looks(i));
      if ourPrice > ev.maxPricePerHour {
        continue;
      }
      bids := bids + [Bid(ev.jobId, ourPrice)];
    }
    assert events[..|events|] == events;
  }

  /** The goroutine, from the chain head it starts with (0 when asking for it fails). */
  method StartProviderBidder(c: Config, head: Option<nat>, rounds: seq<Round>) returns (fromBlock: nat, bids: seq<Bid>, crashed: bool)
    ensures State(fromBlock, bids, crashed) == AfterRounds(c, if head.Some? then head.value else 0, rounds)
  {
    fromBlock, bids, crashed := 0, [], false;
    if head.Some? {
      fromBlock := head.value;
    }
    ghost var start := fromBlock;
    for i := 0 to |rounds|
      invariant State(fromBlock, bids, crashed) == AfterRounds(c, start, rounds[..i])
    {
      assert rounds[..i + 1][..i] == rounds[..i];
      if crashed {
        continue;
      }
      var poll := PollJobPostedEvents(fromBlock, rounds[i].answer);
      match poll
      case PollFailed(_) =>
      case Crashed => crashed := true;
      case Polled(events, nextBlock) =>
        fromBlock := nextBlock;
        var more := BidOnEvents(c, events, rounds[i].looks);
        bids := bids + more;
    }
    assert rounds[..|rounds|] == rounds;
  }

  // ---- The ceiling ----

  lemma {:induction false} BidsComeFromEvents(c: Config, events: seq<Posting>, looks: nat -> Look, b: Bid) returns (i: nat)
    requires b in BidsOn(c, events, looks)
    ensures i < |events| && BidOn(c, events[i], looks(i)) == Some(b)
    decreases |events|
  {
    i := |events| - 1;
    if BidOn(c, events[i], looks(i)) != Some(b) {
      i := BidsComeFromEvents(c, events[..i], looks, b);
    }
  }

  /** Over any run, whatever the nodes answer, each bid is for a job some poll returned, and not above its ceiling. */
  lemma {:induction false} NeverAboveCeiling(c: Config, start: nat, rounds: seq<Round>, b: Bid) returns (n: nat, i: nat)
    requires b in AfterRounds(c, start, rounds).bids
    ensures n < |rounds| && rounds[n].answer.Some? && i < |Postings(rounds[n].answer.value)|
    ensures var ev := Postings(rounds[n].answer.value)[i];
            b.jobId == ev.jobId && b.price <= ev.maxPricePerHour && BidOn(c, ev, rounds[n].looks(i)) == Some(b)
    decreases |rounds|
  {
    var front, r := rounds[..|rounds| - 1], rounds[|rounds| - 1];
    if b in AfterRounds(c, start, front).bids {
      n, i := NeverAboveCeiling(c, start, front, b);
    } else {
      n := |rounds| - 1;
      i := BidsComeFromEvents(c, Postings(r.answer.value), r.looks, b);
    }
  }

  // ---- The price ----

  lemma {:induction false} ListedFinds(providers: seq<Registry.Provider>, a: Address, otherwise: nat, i: nat)
    requires i < |providers| && providers[i].wallet == a
    requires forall k | 0 <= k < |providers| && providers[k].wallet == a :: providers[k] == providers[i]
    ensures Listed(Some(a), providers, otherwise) == providers[i].pricePerHour
    decreases |providers|
  {
    if providers[0].wallet != a {
      ListedFinds(providers[1..], a, otherwise, i - 1);
    }
  }

  lemma {:induction false} ListedMisses(providers: seq<Registry.Provider>, a: Address, otherwise: nat)
    requires forall p | p in providers :: p.wallet != a
    ensures Listed(Some(a), providers, otherwise) == otherwise
    decreases |providers|
  {
    if providers != [] {
      assert providers[0] in providers;
      ListedMisses(providers[1..], a, otherwise);
    }
  }

  /** Against the registry's own list the scan gives our registered price while we are active, and the ceiling otherwise. */
  lemma PriceIsRegistered(r: Registry.State, a: Address, otherwise: nat)
    requires RegistrySound.RegistryOk(r)
    ensures Listed(Some(a), Registry.ActiveAmong(r, r.providerList), otherwise)
            == if Registry.IsActive(r, a) then r.providers[a].pricePerHour else otherwise
  {
    var active := Registry.ActiveAmong(r, r.providerList);
    AuctionSound.ActiveAmongMembers(r, r.providerList);
    if Registry.IsActive(r, a) {
      var i :| 0 <= i < |active| && active[i] == r.providers[a];
      ListedFinds(active, a, otherwise, i);
    } else {
      ListedMisses(active, a, otherwise);
    }
  }

  lemma {:induction false} ListedNobody(providers: seq<Registry.Provider>, otherwise: nat)
    ensures Listed(None, providers, otherwise) == otherwise
    decreases |providers|
  {
    if providers != [] {
      ListedNobody(providers[1..], otherwise);
    }
  }

  /** What to ask for a job: the price we are registered at, if the registry could be read and has us active, and the
      ceiling otherwise. */
  function Asking(c: Config, registry: Option<Registry.State>, ceiling: nat): nat {
    if c.hasRegistry && registry.Some? && c.ours.Some? && Registry.IsActive(registry.value, c.ours.value)
    then registry.value.providers[c.ours.value].pricePerHour else ceiling
  }

  /** The list of active providers came from this state of the registry, or the call failed. */
  ghost predicate Reads(look: Look, registry: Option<Registry.State>) {
    match registry
    case None => look.providers == None
    case Some(r) => RegistrySound.RegistryOk(r) && look.providers == Some(Registry.ActiveAmong(r, r.providerList))
  }

  lemma OurPriceIsAsking(c: Config, ev: Posting, look: Look, registry: Option<Registry.State>)
    requires Reads(look, registry)
    ensures OurPrice(c, ev, look) == Asking(c, registry, ev.maxPricePerHour)
  {
    if registry.Some? {
      var active := Registry.ActiveAmong(registry.value, registry.value.providerList);
      if c.ours.Some? {
        PriceIsRegistered(registry.value, c.ours.value, ev.maxPricePerHour);
      } else {
        ListedNobody(active, ev.maxPricePerHour);
      }
    }
  }

  /** The time to bid is over: the deadline is positive as a signed 64-bit number, and past. */
  predicate TooLate(ev: Posting, now: int) {
    var low := ev.bidDeadline % 0x1_0000_0000_0000_0000;
    0 < low < 0x8000_0000_0000_0000 && low < now
  }

  /** What is bid on a posting: what we ask for it, unless that is above the ceiling or the time is over. */
  lemma BidIsAsking(c: Config, ev: Posting, look: Look, registry: Option<Registry.State>)
    requires Reads(look, registry)
    ensures var price := Asking(c, registry, ev.maxPricePerHour);
            BidOn(c, ev, look) ==
            if !TooLate(ev, look.now) && price <= ev.maxPricePerHour then Some(Bid(ev.jobId, price)) else None
  {
    OurPriceIsAsking(c, ev, look, registry);
  }

  /** The states of the registry behind everything the node saw, round by round and event by event. */
  ghost predicate ReadFrom(rounds: seq<Round>, registries: seq<nat -> Option<Registry.State>>) {
    |registries| == |rounds| && forall n, i: nat | 0 <= n < |rounds| :: Reads(rounds[n].looks(i), registries[n](i))
  }

  /** Over any run every bid is what we asked when the bidder came to its job: our registered price while active, the ceiling
      while the registry is not configured, not readable, or has us inactive. */
  lemma EveryBidIsAsked(c: Config, start: nat, rounds: seq<Round>, registries: seq<nat -> Option<Registry.State>>, b: Bid)
    returns (n: nat, i: nat)
    requires ReadFrom(rounds, registries) && b in AfterRounds(c, start, rounds).bids
    ensures n < |rounds| && rounds[n].answer.Some? && i < |Postings(rounds[n].answer.value)|
    ensures var ev := Postings(rounds[n].answer.value)[i];
            && b == Bid(ev.jobId, Asking(c, registries[n](i), ev.maxPricePerHour))
            && b.price <= ev.maxPricePerHour && !TooLate(ev, rounds[n].looks(i).now)
  {
    n, i := NeverAboveCeiling(c, start, rounds, b);
    BidIsAsking(c, Postings(rounds[n].answer.value)[i], rounds[n].looks(i), registries[n](i));
  }

  // ---- Over a growing chain ----

  /** The answers are those of a chain polled at these ticks. */
  ghost predicate PollsChain(c: Config, chain: seq<RawLog>, start: nat, ticks: seq<Tick>, rounds: seq<Round>) {
    |rounds| == |ticks| && forall n | 0 <= n < |ticks| ::
      rounds[n].answer == if ticks[n].ok then Some(Answer(chain, AfterRounds(c, start, rounds[..n]).fromBlock, ticks[n].head)) else None
  }

  /** The bidder's cursor is the poller's. */
  lemma {:induction false} BidderCursor(c: Config, chain: seq<RawLog>, start: nat, ticks: seq<Tick>, rounds: seq<Round>, n: nat)
    requires ChainOk(chain) && PollsChain(c, chain, start, ticks, rounds) && n <= |ticks|
    ensures var s := AfterRounds(c, start, rounds[..n]); !s.crashed && s.fromBlock == CursorAfter(chain, start, ticks[..n])
    decreases n
  {
    if n > 0 {
      BidderCursor(c, chain, start, ticks, rounds, n - 1);
      CursorStep(chain, start, ticks, n);
      assert rounds[..n][..n - 1] == rounds[..n - 1];
    }
  }

  lemma {:induction false} BidsOnHas(c: Config, events: seq<Posting>, looks: nat -> Look, i: nat)
    requires i < |events| && BidOn(c, events[i], looks(i)).Some?
    ensures BidOn(c, events[i], looks(i)).value in BidsOn(c, events, looks)
    decreases |events|
  {
    if i < |events| - 1 {
      BidsOnHas(c, events[..|events| - 1], looks, i);
    }
  }

  /** No job is missed: the first successful poll to reach a posting's block puts it before the bidder, who bids on it
      then and there, at the price it asks, unless it sees the deadline passed or that price above the ceiling. */
  lemma NoJobMissed(c: Config, chain: seq<RawLog>, start: nat, ticks: seq<Tick>, rounds: seq<Round>,
                    registries: seq<nat -> Option<Registry.State>>, n: nat, k: nat) returns (i: nat)
    requires ChainOk(chain) && PollsChain(c, chain, start, ticks, rounds) && n < |ticks| && k < |chain|
    requires ReadFrom(rounds, registries)
    requires start <= chain[k].block.value && DecodePosted(chain[k]).Decoded?
    requires ticks[n].ok && chain[k].block.value <= ticks[n].head
    requires forall j | 0 <= j < n && ticks[j].ok :: ticks[j].head < chain[k].block.value
    ensures var r := PollAt(chain, CursorAfter(chain, start, ticks[..n]), ticks[n]);
            r.Polled? && i < |r.events| && r.events[i] == DecodePosted(chain[k]).value
    ensures var ev := DecodePosted(chain[k]).value;
            var price := Asking(c, registries[n](i), ev.maxPricePerHour);
            !TooLate(ev, rounds[n].looks(i).now) && price <= ev.maxPricePerHour ==>
              Bid(ev.jobId, price) in AfterRounds(c, start, rounds[..n + 1]).bids
  {
    NothingSkipped(chain, start, ticks, n, k);
    DeliveredEvent(chain, start, ticks, n, k);
    BidderCursor(c, chain, start, ticks, rounds, n);
    var events := PollAt(chain, CursorAfter(chain, start, ticks[..n]), ticks[n]).events;
    i :| 0 <= i < |events| && events[i] == DecodePosted(chain[k]).value;
    assert rounds[..n + 1][..n] == rounds[..n];
    AskedIsBid(c, events, rounds[n].looks, i, registries[n](i));
  }

  lemma AskedIsBid(c: Config, events: seq<Posting>, looks: nat -> Look, i: nat, registry: Option<Registry.State>)
    requires i < |events| && Reads(looks(i), registry)
    ensures var price := Asking(c, registry, events[i].maxPricePerHour);
            !TooLate(events[i], looks(i).now) && price <= events[i].maxPricePerHour ==>
              Bid(events[i].jobId, price) in BidsOn(c, events, looks)
  {
    BidIsAsking(c, events[i], looks(i), registry);
    if BidOn(c, events[i], looks(i)).Some? {
      BidsOnHas(c, events, looks, i);
    }
  }
}

/** The bidder and the auction together. */
module BidderTheorems {
  import opened Common
  import opened Machine
  import opened ChainTheorems
  import opened EventLogs
  import Hex
  import Registry = RegistrySpec
  import RegistrySound
  import Auction = AuctionSpec
  import AS = AuctionSound
  import Bidder

  /** The posting as the contract emits it; code numbers the addresses. */
  function OnWire(block: nat, topic: Hex.Digest, code: Address -> nat, x: Auction.Event): RawLog
    requires x.JobPosted?
  {
    Wire(block, topic, x.id, code(x.user),
         [x.maxPricePerHour, x.ramMb, x.cpuCores, x.durationSeconds, x.deposit, x.bidDeadline])
  }

  predicate FitsWire(code: Address -> nat, x: Auction.Event)
    requires x.JobPosted?
  {
    x.id <= MAX_UINT256
    && Fits([x.maxPricePerHour, x.ramMb, x.cpuCores, x.durationSeconds, x.deposit, x.bidDeadline])
  }

  lemma PostedJob(w: World, x: Auction.Event)
    requires Reachable(w) && x in w.auction.events && x.JobPosted?
    ensures x.id in w.auction.jobs
    ensures var j := w.auction.jobs[x.id];
            j.maxPricePerHour == x.maxPricePerHour && j.depositedAt + Auction.BID_WINDOW == x.bidDeadline <= MAX_UINT256
  {
    ReachableInv(w);
    assert AS.RecordOk(w.auction, x.id);
    AS.PostedOnce(w.auction.events, x);
  }

  /** What becomes of a bid for a posted job: the contract takes it if and only if the price is within the posted ceiling,
      the posted deadline has not passed, the job is still open, the wallet is an active provider, and it has not bid yet. */
  lemma BidFate(w: World, x: Auction.Event, tx: Tx, price: nat)
    requires Reachable(w) && x in w.auction.events && x.JobPosted? && x.id in w.auction.jobs
    requires tx.sender.Wallet? && tx.value == 0 && tx.call == ToAuction(Auction.SubmitBid(x.id, price))
    ensures Exec(w, tx).Done? <==>
              && price <= x.maxPricePerHour && w.now <= x.bidDeadline && w.auction.jobs[x.id].status.Open?
              && Registry.IsActive(w.registry, tx.sender) && (x.id, tx.sender) !in w.auction.hasBid
    ensures !Exec(w, tx).Calling?
  {
    PostedJob(w, x);
    ReachableInv(w);
    AS.ScanEqualsLookup(w.registry, tx.sender);
    var p := Start(w, tx);
    assert p.Done? || p.Reverted?;
    assert Advance(p, tx.first) == p && Advance(p, tx.second) == p;
  }

  lemma WireRead(x: Auction.Event, block: nat, topic: Hex.Digest, code: Address -> nat) returns (ev: Posting)
    requires x.JobPosted? && FitsWire(code, x) && code(x.user) < Pow256(20)
    ensures DecodePosted(OnWire(block, topic, code, x)) == Decoded(ev)
    ensures ev.jobId == x.id && ev.user == code(x.user) && ev.maxPricePerHour == x.maxPricePerHour && ev.bidDeadline == x.bidDeadline
  {
    var rest := [x.maxPricePerHour, x.ramMb, x.cpuCores, x.durationSeconds, x.deposit, x.bidDeadline];
    PostedRoundTrip(block, topic, x.id, code(x.user), rest);
    ev := Posting(x.id, code(x.user), rest[0], rest[1], rest[2], rest[3], rest[5], Uint64(block));
  }

  /** The bidder reads the posting off the wire as posted, so its own two checks are the contract's: looking at block time it
      bids exactly while the contract's window is open and what it asks is within the contract's ceiling, and then bids that. */
  lemma BidderChecksAreTheContracts(w: World, x: Auction.Event, block: nat, topic: Hex.Digest, code: Address -> nat,
                                    c: Bidder.Config, look: Bidder.Look, registry: Option<Registry.State>)
    requires Reachable(w) && x in w.auction.events && x.JobPosted? && x.id in w.auction.jobs
    requires FitsWire(code, x) && code(x.user) < Pow256(20) && x.bidDeadline < UINT64 / 2
    requires Bidder.Reads(look, registry) && look.now == w.now
    ensures DecodePosted(OnWire(block, topic, code, x)).Decoded?
    ensures var j := w.auction.jobs[x.id];
            var price := Bidder.Asking(c, registry, j.maxPricePerHour);
            Bidder.BidOn(c, DecodePosted(OnWire(block, topic, code, x)).value, look) ==
            if w.now <= j.depositedAt + 30 && price <= j.maxPricePerHour then Some(Bidder.Bid(x.id, price)) else None
  {
    PostedJob(w, x);
    var ev := WireRead(x, block, topic, code);
    SameChecks(w.auction.jobs[x.id], c, ev, look, registry);
  }

  lemma SameChecks(j: Auction.Job, c: Bidder.Config, ev: Posting, look: Bidder.Look, registry: Option<Registry.State>)
    requires ev.maxPricePerHour == j.maxPricePerHour && ev.bidDeadline == j.depositedAt + 30 < UINT64 / 2
    requires Bidder.Reads(look, registry)
    ensures var price := Bidder.Asking(c, registry, j.maxPricePerHour);
            Bidder.BidOn(c, ev, look) ==
            if look.now <= j.depositedAt + 30 && price <= j.maxPricePerHour then Some(Bidder.Bid(ev.jobId, price)) else None
  {
    Bidder.BidIsAsking(c, ev, look, registry);
  }

  /** An active provider that has read the registry as it is bids its registered price, and the contract takes it, if the job
      is open and has no bid of its own yet. */
  lemma BidIsTaken(w: World, x: Auction.Event, block: nat, topic: Hex.Digest, code: Address -> nat, look: Bidder.Look, tx: Tx)
    requires Reachable(w) && x in w.auction.events && x.JobPosted? && x.id in w.auction.jobs && w.auction.jobs[x.id].status.Open?
    requires FitsWire(code, x) && code(x.user) < Pow256(20) && x.bidDeadline < UINT64 / 2
    requires tx.sender.Wallet? && tx.value == 0 && Registry.IsActive(w.registry, tx.sender) && (x.id, tx.sender) !in w.auction.hasBid
    requires look == Bidder.Look(w.now, Some(Registry.ActiveAmong(w.registry, w.registry.providerList)))
    requires tx.call == ToAuction(Auction.SubmitBid(x.id, w.registry.providers[tx.sender].pricePerHour))
    ensures DecodePosted(OnWire(block, topic, code, x)).Decoded?
    ensures Bidder.BidOn(Bidder.Config(Some(tx.sender), true), DecodePosted(OnWire(block, topic, code, x)).value, look) ==
            if Exec(w, tx).Done? then Some(Bidder.Bid(x.id, w.registry.providers[tx.sender].pricePerHour)) else None
  {
    PostedJob(w, x);
    var ev := WireRead(x, block, topic, code);
    OursIsBid(w, x, tx.sender, ev, look);
    BidFate(w, x, tx, w.registry.providers[tx.sender].pricePerHour);
  }

  lemma OursIsBid(w: World, x: Auction.Event, a: Address, ev: Posting, look: Bidder.Look)
    requires Reachable(w) && x.JobPosted? && Registry.IsActive(w.registry, a)
    requires look == Bidder.Look(w.now, Some(Registry.ActiveAmong(w.registry, w.registry.providerList)))
    requires ev.jobId == x.id && ev.maxPricePerHour == x.maxPricePerHour && ev.bidDeadline == x.bidDeadline
    requires 0 < x.bidDeadline < UINT64 / 2
    ensures var price := w.registry.providers[a].pricePerHour;
            Bidder.BidOn(Bidder.Config(Some(a), true), ev, look) ==
            if w.now <= x.bidDeadline && price <= x.maxPricePerHour then Some(Bidder.Bid(x.id, price)) else None
  {
    RegistryIsRead(w);
    Bidder.BidIsAsking(Bidder.Config(Some(a), true), ev, look, Some(w.registry));
  }

  lemma RegistryIsRead(w: World)
    requires Reachable(w)
    ensures RegistrySound.RegistryOk(w.registry)
  {
    ReachableInv(w);
  }

  /** At most one stored bid per job and provider, in every reachable state, so redelivered postings add nothing. */
  lemma OneStoredBid(w: World, id: Id, i: nat, k: nat)
    requires Reachable(w) && i < |Auction.BidsOf(w.auction, id)| && k < |Auction.BidsOf(w.auction, id)|
    requires Auction.BidsOf(w.auction, id)[i].provider == Auction.BidsOf(w.auction, id)[k].provider
    ensures i == k
  {
    ReachableInv(w);
    assert AS.BookOk(w.now, w.auction, id);
  }

  /** The price the agent reads from an award: the winning bid, within the ceiling; or, for a fallback, 3600 times the
      rate, which is within the ceiling if and only if the ceiling is a wei a second or more. */
  lemma DecodedAwardRespectsCeiling(w: World, x: Auction.Event, block: nat, topic: Hex.Digest, fallbackTopic: Hex.Digest, node: nat)
    requires Reachable(w) && x in w.auction.events && (x.JobAwarded? || x.JobAwardedToFallback?) && x.id in w.auction.jobs
    requires x.id <= MAX_UINT256 && node < Pow256(20) && w.auction.jobs[x.id].maxPricePerHour <= MAX_UINT256
    requires topic != fallbackTopic
    ensures var l := if x.JobAwarded? then Wire(block, topic, x.id, node, [x.pricePerHour, x.ratePerSecond])
                     else Wire(block, fallbackTopic, x.id, node, [x.ratePerSecond]);
            var d, ceiling := DecodeAwarded(l, fallbackTopic), w.auction.jobs[x.id].maxPricePerHour;
            && d.Decoded? && d.value.isFallback == x.JobAwardedToFallback? && d.value.winner == node
            && d.value.ratePerSecond == x.ratePerSecond
            && (d.value.pricePerHour <= ceiling <==> x.JobAwarded? || ceiling >= 3600)
  {
    ReachableInv(w);
    assert AS.RecordOk(w.auction, x.id);
    AS.AwardRespectsRecord(w.auction.events, x);
    var ceiling := w.auction.jobs[x.id].maxPricePerHour;
    AS.RateBounds(ceiling);
    if x.JobAwarded? {
      RateFits(x.pricePerHour);
      AwardedRoundTrip(block, topic, fallbackTopic, x.id, node, x.pricePerHour, x.ratePerSecond);
    } else {
      RateFits(ceiling);
      FallbackRoundTrip(block, fallbackTopic, x.id, node, x.ratePerSecond);
    }
  }

  lemma RateFits(price: nat)
    requires price <= MAX_UINT256
    ensures Auction.Rate(price) <= MAX_UINT256
  {
  }
}
