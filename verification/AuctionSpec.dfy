/** JobAuction as a function from storage, message, own balance and the registry's answer to the next point at
    which control leaves it. */
module AuctionSpec {
  import opened Common
  import Registry = RegistrySpec

  const BID_WINDOW: nat := 30
  const MIN_STAKE: nat := 10_000_000_000_000_000

  datatype JobStatus = Open | Awarded | Cancelled

  datatype Job = Job(
    user: Address, depositedAt: nat, maxPricePerHour: nat, ramMb: nat, cpuCores: nat, durationSeconds: nat,
    status: JobStatus, winningProvider: Address, winningRatePerSecond: nat)

  datatype Bid = Bid(provider: Address, pricePerHour: nat, submittedAt: nat)

  datatype Event =
    | JobPosted(id: Id, user: Address, maxPricePerHour: nat, ramMb: nat, cpuCores: nat, durationSeconds: nat,
                deposit: nat, bidDeadline: nat)
    | BidSubmitted(id: Id, provider: Address, pricePerHour: nat)
    | JobAwarded(id: Id, winner: Address, pricePerHour: nat, ratePerSecond: nat)
    | JobAwardedToFallback(id: Id, fallbackNode: Address, ratePerSecond: nat)
    | JobCancelled(id: Id, user: Address, refunded: nat)
    | FallbackProviderUpdated(newFallback: Address)

  /** A key is in `jobs` exactly when the source's `user` field there is not address(0). */
  datatype State = State(
    jobs: map<Id, Job>, bids: map<Id, seq<Bid>>, hasBid: set<(Id, Address)>, fallbackProvider: Address,
    owner: Address, entered: bool, events: seq<Event>)

  datatype Call =
    | PostJob(id: Id, maxPricePerHour: nat, ramMb: nat, cpuCores: nat, durationSeconds: nat)
    | CancelJob(id: Id)
    | SubmitBid(id: Id, pricePerHour: nat)
    | CloseAuction(id: Id)
    | SetFallbackProvider(newFallback: Address)
    | TransferOwnership(newOwner: Address)
    | RenounceOwnership

  /** Award forwards the deposit to escrow.startSession; after Pay or Award only the guard is left to give back. */
  datatype Step =
    | Revert
    | Return(a: State)
    | Pay(a: State, to: Address, amount: nat)
    | Award(a: State, id: Id, provider: Address, ratePerSecond: nat, deposit: nat)

  function BidsOf(a: State, id: Id): seq<Bid> {
    if id in a.bids then a.bids[id] else []
  }

  function Emit(a: State, event: Event): State {
    a.(events := a.events + [event])
  }

  function Begin(a: State, m: Msg, balance: nat, active: seq<Registry.Provider>, c: Call): Step {
    if m.value != 0 && !c.PostJob? then Revert else
    match c
    case PostJob(id, maxPrice, ram, cpu, duration) => if a.entered then Revert else Post(a, m, id, maxPrice, ram, cpu, duration)
    case CancelJob(id) => if a.entered then Revert else Cancel(a, m, id, balance)
    case CloseAuction(id) => if a.entered then Revert else Close(a, m, id, balance)
    case SubmitBid(id, price) => Submit(a, m, active, id, price)
    case SetFallbackProvider(f) =>
      if m.sender != a.owner then Revert else Return(Emit(a.(fallbackProvider := f), FallbackProviderUpdated(f)))
    case TransferOwnership(o) => if m.sender != a.owner || o == Zero then Revert else Return(a.(owner := o))
    case RenounceOwnership => if m.sender != a.owner then Revert else Return(a.(owner := Zero))
  }

  function Post(a: State, m: Msg, id: Id, maxPrice: nat, ram: nat, cpu: nat, duration: nat): Step {
    if m.value == 0 || duration == 0 || id in a.jobs || m.now + BID_WINDOW > MAX_UINT256 then Revert else
    var j := Job(m.sender, m.now, maxPrice, ram, cpu, duration, Open, Zero, 0);
    Return(Emit(a.(jobs := a.jobs[id := j]), JobPosted(id, m.sender, maxPrice, ram, cpu, duration, m.value, m.now + BID_WINDOW)))
  }

  predicate WindowClosed(j: Job, now: nat) {
    now > j.depositedAt + BID_WINDOW
  }

  function Cancel(a: State, m: Msg, id: Id, balance: nat): Step {
    if id !in a.jobs || !a.jobs[id].status.Open? || m.sender != a.jobs[id].user
       || a.jobs[id].depositedAt + BID_WINDOW > MAX_UINT256
    then Revert
    else if !WindowClosed(a.jobs[id], m.now) && |BidsOf(a, id)| > 0 then Revert
    else
      var a' := a.(jobs := a.jobs[id := a.jobs[id].(status := Cancelled)], entered := true);
      Pay(Emit(a', JobCancelled(id, a.jobs[id].user, balance)), a.jobs[id].user, balance)
  }

  function Submit(a: State, m: Msg, active: seq<Registry.Provider>, id: Id, price: nat): Step {
    if id !in a.jobs || !a.jobs[id].status.Open? || a.jobs[id].depositedAt + BID_WINDOW > MAX_UINT256
       || WindowClosed(a.jobs[id], m.now) || (id, m.sender) in a.hasBid
       || price > a.jobs[id].maxPricePerHour || !SufficientStake(active, m.sender)
    then Revert
    else
      var a' := a.(hasBid := a.hasBid + {(id, m.sender)}, bids := a.bids[id := BidsOf(a, id) + [Bid(m.sender, price, m.now)]]);
      Return(Emit(a', BidSubmitted(id, m.sender, price)))
  }

  /** _requireSufficientStake: the first listed entry for the wallet decides. */
  predicate SufficientStake(active: seq<Registry.Provider>, a: Address) {
    active != [] && if active[0].wallet == a then active[0].stakedAmount >= MIN_STAKE else SufficientStake(active[1..], a)
  }

  /** Wei per hour to wei per second, never zero. */
  function Rate(pricePerHour: nat): nat {
    if pricePerHour / 3600 == 0 then 1 else pricePerHour / 3600
  }

  function Close(a: State, m: Msg, id: Id, balance: nat): Step {
    if id !in a.jobs || !a.jobs[id].status.Open? || a.jobs[id].depositedAt + BID_WINDOW > MAX_UINT256
       || !WindowClosed(a.jobs[id], m.now)
    then Revert
    else if BidsOf(a, id) == [] then
      if a.fallbackProvider == Zero then Revert else
      var rate := Rate(a.jobs[id].maxPricePerHour);
      Award(Emit(Settle(a, id, a.fallbackProvider, rate), JobAwardedToFallback(id, a.fallbackProvider, rate)),
            id, a.fallbackProvider, rate, balance)
    else
      var w := Winner(BidsOf(a, id));
      var rate := Rate(w.pricePerHour);
      Award(Emit(Settle(a, id, w.provider, rate), JobAwarded(id, w.provider, w.pricePerHour, rate)),
            id, w.provider, rate, balance)
  }

  function Settle(a: State, id: Id, provider: Address, rate: nat): State
    requires id in a.jobs
  {
    a.(jobs := a.jobs[id := a.jobs[id].(status := Awarded, winningProvider := provider, winningRatePerSecond := rate)],
       entered := true)
  }

  function Exit(a: State): State {
    a.(entered := false)
  }

  /** closeAuction's comparison: lower price, then earlier submission. */
  predicate Beats(b: Bid, w: Bid) {
    b.pricePerHour < w.pricePerHour || (b.pricePerHour == w.pricePerHour && b.submittedAt < w.submittedAt)
  }

  /** The bid closeAuction's loop ends with. */
  function Winner(bids: seq<Bid>): Bid
    requires bids != []
  {
    if |bids| == 1 then bids[0]
    else
      var w := Winner(bids[..|bids| - 1]);
      var b := bids[|bids| - 1];
      if Beats(b, w) then b else w
  }

  /** The bid the view lowestBid ends with: price only. */
  function Lowest(bids: seq<Bid>): Bid
    requires bids != []
  {
    if |bids| == 1 then bids[0]
    else
      var w := Lowest(bids[..|bids| - 1]);
      var b := bids[|bids| - 1];
      if b.pricePerHour < w.pricePerHour then b else w
  }
}

/** JobAuction's bid book and its pooled deposits, replayed from the events alone. */
module AuctionSound {
  import opened Common
  import opened AuctionSpec
  import Registry = RegistrySpec
  import RegistrySound

  // ---- The winner ----

  /** The least index whose bid no other beats, by price and then time. */
  ghost predicate FirstBest(bids: seq<Bid>, i: nat) {
    && i < |bids|
    && (forall j | 0 <= j < |bids| :: !Beats(bids[j], bids[i]))
    && (forall j | 0 <= j < i :: Beats(bids[i], bids[j]))
  }

  lemma {:induction false} WinnerIsFirstBest(bids: seq<Bid>) returns (i: nat)
    requires bids != []
    ensures FirstBest(bids, i) && Winner(bids) == bids[i]
    decreases |bids|
  {
    if |bids| == 1 {
      i := 0;
    } else {
      var front := bids[..|bids| - 1];
      i := WinnerIsFirstBest(front);
      assert forall j | 0 <= j < |front| :: front[j] == bids[j];
      if Beats(bids[|bids| - 1], Winner(front)) {
        i := |bids| - 1;
      }
    }
  }

  lemma {:induction false} LowestIsFirstCheapest(bids: seq<Bid>) returns (i: nat)
    requires bids != []
    ensures i < |bids| && Lowest(bids) == bids[i]
    ensures forall j | 0 <= j < |bids| :: bids[i].pricePerHour <= bids[j].pricePerHour
    ensures forall j | 0 <= j < i :: bids[i].pricePerHour < bids[j].pricePerHour
    decreases |bids|
  {
    if |bids| == 1 {
      i := 0;
    } else {
      var front := bids[..|bids| - 1];
      i := LowestIsFirstCheapest(front);
      assert forall j | 0 <= j < |front| :: front[j] == bids[j];
      if bids[|bids| - 1].pricePerHour < Lowest(front).pricePerHour {
        i := |bids| - 1;
      }
    }
  }

  ghost predicate InTimeOrder(bids: seq<Bid>) {
    forall i, j | 0 <= i < j < |bids| :: bids[i].submittedAt <= bids[j].submittedAt
  }

  /** With times in order the tie-break never fires, so the settlement and the view name the same bid. */
  lemma WinnerIsLowest(bids: seq<Bid>)
    requires bids != [] && InTimeOrder(bids)
    ensures Winner(bids) == Lowest(bids)
  {
    var i := WinnerIsFirstBest(bids);
    var j := LowestIsFirstCheapest(bids);
    assert !Beats(bids[j], bids[i]);
    assert j < i ==> Beats(bids[i], bids[j]);
  }

  /** The rate never promises the provider more than the price, once the price is a wei a second or more. */
  lemma RateBounds(price: nat)
    ensures price >= 3600 ==> price - 3600 < 3600 * Rate(price) <= price
    ensures 3600 * Rate(price) <= price <==> price >= 3600
  {
  }

  // ---- The bid book ----

  ghost predicate BookOk(now: nat, a: State, id: Id) {
    var bids := BidsOf(a, id);
    if id !in a.jobs then bids == [] && forall p: Address :: (id, p) !in a.hasBid
    else
      var j := a.jobs[id];
      && j.depositedAt <= now
      && (forall i | 0 <= i < |bids| ::
            && bids[i].pricePerHour <= j.maxPricePerHour
            && j.depositedAt <= bids[i].submittedAt <= j.depositedAt + BID_WINDOW
            && bids[i].submittedAt <= now
            && (id, bids[i].provider) in a.hasBid)
      && InTimeOrder(bids)
      && (forall i, k | 0 <= i < k < |bids| :: bids[i].provider != bids[k].provider)
      && (forall p: Address | (id, p) in a.hasBid :: exists i :: 0 <= i < |bids| && bids[i].provider == p)
      && (j.status.Awarded? && bids != [] ==>
            j.winningProvider == Winner(bids).provider && j.winningRatePerSecond == Rate(Winner(bids).pricePerHour))
      && (j.status.Awarded? && bids == [] ==> j.winningRatePerSecond == Rate(j.maxPricePerHour))
  }

  // ---- Jobs and deposits, from the events ----

  /** Garbled marks a log no correct auction may write. */
  datatype Record =
    | NoJob
    | Garbled
    | Posted(user: Address, deposit: nat, ceiling: nat, deadline: nat)
    | Done(user: Address, deposit: nat, ceiling: nat, deadline: nat)

  ghost function Over(r: Record): Record
    requires r.Posted?
  {
    Done(r.user, r.deposit, r.ceiling, r.deadline)
  }

  /** One event. A job is posted once, with a deposit; settled once; at a price within its ceiling and the rate that goes
      with it; and cancelled for its own user. */
  ghost function PostRecord(r: Record, x: Event, id: Id): Record {
    match x
    case JobPosted(i, user, ceiling, _, _, _, deposit, deadline) =>
      if i != id then r else if r.NoJob? && deposit > 0 && deadline <= MAX_UINT256 then Posted(user, deposit, ceiling, deadline) else Garbled
    case JobAwarded(i, _, price, rate) =>
      if i != id then r else if r.Posted? && price <= r.ceiling && rate == Rate(price) then Over(r) else Garbled
    case JobAwardedToFallback(i, _, rate) =>
      if i != id then r else if r.Posted? && rate == Rate(r.ceiling) then Over(r) else Garbled
    case JobCancelled(i, user, _) => if i != id then r else if r.Posted? && user == r.user then Over(r) else Garbled
    case _ => r
  }

  ghost function RecordOf(events: seq<Event>, id: Id): Record {
    if events == [] then NoJob else PostRecord(RecordOf(events[..|events| - 1], id), events[|events| - 1], id)
  }

  lemma RecordAppend(events: seq<Event>, x: Event, id: Id)
    ensures RecordOf(events + [x], id) == PostRecord(RecordOf(events, id), x, id)
  {
    assert (events + [x])[..|events|] == events;
  }

  predicate Describes(r: Record, j: Job)
    requires r.Posted? || r.Done?
  {
    j.user == r.user && j.maxPricePerHour == r.ceiling && j.depositedAt + BID_WINDOW == r.deadline <= MAX_UINT256
  }

  ghost predicate RecordOk(a: State, id: Id) {
    var r := RecordOf(a.events, id);
    match r
    case NoJob => id !in a.jobs
    case Garbled => false
    case Posted(_, _, _, _) => id in a.jobs && a.jobs[id].status.Open? && Describes(r, a.jobs[id])
    case Done(_, _, _, _) => id in a.jobs && !a.jobs[id].status.Open? && Describes(r, a.jobs[id])
  }

  /** What a posted job's event announced stays true of it. */
  lemma {:induction false} PostedOnce(events: seq<Event>, x: Event)
    requires x in events && x.JobPosted? && !RecordOf(events, x.id).Garbled?
    ensures var r := RecordOf(events, x.id);
            (r.Posted? || r.Done?) && r.user == x.user && r.deposit == x.deposit
            && r.ceiling == x.maxPricePerHour && r.deadline == x.bidDeadline
    decreases |events|
  {
    var front, last := events[..|events| - 1], events[|events| - 1];
    if x in front {
      PostedOnce(front, x);
    }
  }

  /** Every price and rate announced at settlement respects the job's ceiling as the rounding allows. */
  lemma {:induction false} AwardRespectsRecord(events: seq<Event>, x: Event)
    requires x in events && (x.JobAwarded? || x.JobAwardedToFallback?) && !RecordOf(events, x.id).Garbled?
    ensures var r := RecordOf(events, x.id);
            r.Done? && if x.JobAwarded? then x.pricePerHour <= r.ceiling && x.ratePerSecond == Rate(x.pricePerHour)
                       else x.ratePerSecond == Rate(r.ceiling)
    decreases |events|
  {
    var front, last := events[..|events| - 1], events[|events| - 1];
    if x in front {
      AwardRespectsRecord(front, x);
    }
  }

  predicate Settles(x: Event) {
    x.JobAwarded? || x.JobAwardedToFallback? || x.JobCancelled?
  }

  /** The deposits posted since the last settlement, in order. */
  ghost function Pool(events: seq<Event>): seq<(Id, nat)> {
    if events == [] then []
    else
      var x := events[|events| - 1];
      if Settles(x) then []
      else if x.JobPosted? then Pool(events[..|events| - 1]) + [(x.id, x.deposit)]
      else Pool(events[..|events| - 1])
  }

  ghost function Total(pool: seq<(Id, nat)>): nat {
    if pool == [] then 0 else Total(pool[..|pool| - 1]) + pool[|pool| - 1].1
  }

  lemma PoolAppend(events: seq<Event>, x: Event)
    ensures Pool(events + [x]) ==
            if Settles(x) then [] else if x.JobPosted? then Pool(events) + [(x.id, x.deposit)] else Pool(events)
    ensures Total(Pool(events + [x])) ==
            if Settles(x) then 0 else if x.JobPosted? then Total(Pool(events)) + x.deposit else Total(Pool(events))
  {
    assert (events + [x])[..|events|] == events;
    if !Settles(x) && x.JobPosted? {
      var p := Pool(events) + [(x.id, x.deposit)];
      assert p[..|p| - 1] == Pool(events);
    }
  }

  ghost function Pooled(a: State): nat {
    Total(Pool(a.events))
  }

  // ---- How storage may change ----

  /** A job's terms never change, and once it is not open nothing of it does. */
  predicate SameJob(j: Job, j': Job) {
    && j' == j.(status := j'.status, winningProvider := j'.winningProvider, winningRatePerSecond := j'.winningRatePerSecond)
    && (j.status.Open? || j == j')
  }

  /** Bids are only added, and only while the job is open and its window has not closed. */
  ghost predicate Grows(now: nat, a: State, a': State) {
    && a.events <= a'.events && a.hasBid <= a'.hasBid
    && (forall id | id in a.jobs :: id in a'.jobs && SameJob(a.jobs[id], a'.jobs[id]))
    && (forall id :: BidsOf(a, id) <= BidsOf(a', id))
    && (forall id | id in a.jobs && (!a.jobs[id].status.Open? || WindowClosed(a.jobs[id], now)) :: BidsOf(a', id) == BidsOf(a, id))
  }

  ghost predicate Keeps(now: nat, a: State, a': State) {
    && (forall id :: BookOk(now, a, id) ==> BookOk(now, a', id))
    && (forall id :: BookOk(now, a, id) && RecordOk(a, id) ==> RecordOk(a', id))
  }

  /** While the guard is held no job is posted or settled. */
  ghost predicate Frozen(a: State, a': State) {
    a'.jobs == a.jobs && Pooled(a') == Pooled(a)
  }

  ghost predicate Booked(now: nat, a: State, funded: bool, balance: nat, step: Step) {
    match step
    case Revert => true
    case Return(a') =>
      Grows(now, a, a') && Keeps(now, a, a') && (funded ==> Pooled(a') == balance) && a'.entered == a.entered
    case Pay(a', _, amount) =>
      !a.entered && a'.entered && Grows(now, a, a') && Keeps(now, a, a') && amount == balance && Pooled(a') == 0
    case Award(a', _, _, _, deposit) =>
      !a.entered && a'.entered && Grows(now, a, a') && Keeps(now, a, a') && deposit == balance && Pooled(a') == 0
  }

  lemma GrowsTransitive(now: nat, a: State, b: State, c: State)
    requires Grows(now, a, b) && Grows(now, b, c)
    ensures Grows(now, a, c)
  {
    forall id
      ensures BidsOf(a, id) <= BidsOf(c, id)
    {
      assert BidsOf(a, id) <= BidsOf(b, id) && BidsOf(b, id) <= BidsOf(c, id);
    }
  }

  lemma PostKeepsOne(now: nat, a: State, a': State, x: Event, id: Id)
    requires x.JobPosted? && x.id !in a.jobs && x.deposit > 0 && x.bidDeadline == now + BID_WINDOW <= MAX_UINT256
    requires a'.jobs == a.jobs[x.id := Job(x.user, now, x.maxPricePerHour, x.ramMb, x.cpuCores, x.durationSeconds, Open, Zero, 0)]
    requires a'.bids == a.bids && a'.hasBid == a.hasBid && a'.events == a.events + [x]
    ensures BookOk(now, a, id) ==> BookOk(now, a', id)
    ensures RecordOk(a, id) ==> RecordOk(a', id)
  {
    RecordAppend(a.events, x, id);
  }

  lemma PostSound(a: State, m: Msg, balance: nat, c: Call)
    requires c.PostJob?
    ensures Booked(m.now, a, balance == Pooled(a) + m.value, balance,
                      Post(a, m, c.id, c.maxPricePerHour, c.ramMb, c.cpuCores, c.durationSeconds))
  {
    match Post(a, m, c.id, c.maxPricePerHour, c.ramMb, c.cpuCores, c.durationSeconds)
    case Return(a') =>
      var x := JobPosted(c.id, m.sender, c.maxPricePerHour, c.ramMb, c.cpuCores, c.durationSeconds, m.value, m.now + BID_WINDOW);
      PoolAppend(a.events, x);
      forall id
        ensures (BookOk(m.now, a, id) ==> BookOk(m.now, a', id)) && (RecordOk(a, id) ==> RecordOk(a', id))
      {
        PostKeepsOne(m.now, a, a', x, id);
      }
    case _ =>
  }

  /** A job leaves Open; nothing else changes but the guard. */
  lemma SettleSound(now: nat, a: State, a': State, x: Event, id: Id)
    requires id in a.jobs && a.jobs[id].status.Open? && Settles(x) && x.id == id
    requires x.JobCancelled? ==> x.user == a.jobs[id].user
    requires x.JobAwarded? ==> x.ratePerSecond == Rate(x.pricePerHour)
    requires x.JobAwarded? && BookOk(now, a, id) ==> x.pricePerHour <= a.jobs[id].maxPricePerHour
    requires x.JobAwardedToFallback? ==> x.ratePerSecond == Rate(a.jobs[id].maxPricePerHour)
    requires a' == a.(jobs := a'.jobs, entered := true, events := a.events + [x])
    requires id in a'.jobs && a'.jobs == a.jobs[id := a'.jobs[id]] && SameJob(a.jobs[id], a'.jobs[id]) && !a'.jobs[id].status.Open?
    requires BookOk(now, a, id) ==> BookOk(now, a', id)
    ensures Grows(now, a, a') && Keeps(now, a, a') && Pooled(a') == 0
  {
    PoolAppend(a.events, x);
    forall i
      ensures BookOk(now, a, i) ==> BookOk(now, a', i)
      ensures BookOk(now, a, i) && RecordOk(a, i) ==> RecordOk(a', i)
    {
      RecordAppend(a.events, x, i);
    }
  }

  lemma CancelSound(a: State, m: Msg, id: Id, balance: nat)
    requires !a.entered
    ensures Booked(m.now, a, true, balance, Cancel(a, m, id, balance))
  {
    match Cancel(a, m, id, balance)
    case Pay(a', _, _) => SettleSound(m.now, a, a', JobCancelled(id, a.jobs[id].user, balance), id);
    case _ =>
  }

  lemma CloseSound(a: State, m: Msg, id: Id, balance: nat)
    requires !a.entered
    ensures Booked(m.now, a, true, balance, Close(a, m, id, balance))
  {
    match Close(a, m, id, balance)
    case Award(a', _, _, _, _) =>
      if BidsOf(a, id) != [] {
        var _ := WinnerIsFirstBest(BidsOf(a, id));
      }
      SettleSound(m.now, a, a', a'.events[|a.events|], id);
    case _ =>
  }

  lemma BidKeepsBook(a: State, a': State, m: Msg, id: Id, price: nat)
    requires BookOk(m.now, a, id) && id in a.jobs && a.jobs[id].status.Open? && !WindowClosed(a.jobs[id], m.now)
    requires (id, m.sender) !in a.hasBid && price <= a.jobs[id].maxPricePerHour
    requires a'.jobs == a.jobs && a'.hasBid == a.hasBid + {(id, m.sender)}
    requires BidsOf(a', id) == BidsOf(a, id) + [Bid(m.sender, price, m.now)]
    ensures BookOk(m.now, a', id)
  {
    var old', new' := BidsOf(a, id), BidsOf(a', id);
    forall p: Address | (id, p) in a'.hasBid
      ensures exists i :: 0 <= i < |new'| && new'[i].provider == p
    {
      if p == m.sender {
        assert new'[|old'|].provider == p;
      } else {
        var i :| 0 <= i < |old'| && old'[i].provider == p;
        assert new'[i].provider == p;
      }
    }
  }

  lemma SubmitSound(a: State, m: Msg, balance: nat, active: seq<Registry.Provider>, id: Id, price: nat)
    requires m.value == 0
    ensures Booked(m.now, a, balance == Pooled(a), balance, Submit(a, m, active, id, price))
    ensures Submit(a, m, active, id, price).Return? ==> Frozen(a, Submit(a, m, active, id, price).a)
    ensures !Submit(a, m, active, id, price).Pay? && !Submit(a, m, active, id, price).Award?
  {
    match Submit(a, m, active, id, price)
    case Return(a') =>
      var x := BidSubmitted(id, m.sender, price);
      PoolAppend(a.events, x);
      forall i
        ensures BookOk(m.now, a, i) ==> BookOk(m.now, a', i)
        ensures RecordOk(a, i) ==> RecordOk(a', i)
      {
        RecordAppend(a.events, x, i);
        if i == id && BookOk(m.now, a, i) {
          BidKeepsBook(a, a', m, id, price);
        }
      }
    case _ =>
  }

  lemma SettingsSound(now: nat, a: State, a': State, balance: nat, x: Event)
    requires a' == a.(fallbackProvider := a'.fallbackProvider, owner := a'.owner, events := a'.events)
    requires a'.events == a.events || (x.FallbackProviderUpdated? && a'.events == a.events + [x])
    ensures Booked(now, a, balance == Pooled(a), balance, Return(a')) && Frozen(a, a')
  {
    PoolAppend(a.events, x);
    forall id
      ensures BookOk(now, a, id) ==> BookOk(now, a', id)
      ensures RecordOk(a, id) ==> RecordOk(a', id)
    {
      RecordAppend(a.events, x, id);
    }
  }

  lemma BeginBooked(a: State, m: Msg, balance: nat, active: seq<Registry.Provider>, c: Call)
    ensures Booked(m.now, a, balance == Pooled(a) + m.value, balance, Begin(a, m, balance, active, c))
    ensures a.entered && Begin(a, m, balance, active, c).Return? ==> Frozen(a, Begin(a, m, balance, active, c).a) && m.value == 0
  {
    match c
    case PostJob(_, _, _, _, _) => PostSound(a, m, balance, c);
    case CancelJob(id) => if !a.entered { CancelSound(a, m, id, balance); }
    case CloseAuction(id) => if !a.entered { CloseSound(a, m, id, balance); }
    case SubmitBid(id, price) => if m.value == 0 { SubmitSound(a, m, balance, active, id, price); }
    case SetFallbackProvider(f) =>
      if Begin(a, m, balance, active, c).Return? {
        SettingsSound(m.now, a, Begin(a, m, balance, active, c).a, balance, FallbackProviderUpdated(f));
      }
    case _ =>
      if Begin(a, m, balance, active, c).Return? {
        SettingsSound(m.now, a, Begin(a, m, balance, active, c).a, balance, FallbackProviderUpdated(Zero));
      }
  }

  // ---- Who is paid, and who is awarded ----

  /** The payment an event announces after the events before it: a refund goes to the user, an award to the escrow, and
      takes the pool. */
  ghost function Announced(before: seq<Event>, x: Event): seq<Payout> {
    match x
    case JobCancelled(_, user, refunded) => Payment(user, refunded)
    case JobAwarded(_, _, _, _) => Payment(EscrowContract, Total(Pool(before)))
    case JobAwardedToFallback(_, _, _) => Payment(EscrowContract, Total(Pool(before)))
    case _ => []
  }

  ghost function Named(events: seq<Event>): seq<Payout> {
    if events == [] then []
    else Named(events[..|events| - 1]) + Announced(events[..|events| - 1], events[|events| - 1])
  }

  lemma NamedAppend(events: seq<Event>, x: Event)
    ensures Named(events + [x]) == Named(events) + Announced(events, x)
    ensures Named(events) + [] == Named(events)
  {
    assert (events + [x])[..|events|] == events;
  }

  /** No job is awarded between the two, save perhaps one. */
  ghost predicate OnlyAwarded(a: State, a': State, id: Option<Id>) {
    forall i | i in a'.jobs && a'.jobs[i].status.Awarded? && id != Some(i) :: i in a.jobs && a.jobs[i] == a'.jobs[i]
  }

  /** A step pays exactly whom its events name, and an award hands over the terms the job is awarded on. */
  ghost predicate Addressed(a: State, funded: bool, step: Step) {
    match step
    case Revert => true
    case Return(a') => Named(a'.events) == Named(a.events) && OnlyAwarded(a, a', None)
    case Pay(a', to, amount) => Named(a'.events) == Named(a.events) + Payment(to, amount) && OnlyAwarded(a, a', None)
    case Award(a', id, provider, rate, deposit) =>
      && (funded ==> Named(a'.events) == Named(a.events) + Payment(EscrowContract, deposit))
      && OnlyAwarded(a, a', Some(id))
      && id in a'.jobs && a'.jobs[id].status.Awarded?
      && a'.jobs[id].winningProvider == provider && a'.jobs[id].winningRatePerSecond == rate
  }

  lemma CancelAddressed(a: State, m: Msg, id: Id, balance: nat)
    ensures Addressed(a, balance == Pooled(a), Cancel(a, m, id, balance))
  {
    match Cancel(a, m, id, balance)
    case Pay(a', _, _) => NamedAppend(a.events, JobCancelled(id, a.jobs[id].user, balance));
    case _ =>
  }

  lemma CloseAddressed(a: State, m: Msg, id: Id, balance: nat)
    ensures Addressed(a, balance == Pooled(a), Close(a, m, id, balance))
  {
    match Close(a, m, id, balance)
    case Award(a', _, _, _, _) => NamedAppend(a.events, a'.events[|a.events|]);
    case _ =>
  }

  lemma PaysNobody(a: State, a': State)
    requires a.events <= a'.events && |a'.events| <= |a.events| + 1
    requires a'.events != a.events ==> !Settles(a'.events[|a.events|])
    requires OnlyAwarded(a, a', None)
    ensures Addressed(a, true, Return(a')) && Addressed(a, false, Return(a'))
  {
    if a'.events != a.events {
      assert a'.events == a.events + [a'.events[|a.events|]];
      NamedAppend(a.events, a'.events[|a.events|]);
    }
  }

  lemma SubmitAddressed(a: State, m: Msg, active: seq<Registry.Provider>, id: Id, price: nat)
    ensures Addressed(a, true, Submit(a, m, active, id, price)) && Addressed(a, false, Submit(a, m, active, id, price))
  {
    match Submit(a, m, active, id, price)
    case Return(a') => PaysNobody(a, a');
    case _ =>
  }

  lemma BeginAddressed(a: State, m: Msg, balance: nat, active: seq<Registry.Provider>, c: Call)
    ensures Addressed(a, balance == Pooled(a) + m.value, Begin(a, m, balance, active, c))
  {
    if c.CancelJob? {
      CancelAddressed(a, m, c.id, balance);
    } else if c.CloseAuction? {
      CloseAddressed(a, m, c.id, balance);
    } else if c.SubmitBid? {
      SubmitAddressed(a, m, active, c.id, c.pricePerHour);
    } else if Begin(a, m, balance, active, c).Return? {
      PaysNobody(a, Begin(a, m, balance, active, c).a);
    }
  }

  /** The books are kept, and the money and the awards go to whom the events name. */
  ghost predicate StepSound(now: nat, a: State, funded: bool, balance: nat, step: Step) {
    Booked(now, a, funded, balance, step) && Addressed(a, funded, step)
  }

  lemma BeginSound(a: State, m: Msg, balance: nat, active: seq<Registry.Provider>, c: Call)
    ensures StepSound(m.now, a, balance == Pooled(a) + m.value, balance, Begin(a, m, balance, active, c))
    ensures a.entered && Begin(a, m, balance, active, c).Return? ==> Frozen(a, Begin(a, m, balance, active, c).a) && m.value == 0
  {
    BeginBooked(a, m, balance, active, c);
    BeginAddressed(a, m, balance, active, c);
  }

  lemma ExitSound(now: nat, a: State)
    ensures Grows(now, a, Exit(a)) && Keeps(now, a, Exit(a)) && Pooled(Exit(a)) == Pooled(a)
  {
    forall id
      ensures BookOk(now, a, id) ==> BookOk(now, Exit(a), id)
      ensures RecordOk(a, id) ==> RecordOk(Exit(a), id)
    {
    }
  }

  // ---- The stake check ----

  lemma {:induction false} ActiveAmongMembers(r: Registry.State, list: seq<Address>)
    requires forall a | a in list :: a in r.providers && r.providers[a].wallet == a
    ensures forall p | p in Registry.ActiveAmong(r, list) ::
              p.wallet in list && p.wallet in r.providers && p == r.providers[p.wallet] && p.active
    ensures forall a | a in list && r.providers[a].active :: r.providers[a] in Registry.ActiveAmong(r, list)
    decreases |list|
  {
    if list != [] {
      ActiveAmongMembers(r, list[..|list| - 1]);
    }
  }

  lemma {:induction false} ScanFinds(active: seq<Registry.Provider>, a: Address)
    requires forall p | p in active :: p.stakedAmount >= MIN_STAKE
    ensures SufficientStake(active, a) <==> exists p | p in active :: p.wallet == a
    decreases |active|
  {
    if active != [] && active[0].wallet != a {
      ScanFinds(active[1..], a);
      assert forall p :: p in active <==> p == active[0] || p in active[1..];
    } else if active != [] {
      assert active[0] in active;
    }
  }

  /** Scanning the active list succeeds exactly for the providers whose own record is active. */
  lemma ScanEqualsLookup(r: Registry.State, a: Address)
    requires RegistrySound.RegistryOk(r)
    ensures SufficientStake(Registry.ActiveAmong(r, r.providerList), a) <==> a in r.providers && r.providers[a].active
  {
    ActiveAmongMembers(r, r.providerList);
    ScanFinds(Registry.ActiveAmong(r, r.providerList), a);
  }

  // ---- Whose deposit does a settlement move? ----

  /** No job was ever posted while another was open. */
  ghost predicate NoOverlap(events: seq<Event>) {
    events != [] ==>
      var front, x := events[..|events| - 1], events[|events| - 1];
      NoOverlap(front) && (x.JobPosted? ==> forall id :: !RecordOf(front, id).Posted?)
  }

  ghost predicate NoneGarbled(events: seq<Event>) {
    forall id :: !RecordOf(events, id).Garbled?
  }

  lemma GarbledStays(events: seq<Event>, x: Event)
    requires NoneGarbled(events + [x])
    ensures NoneGarbled(events)
  {
    forall id
      ensures !RecordOf(events, id).Garbled?
    {
      RecordAppend(events, x, id);
      assert !RecordOf(events + [x], id).Garbled?;
    }
  }

  /** The pool is exactly the one open job's deposit. */
  ghost predicate PoolIsOpenJob(events: seq<Event>) {
    && (forall id: Id | RecordOf(events, id).Posted? :: Pool(events) == [(id, RecordOf(events, id).deposit)])
    && ((forall id: Id :: !RecordOf(events, id).Posted?) ==> Pool(events) == [])
  }

  lemma {:induction false} WithoutOverlap(events: seq<Event>)
    requires NoOverlap(events) && NoneGarbled(events)
    ensures PoolIsOpenJob(events)
    decreases |events|
  {
    if events != [] {
      var front, x := events[..|events| - 1], events[|events| - 1];
      assert events == front + [x];
      GarbledStays(front, x);
      WithoutOverlap(front);
      PoolAppend(front, x);
      forall id
        ensures RecordOf(events, id) == PostRecord(RecordOf(front, id), x, id) && !RecordOf(events, id).Garbled?
      {
        RecordAppend(front, x, id);
      }
      OneStep(front, x);
    }
  }

  lemma OneStep(front: seq<Event>, x: Event)
    requires PoolIsOpenJob(front) && (x.JobPosted? ==> forall id :: !RecordOf(front, id).Posted?)
    requires forall id :: RecordOf(front + [x], id) == PostRecord(RecordOf(front, id), x, id) && !RecordOf(front + [x], id).Garbled?
    ensures PoolIsOpenJob(front + [x])
  {
    PoolAppend(front, x);
    var events := front + [x];
    if x.JobPosted? {
      assert Pool(front) == [];
      assert RecordOf(events, x.id).Posted?;
    } else if Settles(x) {
      assert Pool(front) == [(x.id, RecordOf(front, x.id).deposit)];
      forall id: Id
        ensures !RecordOf(events, id).Posted?
      {
        assert RecordOf(front, id).Posted? ==> Pool(front)[0].0 == id;
      }
    } else {
      assert forall id :: RecordOf(events, id) == RecordOf(front, id);
    }
  }

  /** Every pooled deposit was posted with a positive value. */
  lemma {:induction false} PoolPositive(events: seq<Event>)
    requires NoneGarbled(events)
    ensures forall d | d in Pool(events) :: d.1 > 0
    ensures Pool(events) != [] ==> Total(Pool(events)) > 0
    decreases |events|
  {
    if events != [] {
      var front, x := events[..|events| - 1], events[|events| - 1];
      assert events == front + [x];
      GarbledStays(front, x);
      PoolPositive(front);
      PoolAppend(front, x);
      if x.JobPosted? {
        RecordAppend(front, x, x.id);
        assert !RecordOf(events, x.id).Garbled?;
      }
    }
  }

  /** The pool holds at least each of its deposits, and just that deposit exactly when it is alone. */
  lemma {:induction false} AloneInPool(events: seq<Event>, id: Id, d: nat)
    requires NoneGarbled(events) && (id, d) in Pool(events)
    ensures Total(Pool(events)) >= d && (Total(Pool(events)) == d <==> Pool(events) == [(id, d)])
    decreases |events|
  {
    var front, x := events[..|events| - 1], events[|events| - 1];
    assert events == front + [x];
    PoolAppend(front, x);
    GarbledStays(front, x);
    PoolPositive(front);
    PoolPositive(events);
    if x.JobPosted? {
      assert (x.id, x.deposit) in Pool(events);
      if (id, d) in Pool(front) {
        AloneInPool(front, id, d);
      }
    } else {
      AloneInPool(front, id, d);
    }
  }
}
