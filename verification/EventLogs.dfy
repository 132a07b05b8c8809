/** The auction's events as they come over the wire, and the off-chain decoders. */
module EventLogs {
  import opened Common
  import opened Hex

  // ---- Bytes and words ----

  ghost function Pow256(k: nat): nat {
    if k == 0 then 1 else 256 * Pow256(k - 1)
  }

  /** The big-endian number. */
  function Number(b: seq<Byte>): nat {
    if b == [] then 0 else 256 * Number(b[..|b| - 1]) + b[|b| - 1]
  }

  /** The low k bytes, big-endian. */
  function BytesOf(n: nat, k: nat): (b: seq<Byte>)
    ensures |b| == k
  {
    if k == 0 then [] else BytesOf(n / 256, k - 1) + [n % 256]
  }

  lemma {:induction false} NumberOfBytes(n: nat, k: nat)
    requires n < Pow256(k)
    ensures Number(BytesOf(n, k)) == n
    decreases k
  {
    if k > 0 {
      var b := BytesOf(n, k);
      assert b[..|b| - 1] == BytesOf(n / 256, k - 1);
      NumberOfBytes(n / 256, k - 1);
    }
  }

  function Word(n: nat): seq<Byte> {
    BytesOf(n, 32)
  }

  lemma WordRange()
    ensures Pow256(32) == MAX_UINT256 + 1
  {
    assert Pow256(8) == 0x1_0000_0000_0000_0000;
    assert Pow256(16) == 0x1_0000_0000_0000_0000 * 0x1_0000_0000_0000_0000;
    assert Pow256(24) == 0x1_0000_0000_0000_0000 * 0x1_0000_0000_0000_0000 * 0x1_0000_0000_0000_0000;
  }

  lemma NumberOfWord(n: nat)
    requires n <= MAX_UINT256
    ensures Number(Word(n)) == n
  {
    WordRange();
    NumberOfBytes(n, 32);
  }

  /** hex.DecodeString: the bytes up to the first bad pair, and whether there was none. */
  function DecodeHex(s: string): (seq<Byte>, bool) {
    if s == "" then ([], true)
    else if |s| == 1 || HexValue(s[0]) == 16 || HexValue(s[1]) == 16 then ([], false)
    else
      var (rest, ok) := DecodeHex(s[2..]);
      ([16 * HexValue(s[0]) + HexValue(s[1])] + rest, ok)
  }

  lemma DecodePair(b: Byte, rest: string)
    ensures DecodeHex([HexDigit(b / 16), HexDigit(b % 16)] + rest) == ([b] + DecodeHex(rest).0, DecodeHex(rest).1)
  {
    DigitRoundTrip(b / 16);
    DigitRoundTrip(b % 16);
    var s := [HexDigit(b / 16), HexDigit(b % 16)] + rest;
    assert s[2..] == rest && 16 * HexValue(s[0]) + HexValue(s[1]) == b;
  }

  lemma {:induction false} DecodePrinted(b: seq<Byte>)
    ensures DecodeHex(Print(b)) == (b, true)
    decreases |b|
  {
    if b != [] {
      DecodePrinted(b[1..]);
      DecodePair(b[0], Print(b[1..]));
      assert [b[0]] + b[1..] == b;
    }
  }

  function Trim0x(s: string): string {
    if |s| >= 2 && s[0] == '0' && s[1] == 'x' then s[2..] else s
  }

  lemma TrimPrinted(b: seq<Byte>)
    ensures Trim0x("0x" + Print(b)) == Print(b)
  {
  }

  // ---- Slots ----

  /** The 32-byte slot as a number, 0 when the data is too short. */
  function ReadSlot(data: seq<Byte>, slot: nat): nat {
    if |data| < 32 * slot + 32 then 0 else Number(data[32 * slot..32 * slot + 32])
  }

  function Words(ns: seq<nat>): (b: seq<Byte>)
    ensures |b| == 32 * |ns|
  {
    if ns == [] then [] else Word(ns[0]) + Words(ns[1..])
  }

  lemma {:induction false} SlotOfWords(ns: seq<nat>, slot: nat)
    requires slot < |ns| && ns[slot] <= MAX_UINT256
    ensures ReadSlot(Words(ns), slot) == ns[slot]
    decreases slot
  {
    var data := Words(ns);
    if slot == 0 {
      assert data[0..32] == Word(ns[0]);
      NumberOfWord(ns[0]);
    } else {
      SlotOfWords(ns[1..], slot - 1);
      assert data[32 * slot..32 * slot + 32] == Words(ns[1..])[32 * (slot - 1)..32 * (slot - 1) + 32];
    }
  }

  /** HexToAddress: the last 20 bytes of whatever decodes, as a number. */
  function HexToAddress(s: string): nat {
    var t := if |s| >= 2 && s[0] == '0' && (s[1] == 'x' || s[1] == 'X') then s[2..] else s;
    var b := DecodeHex(if |t| % 2 == 1 then "0" + t else t).0;
    Number(if |b| > 20 then b[|b| - 20..] else b)
  }

  lemma {:induction false} LowBytes(n: nat, k: nat, m: nat)
    requires m <= k
    ensures BytesOf(n, k)[k - m..] == BytesOf(n, m)
    decreases m
  {
    if m > 0 {
      LowBytes(n / 256, k - 1, m - 1);
      assert BytesOf(n, k)[k - m..] == BytesOf(n / 256, k - 1)[(k - 1) - (m - 1)..] + [n % 256];
    }
  }

  lemma AddressOfWord(n: nat)
    requires n < Pow256(20)
    ensures HexToAddress("0x" + Print(Word(n))) == n
  {
    var s := "0x" + Print(Word(n));
    assert s[2..] == Print(Word(n)) && |s[2..]| % 2 == 0;
    DecodePrinted(Word(n));
    LowBytes(n, 32, 20);
    NumberOfBytes(n, 20);
  }

  // ---- Logs ----

  /** One entry of eth_getLogs; block is None when its text is no hexadecimal number. */
  datatype RawLog = RawLog(block: Option<nat>, topics: seq<string>, data: string)

  const UINT64: nat := 0x1_0000_0000_0000_0000

  function Uint64(n: nat): nat {
    n % UINT64
  }

  /** Panics: the block number is read through a nil pointer. */
  datatype Decoding<+T> = Decoded(value: T) | Undecodable | Panics

  datatype Posting = Posting(
    jobId: Id, user: nat, maxPricePerHour: nat, ramMb: nat, cpuCores: nat, durationSeconds: nat,
    bidDeadline: nat, blockNumber: nat)

  datatype Awarding = Awarding(winner: nat, pricePerHour: nat, ratePerSecond: nat, isFallback: bool)

  function DecodePosted(l: RawLog): Decoding<Posting> {
    if |l.topics| < 2 then Undecodable else
    var (id, idOk) := DecodeHex(Trim0x(l.topics[1]));
    if !idOk || |id| != 32 then Undecodable else
    var (data, dataOk) := DecodeHex(Trim0x(l.data));
    if !dataOk then Undecodable
    else if l.block.None? then Panics
    else Decoded(Posting(Number(id), if |l.topics| >= 3 then HexToAddress(l.topics[2]) else 0,
                         ReadSlot(data, 0), ReadSlot(data, 1), ReadSlot(data, 2), ReadSlot(data, 3),
                         ReadSlot(data, 5), Uint64(l.block.value)))
  }

  /** A log that says which job it is about, in data that decodes. */
  predicate Legible(l: RawLog) {
    |l.topics| >= 2 && DecodeHex(Trim0x(l.data)).1
    && DecodeHex(Trim0x(l.topics[1])).1 && |DecodeHex(Trim0x(l.topics[1])).0| == 32
  }

  function Lower(c: char): char {
    if 'A' <= c <= 'Z' then (c as int - 'A' as int + 'a' as int) as char else c
  }

  predicate EqualFold(s: string, t: string) {
    |s| == |t| && forall i | 0 <= i < |s| :: Lower(s[i]) == Lower(t[i])
  }

  /** Data that does not decode reads as zeros here. A fallback award carries the rate only. */
  function DecodeAwarded(l: RawLog, fallbackTopic: Digest): Decoding<Awarding> {
    if |l.topics| < 3 then Undecodable else
    var (bytes, ok) := DecodeHex(Trim0x(l.data));
    var data := if ok then bytes else [];
    if EqualFold(l.topics[0], "0x" + Print(fallbackTopic)) then
      Decoded(Awarding(HexToAddress(l.topics[2]), ReadSlot(data, 0) * 3600, ReadSlot(data, 0), true))
    else
      Decoded(Awarding(HexToAddress(l.topics[2]), ReadSlot(data, 0), ReadSlot(data, 1), false))
  }

  // ---- What the contract puts on the wire ----

  /** An event with two indexed arguments after its topic, and the rest as data. */
  function Wire(block: nat, topic: Digest, id: nat, address: nat, rest: seq<nat>): RawLog {
    RawLog(Some(block), ["0x" + Print(topic), "0x" + Print(Word(id)), "0x" + Print(Word(address))], "0x" + Print(Words(rest)))
  }

  predicate Fits(ns: seq<nat>) {
    forall n | n in ns :: n <= MAX_UINT256
  }

  lemma HexReads(b: seq<Byte>)
    ensures DecodeHex(Trim0x("0x" + Print(b))) == (b, true)
  {
    TrimPrinted(b);
    DecodePrinted(b);
  }

  lemma WordsRead(rest: seq<nat>)
    requires Fits(rest)
    ensures forall i | 0 <= i < |rest| :: ReadSlot(Words(rest), i) == rest[i]
  {
    forall i | 0 <= i < |rest|
      ensures ReadSlot(Words(rest), i) == rest[i]
    {
      assert rest[i] in rest;
      SlotOfWords(rest, i);
    }
  }

  /** A posted job comes back field by field; slot 4, the deposit, is dropped. */
  lemma PostedRoundTrip(block: nat, topic: Digest, id: nat, user: nat, rest: seq<nat>)
    requires id <= MAX_UINT256 && user < Pow256(20) && |rest| == 6 && Fits(rest)
    ensures DecodePosted(Wire(block, topic, id, user, rest))
            == Decoded(Posting(id, user, rest[0], rest[1], rest[2], rest[3], rest[5], Uint64(block)))
  {
    HexReads(Word(id));
    NumberOfWord(id);
    AddressOfWord(user);
    HexReads(Words(rest));
    WordsRead(rest);
  }

  lemma {:induction false} PrintedLower(b: seq<Byte>, i: nat)
    requires i < |Print(b)|
    ensures Lower(Print(b)[i]) == Print(b)[i]
    decreases |b|
  {
    if i >= 2 {
      PrintedLower(b[1..], i - 2);
    }
  }

  /** Topics are told apart whatever their letter case. */
  lemma TopicsDiffer(a: Digest, b: Digest)
    ensures EqualFold("0x" + Print(a), "0x" + Print(b)) <==> a == b
  {
    if EqualFold("0x" + Print(a), "0x" + Print(b)) {
      forall i | 0 <= i < |Print(a)|
        ensures Print(a)[i] == Print(b)[i]
      {
        assert ("0x" + Print(a))[i + 2] == Print(a)[i] && ("0x" + Print(b))[i + 2] == Print(b)[i];
        PrintedLower(a, i);
        PrintedLower(b, i);
      }
      assert Print(a) == Print(b);
      ParsePrinted(a);
      ParsePrinted(b);
    }
  }

  lemma AwardedRoundTrip(block: nat, topic: Digest, fallbackTopic: Digest, id: nat, winner: nat, price: nat, rate: nat)
    requires id <= MAX_UINT256 && winner < Pow256(20) && price <= MAX_UINT256 && rate <= MAX_UINT256 && topic != fallbackTopic
    ensures DecodeAwarded(Wire(block, topic, id, winner, [price, rate]), fallbackTopic)
            == Decoded(Awarding(winner, price, rate, false))
  {
    TopicsDiffer(topic, fallbackTopic);
    AddressOfWord(winner);
    HexReads(Words([price, rate]));
    WordsRead([price, rate]);
  }

  lemma FallbackRoundTrip(block: nat, fallbackTopic: Digest, id: nat, winner: nat, rate: nat)
    requires id <= MAX_UINT256 && winner < Pow256(20) && rate <= MAX_UINT256
    ensures DecodeAwarded(Wire(block, fallbackTopic, id, winner, [rate]), fallbackTopic)
            == Decoded(Awarding(winner, rate * 3600, rate, true))
  {
    TopicsDiffer(fallbackTopic, fallbackTopic);
    AddressOfWord(winner);
    HexReads(Words([rate]));
    WordsRead([rate]);
  }
}

/** Polling with a block cursor. */
module Cursor {
  import opened Common
  import opened EventLogs
  import Hex

  /** What a poll returns; next is the cursor for the following poll. */
  datatype PollResult = Polled(events: seq<Posting>, next: nat) | PollFailed(next: nat) | Crashed

  /** The highest block seen, at least the cursor. */
  function Highest(from: nat, logs: seq<RawLog>): nat {
    if logs == [] then from
    else
      var h, l := Highest(from, logs[..|logs| - 1]), logs[|logs| - 1];
      if l.block.Some? && Uint64(l.block.value) > h then Uint64(l.block.value) else h
  }

  /** The postings among the logs, in order; logs that do not decode are passed over. */
  function Postings(logs: seq<RawLog>): seq<Posting> {
    if logs == [] then []
    else
      var front, d := Postings(logs[..|logs| - 1]), DecodePosted(logs[|logs| - 1]);
      if d.Decoded? then front + [d.value] else front
  }

  predicate Crashes(logs: seq<RawLog>) {
    exists k :: 0 <= k < |logs| && DecodePosted(logs[k]).Panics?
  }

  /** PollJobPostedEvents, from the cursor and the node's answer, None for a failed call. */
  function Poll(from: nat, answer: Option<seq<RawLog>>): PollResult {
    if answer.None? then PollFailed(from)
    else if Crashes(answer.value) then Crashed
    else
      var h := Highest(from, answer.value);
      Polled(Postings(answer.value), if h > from then Uint64(h + 1) else h)
  }

  /** The poller crashes exactly on an answer with a legible log whose block number cannot be read. */
  lemma CrashesExactly(from: nat, answer: Option<seq<RawLog>>)
    ensures Poll(from, answer).Crashed? <==> answer.Some? && exists l :: l in answer.value && l.block.None? && Legible(l)
  {
    if answer.Some? {
      var logs := answer.value;
      if Crashes(logs) {
        var k :| 0 <= k < |logs| && DecodePosted(logs[k]).Panics?;
        assert logs[k] in logs && logs[k].block.None? && Legible(logs[k]);
      }
    }
  }

  /** Any posting of the contract's does it, anywhere in an answer, when its block number has been lost on the way. */
  lemma LostBlockCrashes(from: nat, before: seq<RawLog>, after: seq<RawLog>, topic: Hex.Digest, id: nat, user: nat, rest: seq<nat>)
    ensures Poll(from, Some(before + [Wire(0, topic, id, user, rest).(block := None)] + after)).Crashed?
  {
    var l := Wire(0, topic, id, user, rest).(block := None);
    HexReads(Word(id));
    HexReads(Words(rest));
    assert (before + [l] + after)[|before|] == l;
  }

  lemma OneMoreLog(from: nat, logs: seq<RawLog>, i: nat)
    requires i < |logs|
    ensures var l, h := logs[i], Highest(from, logs[..i]);
            Highest(from, logs[..i + 1]) == if l.block.Some? && Uint64(l.block.value) > h then Uint64(l.block.value) else h
    ensures Postings(logs[..i + 1]) ==
            Postings(logs[..i]) + if DecodePosted(logs[i]).Decoded? then [DecodePosted(logs[i]).value] else []
  {
    assert logs[..i + 1][..i] == logs[..i];
  }

  method PollJobPostedEvents(fromBlock: nat, answer: Option<seq<RawLog>>) returns (r: PollResult)
    ensures r == Poll(fromBlock, answer)
  {
    if answer.None? {
      return PollFailed(fromBlock);
    }
    var logs := answer.value;
    var events := [];
    var maxBlock := fromBlock;
    for i := 0 to |logs|
      invariant events == Postings(logs[..i]) && maxBlock == Highest(fromBlock, logs[..i])
      invariant forall k | 0 <= k < i :: !DecodePosted(logs[k]).Panics?
    {
      OneMoreLog(fromBlock, logs, i);
      var l := logs[i];
      if l.block.Some? && Uint64(l.block.value) > maxBlock {
        maxBlock := Uint64(l.block.value);
      }
      var d := DecodePosted(l);
      if d.Panics? {
        return Crashed;
      }
      if d.Decoded? {
        events := events + [d.value];
      }
    }
    assert logs[..|logs|] == logs;
    if maxBlock > fromBlock {
      maxBlock := Uint64(maxBlock + 1);
    }
    r := Polled(events, maxBlock);
  }

  lemma {:induction false} HighestIsHighest(from: nat, logs: seq<RawLog>)
    ensures Highest(from, logs) >= from
    ensures forall l | l in logs && l.block.Some? :: Uint64(l.block.value) <= Highest(from, logs)
    ensures Highest(from, logs) == from || exists l :: l in logs && l.block.Some? && Uint64(l.block.value) == Highest(from, logs)
    decreases |logs|
  {
    if logs != [] {
      var front, l := logs[..|logs| - 1], logs[|logs| - 1];
      HighestIsHighest(from, front);
      assert logs == front + [l];
    }
  }

  /** Whatever a node answers, the cursor goes back only when it is shown the last 64-bit block number, and then to 0. */
  lemma NextNeverBack(from: nat, answer: Option<seq<RawLog>>)
    requires from < UINT64 && Poll(from, answer) != Crashed
    ensures Poll(from, answer).next < from <==>
              0 < from < UINT64 - 1 && answer.Some?
              && exists l :: l in answer.value && l.block.Some? && Uint64(l.block.value) == UINT64 - 1
    ensures Poll(from, answer).next < from ==> Poll(from, answer).next == 0
  {
    if answer.Some? {
      HighestIsHighest(from, answer.value);
    }
  }

  // ---- Runs over a growing chain ----

  /** All matching logs the chain ever gets; at a poll those up to the head can be seen. */
  ghost predicate ChainOk(chain: seq<RawLog>) {
    forall k | 0 <= k < |chain| :: chain[k].block.Some? && chain[k].block.value < UINT64 - 1
  }

  /** eth_getLogs from a block to the head. */
  function Answer(chain: seq<RawLog>, from: nat, head: nat): seq<RawLog> {
    if chain == [] then []
    else
      var front, l := Answer(chain[..|chain| - 1], from, head), chain[|chain| - 1];
      if l.block.Some? && from <= l.block.value <= head then front + [l] else front
  }

  lemma {:induction false} AnswerIs(chain: seq<RawLog>, from: nat, head: nat)
    ensures forall l :: l in Answer(chain, from, head) <==> l in chain && l.block.Some? && from <= l.block.value <= head
    decreases |chain|
  {
    if chain != [] {
      AnswerIs(chain[..|chain| - 1], from, head);
      assert chain == chain[..|chain| - 1] + [chain[|chain| - 1]];
    }
  }

  /** One tick of the poller: where the head stands, and whether the call succeeds. */
  datatype Tick = Tick(head: nat, ok: bool)

  ghost predicate HeadsGrow(ticks: seq<Tick>) {
    forall i, j | 0 <= i < j < |ticks| :: ticks[i].head <= ticks[j].head
  }

  function PollAt(chain: seq<RawLog>, from: nat, t: Tick): PollResult {
    Poll(from, if t.ok then Some(Answer(chain, from, t.head)) else None)
  }

  /** The cursor after the ticks. */
  function CursorAfter(chain: seq<RawLog>, start: nat, ticks: seq<Tick>): nat {
    if ticks == [] then start
    else
      var before := CursorAfter(chain, start, ticks[..|ticks| - 1]);
      match PollAt(chain, before, ticks[|ticks| - 1])
      case Polled(_, next) => next
      case PollFailed(next) => next
      case Crashed => before
  }

  /** There is a log in a block above b, up to the head. */
  ghost predicate Above(chain: seq<RawLog>, b: nat, head: nat) {
    exists k :: 0 <= k < |chain| && chain[k].block.Some? && b < chain[k].block.value <= head
  }

  lemma InChain(chain: seq<RawLog>, l: RawLog)
    requires ChainOk(chain) && l in chain
    ensures l.block.Some? && Uint64(l.block.value) == l.block.value < UINT64 - 1
  {
    var k :| 0 <= k < |chain| && chain[k] == l;
  }

  /** The highest block a proper answer shows. */
  lemma HighestShown(chain: seq<RawLog>, from: nat, head: nat) returns (h: nat)
    requires ChainOk(chain)
    ensures h == Highest(from, Answer(chain, from, head)) && from <= h <= (if head > from then head else from)
    ensures h > from <==> Above(chain, from, head)
    ensures h > from ==> h < UINT64 - 1
    ensures forall k | 0 <= k < |chain| && chain[k].block.value <= head :: chain[k].block.value <= h
  {
    var answer := Answer(chain, from, head);
    h := Highest(from, answer);
    AnswerIs(chain, from, head);
    HighestIsHighest(from, answer);
    if h > from {
      var l :| l in answer && l.block.Some? && Uint64(l.block.value) == h;
      InChain(chain, l);
      var k :| 0 <= k < |chain| && chain[k] == l;
      assert from < chain[k].block.value <= head;
    }
    forall k | 0 <= k < |chain| && chain[k].block.value <= head
      ensures chain[k].block.value <= h
    {
      InChain(chain, chain[k]);
      assert from <= chain[k].block.value ==> chain[k] in answer;
    }
  }

  lemma NeverCrashes(chain: seq<RawLog>, from: nat, head: nat)
    requires ChainOk(chain)
    ensures !Poll(from, Some(Answer(chain, from, head))).Crashed?
  {
    AnswerIs(chain, from, head);
    var answer := Answer(chain, from, head);
    forall k | 0 <= k < |answer|
      ensures !DecodePosted(answer[k]).Panics?
    {
      InChain(chain, answer[k]);
    }
  }

  /** A poll of a proper chain: it never crashes, never goes back, passes every block it has shown above the cursor, and
      moves exactly when it shows one. */
  lemma PollMoves(chain: seq<RawLog>, from: nat, t: Tick)
    requires ChainOk(chain)
    ensures var r := PollAt(chain, from, t);
            && !r.Crashed? && r.next >= from && r.next <= (if t.head + 1 > from then t.head + 1 else from)
            && (r.next == from <==> !t.ok || !Above(chain, from, t.head))
            && (t.ok && Above(chain, from, t.head) ==>
                  forall k | 0 <= k < |chain| && chain[k].block.value <= t.head :: chain[k].block.value < r.next)
  {
    var h := HighestShown(chain, from, t.head);
    NeverCrashes(chain, from, t.head);
  }

  lemma CursorStep(chain: seq<RawLog>, start: nat, ticks: seq<Tick>, n: nat)
    requires ChainOk(chain) && 0 < n <= |ticks|
    ensures var c := CursorAfter(chain, start, ticks[..n - 1]);
            !PollAt(chain, c, ticks[n - 1]).Crashed? && CursorAfter(chain, start, ticks[..n]) == PollAt(chain, c, ticks[n - 1]).next
  {
    assert ticks[..n][..n - 1] == ticks[..n - 1];
    PollMoves(chain, CursorAfter(chain, start, ticks[..n - 1]), ticks[n - 1]);
  }

  /** The cursor never decreases. */
  lemma {:induction false} CursorNeverDecreases(chain: seq<RawLog>, start: nat, ticks: seq<Tick>, i: nat, j: nat)
    requires ChainOk(chain) && i <= j <= |ticks|
    ensures start <= CursorAfter(chain, start, ticks[..i]) <= CursorAfter(chain, start, ticks[..j])
    decreases j
  {
    if 0 < j {
      CursorStep(chain, start, ticks, j);
      PollMoves(chain, CursorAfter(chain, start, ticks[..j - 1]), ticks[j - 1]);
      if i < j {
        CursorNeverDecreases(chain, start, ticks, i, j - 1);
      } else {
        CursorNeverDecreases(chain, start, ticks, j - 1, j - 1);
      }
    }
  }

  /** The poll at tick i shows the log. */
  ghost predicate Delivers(chain: seq<RawLog>, start: nat, ticks: seq<Tick>, i: nat, k: nat)
    requires ChainOk(chain) && i < |ticks| && k < |chain|
  {
    ticks[i].ok && CursorAfter(chain, start, ticks[..i]) <= chain[k].block.value <= ticks[i].head
  }

  /** A log that is shown and decodes is among the events the poll returns. */
  lemma DeliveredEvent(chain: seq<RawLog>, start: nat, ticks: seq<Tick>, i: nat, k: nat)
    requires ChainOk(chain) && i < |ticks| && k < |chain| && Delivers(chain, start, ticks, i, k)
    requires DecodePosted(chain[k]).Decoded?
    ensures var r := PollAt(chain, CursorAfter(chain, start, ticks[..i]), ticks[i]);
            r.Polled? && DecodePosted(chain[k]).value in r.events
  {
    var from := CursorAfter(chain, start, ticks[..i]);
    PollMoves(chain, from, ticks[i]);
    AnswerIs(chain, from, ticks[i].head);
    assert chain[k] in chain;
    PostingsHave(Answer(chain, from, ticks[i].head), chain[k]);
  }

  lemma {:induction false} PostingsHave(logs: seq<RawLog>, l: RawLog)
    requires l in logs && DecodePosted(l).Decoded?
    ensures DecodePosted(l).value in Postings(logs)
    decreases |logs|
  {
    if l != logs[|logs| - 1] {
      assert l in logs[..|logs| - 1];
      PostingsHave(logs[..|logs| - 1], l);
    }
  }

  /** The cursor cannot have passed a block no successful poll has reached. */
  lemma {:induction false} NotYetPassed(chain: seq<RawLog>, start: nat, ticks: seq<Tick>, i: nat, b: nat)
    requires ChainOk(chain) && i <= |ticks| && start <= b
    requires forall j | 0 <= j < i && ticks[j].ok :: ticks[j].head < b
    ensures CursorAfter(chain, start, ticks[..i]) <= b
    decreases i
  {
    if i > 0 {
      NotYetPassed(chain, start, ticks, i - 1, b);
      CursorStep(chain, start, ticks, i);
      PollMoves(chain, CursorAfter(chain, start, ticks[..i - 1]), ticks[i - 1]);
    }
  }

  /** No log is skipped: the first successful poll whose head has reached a log's block shows it. */
  lemma NothingSkipped(chain: seq<RawLog>, start: nat, ticks: seq<Tick>, i: nat, k: nat)
    requires ChainOk(chain) && i < |ticks| && k < |chain| && start <= chain[k].block.value
    requires ticks[i].ok && chain[k].block.value <= ticks[i].head
    requires forall j | 0 <= j < i && ticks[j].ok :: ticks[j].head < chain[k].block.value
    ensures Delivers(chain, start, ticks, i, k)
  {
    NotYetPassed(chain, start, ticks, i, chain[k].block.value);
  }

  /** From tick i up to tick n every successful poll finds nothing above b. */
  ghost predicate Quiet(chain: seq<RawLog>, ticks: seq<Tick>, i: nat, n: nat, b: nat)
    requires i <= n <= |ticks|
  {
    i < n ==> Quiet(chain, ticks, i, n - 1, b) && (!ticks[n - 1].ok || !Above(chain, b, ticks[n - 1].head))
  }

  /** What PollMoves says of one poll, from cursor c to cursor d. */
  ghost predicate Moves(chain: seq<RawLog>, c: nat, t: Tick, d: nat) {
    && c <= d && (d == c <==> !t.ok || !Above(chain, c, t.head))
    && (t.ok && Above(chain, c, t.head) ==>
          forall k | 0 <= k < |chain| && chain[k].block.Some? && chain[k].block.value <= t.head :: chain[k].block.value < d)
  }

  ghost predicate Trace(chain: seq<RawLog>, ticks: seq<Tick>, cursors: seq<nat>) {
    |cursors| == |ticks| + 1 && forall n | 0 <= n < |ticks| :: Moves(chain, cursors[n], ticks[n], cursors[n + 1])
  }

  /** The cursors of a run, one before each tick and one at the end. */
  lemma TraceOf(chain: seq<RawLog>, start: nat, ticks: seq<Tick>) returns (cursors: seq<nat>)
    requires ChainOk(chain)
    ensures Trace(chain, ticks, cursors) && forall n | 0 <= n <= |ticks| :: cursors[n] == CursorAfter(chain, start, ticks[..n])
  {
    cursors := seq(|ticks| + 1, n requires 0 <= n <= |ticks| => CursorAfter(chain, start, ticks[..n]));
    forall n | 0 <= n < |ticks|
      ensures Moves(chain, cursors[n], ticks[n], cursors[n + 1])
    {
      CursorStep(chain, start, ticks, n + 1);
      PollMoves(chain, CursorAfter(chain, start, ticks[..n]), ticks[n]);
    }
  }

  /** A shown log stays at or above the cursor exactly while it is the cursor's own block and nothing higher turns up. */
  lemma {:induction false} StillAtCursor(chain: seq<RawLog>, ticks: seq<Tick>, cursors: seq<nat>, i: nat, n: nat, k: nat)
    requires ChainOk(chain) && Trace(chain, ticks, cursors) && i < n <= |ticks| && k < |chain|
    requires ticks[i].ok && cursors[i] <= chain[k].block.value <= ticks[i].head
    ensures cursors[i] <= cursors[n]
    ensures var b := chain[k].block.value; cursors[n] <= b <==> b == cursors[i] && Quiet(chain, ticks, i, n, b)
    decreases n
  {
    var b := chain[k].block.value;
    assert Moves(chain, cursors[n - 1], ticks[n - 1], cursors[n]);
    if i < n - 1 {
      StillAtCursor(chain, ticks, cursors, i, n - 1, k);
    } else if cursors[i] < b {
      assert Above(chain, cursors[i], ticks[i].head);
    }
  }

  /** A shown log is shown again by a later successful poll if and only if it sits at the cursor's own block and no
      successful poll since has found a log above it. So a log above the cursor is shown exactly once. */
  lemma ShownAgain(chain: seq<RawLog>, start: nat, ticks: seq<Tick>, i: nat, j: nat, k: nat)
    requires ChainOk(chain) && HeadsGrow(ticks) && i < j < |ticks| && k < |chain|
    requires Delivers(chain, start, ticks, i, k) && ticks[j].ok
    ensures var b := chain[k].block.value;
            Delivers(chain, start, ticks, j, k) <==>
              b == CursorAfter(chain, start, ticks[..i]) && Quiet(chain, ticks, i, j, b)
  {
    var cursors := TraceOf(chain, start, ticks);
    StillAtCursor(chain, ticks, cursors, i, j, k);
  }

  /** Not every log is shown once: one alone in the starting block is shown by every successful poll. */
  lemma StartBlockShownTwice(l: RawLog, head: nat)
    requires l.block.Some? && l.block.value <= head && l.block.value < UINT64 - 1
    ensures var twice := [Tick(head, true), Tick(head, true)];
            Delivers([l], l.block.value, twice, 0, 0) && Delivers([l], l.block.value, twice, 1, 0)
  {
    var ticks := [Tick(head, true), Tick(head, true)];
    assert Delivers([l], l.block.value, ticks, 0, 0);
    ShownAgain([l], l.block.value, ticks, 0, 1, 0);
  }
}
