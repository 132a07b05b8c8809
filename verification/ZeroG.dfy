/** The append-only log kept as one list under one key of a key-value store: read, extend, write back. */
module ZeroG {
  import opened Common

  /** A stored element; base64 text that does not decode is skipped by readers. */
  datatype Item<+E> = Encoded(entry: E) | Undecodable

  /** What a key holds: nothing, bytes that are no JSON list, or a list. */
  datatype Blob<+E> = Absent | Garbled | List(items: seq<Item<E>>)

  /** How one append can go wrong. A failed write may or may not have reached the store. */
  datatype Fault = NoFault | NotMarshalled | GetFails | PutLost | PutStored

  /** What an append leaves under the key. A garbled list is started afresh. */
  function Appended<E>(blob: Blob<E>, entry: E, fault: Fault): Blob<E> {
    match fault
    case NotMarshalled => blob
    case GetFails => blob
    case PutLost => blob
    case _ => List((if blob.List? then blob.items else []) + [Encoded(entry)])
  }

  function Decoded<E>(items: seq<Item<E>>): seq<E> {
    if items == [] then []
    else
      var front, last := Decoded(items[..|items| - 1]), items[|items| - 1];
      if last.Encoded? then front + [last.entry] else front
  }

  /** What a reader gets; None is an error. */
  function Entries<E>(blob: Blob<E>): Option<seq<E>> {
    match blob
    case Absent => Some([])
    case Garbled => None
    case List(items) => Some(Decoded(items))
  }

  /** s can be had from t by leaving elements out. */
  predicate Subsequence<E(==)>(s: seq<E>, t: seq<E>) {
    s == [] || (t != [] &&
      if s[|s| - 1] == t[|t| - 1] then Subsequence(s[..|s| - 1], t[..|t| - 1]) else Subsequence(s, t[..|t| - 1]))
  }

  lemma {:induction false} LongerSuper<E>(s: seq<E>, t: seq<E>, x: E)
    requires Subsequence(s, t)
    ensures Subsequence(s, t + [x])
    decreases |t|, 1
  {
    assert (t + [x])[..|t|] == t;
    if s != [] && s[|s| - 1] == x {
      FrontOfSub(s, t);
    }
  }

  /** Without its last element a subsequence still is one. */
  lemma {:induction false} FrontOfSub<E>(s: seq<E>, t: seq<E>)
    requires s != [] && Subsequence(s, t)
    ensures Subsequence(s[..|s| - 1], t)
    decreases |t|, 0
  {
    var front := t[..|t| - 1];
    assert t == front + [t[|t| - 1]];
    if s[|s| - 1] == t[|t| - 1] {
      LongerSuper(s[..|s| - 1], front, t[|t| - 1]);
    } else {
      FrontOfSub(s, front);
      LongerSuper(s[..|s| - 1], front, t[|t| - 1]);
    }
  }

  lemma BothLonger<E>(s: seq<E>, t: seq<E>, x: E)
    requires Subsequence(s, t)
    ensures Subsequence(s + [x], t + [x])
  {
    assert (s + [x])[..|s|] == s && (t + [x])[..|t|] == t;
  }

  /** What one append does to what readers see: nothing, or exactly one more entry at the end. */
  lemma AppendedEntries<E>(blob: Blob<E>, entry: E, fault: Fault)
    requires !blob.Garbled?
    ensures !Appended(blob, entry, fault).Garbled?
    ensures Entries(Appended(blob, entry, fault)).value ==
            Entries(blob).value + if fault.NoFault? || fault.PutStored? then [entry] else []
  {
    var before := if blob.List? then blob.items else [];
    assert (before + [Encoded(entry)])[..|before|] == before;
    assert Decoded(before) == Entries(blob).value;
    assert Decoded(before + [Encoded(entry)]) == Decoded(before) + [entry];
  }

  /** A list that cannot be read is lost to the first append that goes through, which starts it afresh. */
  lemma GarbledStartsAfresh<E>(entry: E, fault: Fault)
    ensures Entries(Appended(Garbled, entry, fault)) == if fault.NoFault? || fault.PutStored? then Some([entry]) else None
  {
    var items: seq<Item<E>> := [Encoded(entry)];
    assert items[..0] == [];
    assert Decoded(items) == [entry];
    assert Appended(Garbled, entry, NoFault) == List(items);
  }

  class Store<E> {
    var kv: map<string, Blob<E>>

    constructor ()
      ensures kv == map[]
    {
      kv := map[];
    }

    function Holds(logID: string): Blob<E>
      reads this
    {
      if "log:" + logID in kv then kv["log:" + logID] else Absent
    }

    /** Fetch the list, extend it, put it back; the fault says where the network fails. */
    method Append(logID: string, entry: E, fault: Fault) returns (ok: bool)
      modifies this
      ensures Holds(logID) == Appended(old(Holds(logID)), entry, fault) && ok == fault.NoFault?
      ensures forall key | key != "log:" + logID :: (key in kv <==> key in old(kv)) && (key in kv ==> kv[key] == old(kv)[key])
    {
      if fault.GetFails? || fault.NotMarshalled? {
        return false;
      }
      var existing := Holds(logID);
      var entries: seq<Item<E>> := [];
      if existing.List? {
        entries := existing.items;
      }
      entries := entries + [Encoded(entry)];
      if fault.PutLost? {
        return false;
      }
      kv := kv["log:" + logID := List(entries)];
      ok := fault.NoFault?;
    }

    /** All entries that decode, in order. */
    method ReadLog(logID: string, getFails: bool) returns (out: Option<seq<E>>)
      ensures out == if getFails then None else Entries(Holds(logID))
    {
      if getFails {
        return None;
      }
      match Holds(logID)
      case Absent => out := Some([]);
      case Garbled => out := None;
      case List(items) =>
        var entries: seq<E> := [];
        for i := 0 to |items|
          invariant entries == Decoded(items[..i])
        {
          assert items[..i + 1][..i] == items[..i];
          if items[i].Encoded? {
            entries := entries + [items[i].entry];
          }
        }
        assert items[..|items|] == items;
        out := Some(entries);
    }
  }
}

/** Several writers of one log: each append is a get followed later by a put, and the puts of others may fall in between. */
module LogWriters {
  import opened Common
  import opened ZeroG

  datatype Op<+E> = Get(writer: nat) | Put(writer: nat, entry: E)

  /** What the key holds after the operations, none of which fails. */
  function Held<E>(start: Blob<E>, ops: seq<Op<E>>): Blob<E> {
    if ops == [] then start
    else
      var front, last := ops[..|ops| - 1], ops[|ops| - 1];
      if last.Put? then Appended(Seen(start, front, last.writer), last.entry, NoFault) else Held(start, front)
  }

  /** What a writer's last get showed it. */
  function Seen<E>(start: Blob<E>, ops: seq<Op<E>>, writer: nat): Blob<E> {
    if ops == [] then Absent
    else
      var front, last := ops[..|ops| - 1], ops[|ops| - 1];
      if last == Get(writer) then Held(start, front) else Seen(start, front, writer)
  }

  /** No put since the writer's last get. */
  predicate Fresh<E>(ops: seq<Op<E>>, writer: nat) {
    ops != [] && ops[|ops| - 1].Get? && (ops[|ops| - 1].writer == writer || Fresh(ops[..|ops| - 1], writer))
  }

  /** Nobody's put falls between another's get and its put. */
  predicate Undisturbed<E>(ops: seq<Op<E>>) {
    ops == [] ||
    var front, last := ops[..|ops| - 1], ops[|ops| - 1];
    Undisturbed(front) && (last.Put? ==> Fresh(front, last.writer))
  }

  predicate HasRead<E>(ops: seq<Op<E>>, writer: nat) {
    ops != [] &&
    var last := ops[|ops| - 1];
    (last.Get? && last.writer == writer) || HasRead(ops[..|ops| - 1], writer)
  }

  /** Nobody puts before it has read. */
  predicate Orderly<E>(ops: seq<Op<E>>) {
    ops == [] ||
    var front, last := ops[..|ops| - 1], ops[|ops| - 1];
    Orderly(front) && (last.Put? ==> HasRead(front, last.writer))
  }

  function Written<E>(ops: seq<Op<E>>): seq<E> {
    if ops == [] then []
    else
      var front, last := ops[..|ops| - 1], ops[|ops| - 1];
      if last.Put? then Written(front) + [last.entry] else Written(front)
  }

  function Size<E>(blob: Blob<E>): nat {
    if Entries(blob).Some? then |Entries(blob).value| else 0
  }

  /** What a writer saw falls behind by at least one entry as soon as anybody has put. */
  lemma {:induction false} SeenLags<E>(start: Blob<E>, ops: seq<Op<E>>, writer: nat)
    requires !start.Garbled? && Orderly(ops) && HasRead(ops, writer)
    ensures !Seen(start, ops, writer).Garbled?
    ensures if Fresh(ops, writer) then Seen(start, ops, writer) == Held(start, ops)
            else Size(Seen(start, ops, writer)) < Size(start) + |Written(ops)|
    decreases |ops|, 0
  {
    var front, last := ops[..|ops| - 1], ops[|ops| - 1];
    HeldSize(start, front);
    if last != Get(writer) {
      SeenLags(start, front, writer);
    }
  }

  lemma {:induction false} HeldSize<E>(start: Blob<E>, ops: seq<Op<E>>)
    requires !start.Garbled? && Orderly(ops)
    ensures !Held(start, ops).Garbled?
    ensures if Undisturbed(ops) then Entries(Held(start, ops)).value == Entries(start).value + Written(ops)
            else Size(Held(start, ops)) < Size(start) + |Written(ops)|
    decreases |ops|, 1
  {
    if ops != [] {
      var front, last := ops[..|ops| - 1], ops[|ops| - 1];
      HeldSize(start, front);
      if last.Put? {
        SeenLags(start, front, last.writer);
        AppendedEntries(Seen(start, front, last.writer), last.entry, NoFault);
        assert Entries(start).value + Written(front) + [last.entry] == Entries(start).value + Written(ops);
      }
    }
  }

  /** However appends interleave, readers find every entry written, in order, exactly when no put came between another's get
      and its put. */
  lemma NothingLost<E>(start: Blob<E>, ops: seq<Op<E>>)
    requires !start.Garbled? && Orderly(ops)
    ensures Entries(Held(start, ops)) == Some(Entries(start).value + Written(ops)) <==> Undisturbed(ops)
  {
    HeldSize(start, ops);
  }

  /** Two appends that both read first: the first one's entry is gone. */
  lemma SecondWriterWins<E>(start: Blob<E>, x: E, y: E)
    requires !start.Garbled?
    ensures Entries(Held(start, [Get(1), Get(2), Put(1, x), Put(2, y)])) == Some(Entries(start).value + [y])
  {
    var one: seq<Op<E>> := [Get(1)];
    var two: seq<Op<E>> := [Get(1), Get(2)];
    var three := [Get(1), Get(2), Put(1, x)];
    var four := [Get(1), Get(2), Put(1, x), Put(2, y)];
    assert four[..3] == three && three[..2] == two && two[..1] == one && one[..0] == [];
    assert Held(start, one) == start;
    assert Seen(start, two, 2) == start;
    assert Seen(start, three, 2) == start;
    assert Held(start, four) == Appended(start, y, NoFault);
    AppendedEntries(start, y, NoFault);
  }
}
