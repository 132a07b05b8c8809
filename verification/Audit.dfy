/** The hash of one audited action, and exactly what it commits to. */
module Actions {
  import opened Common
  import Hex
  import opened JsonText
  import JsonValues

  /** A UTC time; the format keeps seconds and drops what is below. */
  datatype Timestamp = Timestamp(year: nat, month: nat, day: nat, hour: nat, minute: nat, second: nat, nanos: nat)

  /** input and result are the values handed to the JSON encoder, None where it fails and its empty output is used. */
  datatype Action = Action(
    index: nat, tool: string, input: Option<Json>, result: Option<Json>, error: string, timestamp: Timestamp, hash: string)

  function Digit(n: nat): char
    requires n < 10
  {
    "0123456789"[n]
  }

  /** The "%d" format. */
  function Decimal(n: nat): string {
    if n < 10 then [Digit(n)] else Decimal(n / 10) + [Digit(n % 10)]
  }

  /** Decimal with leading zeros up to the width. */
  function Padded(n: nat, width: nat): string {
    var d := Decimal(n);
    if |d| >= width then d else seq(width - |d|, _ => '0') + d
  }

  /** RFC 3339, section 5.6, in UTC. */
  function Format(t: Timestamp): string {
    Padded(t.year, 4) + "-" + Padded(t.month, 2) + "-" + Padded(t.day, 2) + "T" +
    Padded(t.hour, 2) + ":" + Padded(t.minute, 2) + ":" + Padded(t.second, 2) + "Z"
  }

  function Text(j: Option<Json>): string {
    match j case None => "" case Some(v) => Encode(v)
  }

  /** index|tool|JSON(input)|JSON(result)|timestamp */
  function Preimage(a: Action): string {
    Decimal(a.index) + "|" + a.tool + "|" + Text(a.input) + "|" + Text(a.result) + "|" + Format(a.timestamp)
  }

  function HashAction(sha: string -> Hex.Digest, a: Action): string {
    Hex.Print(sha(Preimage(a)))
  }

  /** For instance: a string inside an object, with its escape. */
  lemma ObjectReads()
    ensures Encode(Object([Field("u", String("<"))])) == "{\"u\":\"\\u003c\"}"
  {
    assert Body("<") == Escape('<') + Body("") && Body("u") == Escape('u') + Body("");
    assert Encode(String("<")) == "\"\\u003c\"";
    assert EncodeFields([Field("u", String("<"))]) == "\"u\":" + Encode(String("<"));
  }

  predicate Dated(t: Timestamp) {
    1000 <= t.year < 10000 && t.month < 100 && t.day < 100 && t.hour < 100 && t.minute < 100 && t.second < 100
  }

  function DateText(t: Timestamp): (s: string)
    requires Dated(t)
    ensures |s| == 20
  {
    [Digit(t.year / 1000), Digit(t.year / 100 % 10), Digit(t.year / 10 % 10), Digit(t.year % 10), '-',
     Digit(t.month / 10), Digit(t.month % 10), '-', Digit(t.day / 10), Digit(t.day % 10), 'T',
     Digit(t.hour / 10), Digit(t.hour % 10), ':', Digit(t.minute / 10), Digit(t.minute % 10), ':',
     Digit(t.second / 10), Digit(t.second % 10), 'Z']
  }

  /** The time is written to the second, digit by digit. */
  lemma TwoDigits(t: Timestamp)
    requires Dated(t)
    ensures Format(t) == DateText(t)
  {
    FourDigits(t.year);
    TwoDigit(t.month);
    TwoDigit(t.day);
    TwoDigit(t.hour);
    TwoDigit(t.minute);
    TwoDigit(t.second);
  }

  lemma TwoDigit(n: nat)
    requires n < 100
    ensures Padded(n, 2) == [Digit(n / 10), Digit(n % 10)]
  {
    if n >= 10 {
      assert Decimal(n / 10) == [Digit(n / 10)];
    }
  }

  lemma FourDigits(n: nat)
    requires 1000 <= n < 10000
    ensures Padded(n, 4) == [Digit(n / 1000), Digit(n / 100 % 10), Digit(n / 10 % 10), Digit(n % 10)]
  {
    assert Decimal(n / 1000) == [Digit(n / 1000)];
    assert n / 100 / 10 == n / 1000 && n / 10 / 10 == n / 100;
    assert Decimal(n / 100) == Decimal(n / 1000) + [Digit(n / 100 % 10)];
    assert Decimal(n / 10) == Decimal(n / 100) + [Digit(n / 10 % 10)];
  }

  // ---- Reading the fields back ----

  predicate Plain(s: string) {
    forall c | c in s :: c != '"' && c != '|' && c != '\\'
  }

  lemma {:induction false} DecimalPlain(n: nat)
    ensures Plain(Decimal(n))
  {
    if n >= 10 {
      DecimalPlain(n / 10);
    }
  }

  function Value(s: string): nat {
    if s == "" then 0 else 10 * Value(s[..|s| - 1]) + (if '0' <= s[|s| - 1] <= '9' then s[|s| - 1] as int - '0' as int else 0)
  }

  lemma {:induction false} DecimalValue(n: nat)
    ensures Value(Decimal(n)) == n
  {
    if n >= 10 {
      DecimalValue(n / 10);
      assert Decimal(n)[..|Decimal(n)| - 1] == Decimal(n / 10);
    } else {
      assert Decimal(n)[..0] == "";
    }
  }

  lemma PaddedPlain(n: nat, width: nat)
    ensures Plain(Padded(n, width))
  {
    DecimalPlain(n);
  }

  lemma FormatPlain(t: Timestamp)
    ensures Plain(Format(t))
  {
    PaddedPlain(t.year, 4);
    PaddedPlain(t.month, 2);
    PaddedPlain(t.day, 2);
    PaddedPlain(t.hour, 2);
    PaddedPlain(t.minute, 2);
    PaddedPlain(t.second, 2);
  }

  /** A well-quoted text after a bar cannot itself end in a bar followed by a well-quoted text: the cut would fall inside
      a string and leave an odd quote. */
  lemma NoSecondCut(front: string, s: string)
    requires WellQuoted(s)
    ensures !WellQuoted(front + "|" + s)
  {
    ReadConcat(Outside, front + "|", s);
    ReadConcat(Outside, front, "|");
    var q := ReadAll(Outside, front);
    ReadOne(q, '|');
    StuckStays(s);
    ParityDiffers(s);
  }

  /** So the last field of a bar-separated text is determined, whatever stands before it. */
  lemma LastFieldUnique(p: string, s: string, p': string, s': string)
    requires WellQuoted(s) && WellQuoted(s') && p + "|" + s == p' + "|" + s'
    ensures p == p' && s == s'
  {
    var whole := p + "|" + s;
    if |s| > |s'| {
      LongerField(p, s, p', s');
    } else if |s| < |s'| {
      LongerField(p', s', p, s);
    }
    assert whole[..|p|] == p && whole[..|p'|] == p';
    assert whole[|p| + 1..] == s && whole[|p'| + 1..] == s';
  }

  lemma LongerField(p: string, s: string, p': string, s': string)
    requires WellQuoted(s') && p + "|" + s == p' + "|" + s' && |s| > |s'|
    ensures !WellQuoted(s)
  {
    var whole := p + "|" + s;
    var front := s[..|s| - |s'| - 1];
    assert s == front + "|" + s' by {
      assert whole[|p| + 1..] == s;
      assert whole == p' + "|" + s';
      assert |p'| == |p| + 1 + |front|;
      assert s[|front|] == whole[|p'|] == '|';
      assert s[|front| + 1..] == whole[|p'| + 1..] == s';
    }
    NoSecondCut(front, s');
  }

  /** The first field is determined when it holds no bar. */
  lemma FirstFieldUnique(s: string, p: string, s': string, p': string)
    requires Plain(s) && Plain(s') && s + "|" + p == s' + "|" + p'
    ensures s == s' && p == p'
  {
    var whole := s + "|" + p;
    assert whole[|s|] == '|' && whole[|s'|] == '|';
    assert forall i | 0 <= i < |s| :: whole[i] == s[i] && s[i] in s;
    assert forall i | 0 <= i < |s'| :: whole[i] == s'[i] && s'[i] in s';
    assert |s| == |s'|;
    assert whole[..|s|] == s && whole[..|s'|] == s';
    assert whole[|s| + 1..] == p && whole[|s'| + 1..] == p';
  }

  lemma TextReads(j: Option<Json>)
    ensures WellQuoted(Text(j))
  {
    if j.Some? {
      EncodeReads(j.value);
    }
  }

  /** The encoder's text, or its absence, determines the value. */
  lemma TextDetermines(x: Option<Json>, y: Option<Json>)
    ensures Text(x) == Text(y) <==> x == y
  {
    if x.Some? {
      JsonValues.StartsKind(x.value);
    }
    if y.Some? {
      JsonValues.StartsKind(y.value);
    }
    if x.Some? && y.Some? && Text(x) == Text(y) {
      JsonValues.EncodeDetermines(x.value, y.value);
    }
  }

  lemma DigitsDetermine(m: nat, n: nat)
    requires m < 10 && n < 10 && Digit(m) == Digit(n)
    ensures m == n
  {
  }

  lemma PairsDetermine(m: nat, n: nat)
    requires m < 100 && n < 100 && Digit(m / 10) == Digit(n / 10) && Digit(m % 10) == Digit(n % 10)
    ensures m == n
  {
    DigitsDetermine(m / 10, n / 10);
    DigitsDetermine(m % 10, n % 10);
  }

  /** The time as written determines the time to the second. */
  lemma FormatDetermines(a: Timestamp, b: Timestamp)
    requires Dated(a) && Dated(b)
    ensures Format(a) == Format(b) <==> a.(nanos := 0) == b.(nanos := 0)
  {
    TwoDigits(a);
    TwoDigits(b);
    if Format(a) == Format(b) {
      DateDetermines(a, b);
    }
  }

  lemma DateDetermines(a: Timestamp, b: Timestamp)
    requires Dated(a) && Dated(b) && DateText(a) == DateText(b)
    ensures a.(nanos := 0) == b.(nanos := 0)
  {
    var x, y := DateText(a), DateText(b);
    assert x[0] == y[0] && x[1] == y[1] && x[2] == y[2] && x[3] == y[3];
    YearsDetermine(a.year, b.year);
    assert x[5] == y[5] && x[6] == y[6] && x[8] == y[8] && x[9] == y[9];
    PairsDetermine(a.month, b.month);
    PairsDetermine(a.day, b.day);
    assert x[11] == y[11] && x[12] == y[12] && x[14] == y[14] && x[15] == y[15];
    PairsDetermine(a.hour, b.hour);
    PairsDetermine(a.minute, b.minute);
    assert x[17] == y[17] && x[18] == y[18];
    PairsDetermine(a.second, b.second);
  }

  lemma YearsDetermine(m: nat, n: nat)
    requires m < 10000 && n < 10000
    requires Digit(m / 1000) == Digit(n / 1000) && Digit(m / 100 % 10) == Digit(n / 100 % 10)
    requires Digit(m / 10 % 10) == Digit(n / 10 % 10) && Digit(m % 10) == Digit(n % 10)
    ensures m == n
  {
    Halves(m);
    Halves(n);
    PairsDetermine(m / 100, n / 100);
    PairsDetermine(m % 100, n % 100);
  }

  lemma Halves(n: nat)
    ensures n / 100 / 10 == n / 1000 && n % 100 / 10 == n / 10 % 10 && n % 100 % 10 == n % 10 && n == 100 * (n / 100) + n % 100
  {
    var q, r := n / 100, n % 100;
    Thousands(q / 10, q % 10, r);
    Tens(q, r / 10, r % 10);
  }

  lemma Thousands(a: nat, b: nat, r: nat)
    requires b < 10 && r < 100
    ensures (1000 * a + 100 * b + r) / 1000 == a
  {
  }

  lemma Tens(q: nat, a: nat, b: nat)
    requires a < 10 && b < 10
    ensures (100 * q + 10 * a + b) / 10 == 10 * q + a && (100 * q + 10 * a + b) % 10 == b && (10 * q + a) % 10 == a
  {
  }

  /** Equal preimages are exactly those of actions that agree on index, tool, both JSON values and the timestamp text; any
      tool name is allowed, and the error field is not covered. */
  lemma PreimageDetermines(a: Action, b: Action)
    ensures Preimage(a) == Preimage(b) <==>
            && a.index == b.index && a.tool == b.tool && a.input == b.input && a.result == b.result
            && Format(a.timestamp) == Format(b.timestamp)
  {
    if Preimage(a) == Preimage(b) {
      TextsEqual(a, b);
      TextDetermines(a.input, b.input);
      TextDetermines(a.result, b.result);
    }
  }

  /** Equal preimages have equal fields as written. */
  lemma TextsEqual(a: Action, b: Action)
    requires Preimage(a) == Preimage(b)
    ensures a.index == b.index && a.tool == b.tool && Text(a.input) == Text(b.input)
    ensures Text(a.result) == Text(b.result) && Format(a.timestamp) == Format(b.timestamp)
  {
    var ia, ib := Decimal(a.index), Decimal(b.index);
    TextReads(a.input);
    TextReads(a.result);
    TextReads(b.input);
    TextReads(b.result);
    FormatPlain(a.timestamp);
    FormatPlain(b.timestamp);
    ReadPlain(Format(a.timestamp));
    ReadPlain(Format(b.timestamp));
    LastFieldUnique(ia + "|" + a.tool + "|" + Text(a.input) + "|" + Text(a.result), Format(a.timestamp),
                    ib + "|" + b.tool + "|" + Text(b.input) + "|" + Text(b.result), Format(b.timestamp));
    LastFieldUnique(ia + "|" + a.tool + "|" + Text(a.input), Text(a.result), ib + "|" + b.tool + "|" + Text(b.input), Text(b.result));
    LastFieldUnique(ia + "|" + a.tool, Text(a.input), ib + "|" + b.tool, Text(b.input));
    DecimalPlain(a.index);
    DecimalPlain(b.index);
    FirstFieldUnique(ia, a.tool, ib, b.tool);
    DecimalValue(a.index);
    DecimalValue(b.index);
  }
}

/** The audit trail: the reported root and, for every action, a proof that folds to it. */
module Audit {
  import opened Hex
  import opened Merkle
  import opened Actions

  /** SHA-256 over bytes is a parameter. */
  type Sha = seq<Byte> -> Digest

  function PairHash(sha: Sha): (Digest, Digest) -> Digest {
    (a: Digest, b: Digest) => sha(a + b)
  }

  function Leaves(actions: seq<Action>): (leaves: seq<Digest>)
    ensures |leaves| == |actions|
  {
    seq(|actions|, i requires 0 <= i < |actions| => Hex.Parse(actions[i].hash))
  }

  /** computeMerkleRoot */
  function MerkleRoot(sha: Sha, actions: seq<Action>): string {
    if actions == [] then Hex.Print(sha([])) else Hex.Print(Root(PairHash(sha), Leaves(actions)))
  }

  /** "left:<hex>" or "right:<hex>" */
  function PrintLink(l: Link<Digest>): string {
    (if l.side.Left? then "left:" else "right:") + Hex.Print(l.sibling)
  }

  function PrintProof(path: seq<Link<Digest>>): (proof: seq<string>)
    ensures |proof| == |path|
  {
    seq(|path|, i requires 0 <= i < |path| => PrintLink(path[i]))
  }

  /** ComputeMerkleProof; out-of-range indices give no proof. */
  function MerkleProof(sha: Sha, actions: seq<Action>, leafIndex: int): seq<string> {
    if leafIndex < 0 || leafIndex >= |actions| then [] else PrintProof(Proof(PairHash(sha), Leaves(actions), leafIndex))
  }

  /** How a reader of the audit takes a link back. */
  function ReadLink(s: string): Link<Digest> {
    if |s| >= 5 && s[..5] == "left:" then Link(Left, Hex.Parse(s[5..]))
    else if |s| >= 6 && s[..6] == "right:" then Link(Right, Hex.Parse(s[6..]))
    else Link(Right, ZERO_HASH)
  }

  function ReadProof(proof: seq<string>): (path: seq<Link<Digest>>)
    ensures |path| == |proof|
  {
    seq(|proof|, i requires 0 <= i < |proof| => ReadLink(proof[i]))
  }

  /** An entry checks out when its action's hash folds by its proof to the root, all as printed. */
  predicate Checks(sha: Sha, a: Action, proof: seq<string>, root: string) {
    Hex.Print(Fold(PairHash(sha), Hex.Parse(a.hash), ReadProof(proof))) == root
  }

  datatype Entry = Entry(action: Action, proof: seq<string>)

  /** computeMerkleRoot as the source runs it. */
  method ComputeMerkleRoot(sha: Sha, actions: seq<Action>) returns (root: string)
    ensures root == MerkleRoot(sha, actions)
  {
    if |actions| == 0 {
      return Hex.Print(sha([]));
    }
    var leaves := ParseHashes(actions);
    var r := ComputeRoot(PairHash(sha), leaves);
    root := Hex.Print(r);
  }

  method ParseHashes(actions: seq<Action>) returns (leaves: seq<Digest>)
    ensures leaves == Leaves(actions)
  {
    leaves := [];
    for i := 0 to |actions|
      invariant leaves == Leaves(actions)[..i]
    {
      leaves := leaves + [Hex.Parse(actions[i].hash)];
    }
  }

  method ComputeMerkleProof(sha: Sha, actions: seq<Action>, leafIndex: int) returns (proof: seq<string>)
    ensures proof == MerkleProof(sha, actions, leafIndex)
  {
    if |actions| == 0 || leafIndex < 0 || leafIndex >= |actions| {
      return [];
    }
    var leaves := ParseHashes(actions);
    var path := ComputeProof(PairHash(sha), leaves, leafIndex);
    proof := PrintProof(path);
  }

  lemma StripLabel(tag: string, hex: string)
    ensures |tag + hex| >= |tag| && (tag + hex)[..|tag|] == tag && (tag + hex)[|tag|..] == hex
  {
  }

  lemma ReadLabelled(side: Side, hex: string, d: Digest)
    requires Hex.Parse(hex) == d
    ensures ReadLink((if side.Left? then "left:" else "right:") + hex) == Link(side, d)
  {
    if side.Left? {
      StripLabel("left:", hex);
    } else {
      StripLabel("right:", hex);
      assert ("right:" + hex)[..5][0] == 'r' && "left:"[0] == 'l';
    }
  }

  lemma LinkRoundTrip(l: Link<Digest>)
    ensures ReadLink(PrintLink(l)) == l
  {
    Hex.ParsePrinted(l.sibling);
    ReadLabelled(l.side, Hex.Print(l.sibling), l.sibling);
  }

  lemma ProofRoundTrip(path: seq<Link<Digest>>)
    ensures ReadProof(PrintProof(path)) == path
  {
    forall i | 0 <= i < |path|
      ensures ReadProof(PrintProof(path))[i] == path[i]
    {
      LinkRoundTrip(path[i]);
    }
  }

  /** The 32 bytes an action's hash stands for. */
  function LeafOf(a: Action): seq<Byte> {
    Hex.Parse(a.hash)
  }

  /** The smallest roots, written out: of nothing, and of one, two and three actions. */
  lemma SmallRoots(sha: Sha, actions: seq<Action>)
    ensures actions == [] ==> MerkleRoot(sha, actions) == Hex.Print(sha([]))
    ensures |actions| == 1 ==> MerkleRoot(sha, actions) == Hex.Print(LeafOf(actions[0]))
    ensures |actions| == 2 ==> MerkleRoot(sha, actions) == Hex.Print(sha(LeafOf(actions[0]) + LeafOf(actions[1])))
    ensures |actions| == 3 ==>
              MerkleRoot(sha, actions) ==
              Hex.Print(sha(sha(LeafOf(actions[0]) + LeafOf(actions[1])) + sha(LeafOf(actions[2]) + LeafOf(actions[2]))))
  {
    if |actions| == 2 {
      RootOfPair(PairHash(sha), Leaves(actions));
    } else if |actions| == 3 {
      RootOfTriple(PairHash(sha), Leaves(actions));
    }
  }

  /** Every entry of the audit checks out: its proof has ceil(log2 n) links and folds from its action's hash to the
      reported root, through every print and parse on the way. */
  lemma EntryChecks(sha: Sha, actions: seq<Action>, i: nat)
    requires i < |actions|
    ensures Checks(sha, actions[i], MerkleProof(sha, actions, i), MerkleRoot(sha, actions))
    ensures IsCeilLog2(|actions|, |MerkleProof(sha, actions, i)|)
  {
    var h, leaves := PairHash(sha), Leaves(actions);
    ProofFolds(h, leaves, i);
    ProofRoundTrip(Proof(h, leaves, i));
    ProofLength(h, leaves, i);
    HeightIsCeilLog2(|actions|);
  }

  /** The first n entries of the audit. */
  function AuditOf(sha: Sha, actions: seq<Action>, n: nat): (entries: seq<Entry>)
    requires n <= |actions|
    ensures |entries| == n
  {
    if n == 0 then [] else AuditOf(sha, actions, n - 1) + [Entry(actions[n - 1], MerkleProof(sha, actions, n - 1))]
  }

  /** handleGetAudit's assembly of the entries. */
  method AuditEntries(sha: Sha, actions: seq<Action>) returns (entries: seq<Entry>)
    ensures |entries| == |actions| && entries == AuditOf(sha, actions, |actions|)
  {
    entries := [];
    for i := 0 to |actions|
      invariant entries == AuditOf(sha, actions, i)
    {
      var proof := ComputeMerkleProof(sha, actions, i);
      entries := entries + [Entry(actions[i], proof)];
    }
  }

  lemma {:induction false} AuditAt(sha: Sha, actions: seq<Action>, n: nat, i: nat)
    requires i < n <= |actions|
    ensures AuditOf(sha, actions, n)[i] == Entry(actions[i], MerkleProof(sha, actions, i))
    decreases n
  {
    if i < n - 1 {
      AuditAt(sha, actions, n - 1, i);
    }
  }

  /** Every entry of the audit is its action with the action's own proof, which checks out against the reported root. */
  lemma AuditChecks(sha: Sha, actions: seq<Action>, n: nat, i: nat)
    requires i < n <= |actions|
    ensures var entry := AuditOf(sha, actions, n)[i];
            && entry.action == actions[i] && Checks(sha, actions[i], entry.proof, MerkleRoot(sha, actions))
            && IsCeilLog2(|actions|, |entry.proof|)
  {
    AuditAt(sha, actions, n, i);
    EntryChecks(sha, actions, i);
  }

  /** Equal reported roots for logs of one length mean equal hashes entry by entry, unless two hashed pairs collide;
      and equal hashes mean equal committed fields, unless the two preimages collide. */
  lemma RootDeterminesLog(sha: Sha, text: string -> Digest, a: seq<Action>, b: seq<Action>)
    requires |a| == |b| > 0 && MerkleRoot(sha, a) == MerkleRoot(sha, b)
    requires CollisionFree(PairHash(sha), HashedPairs(PairHash(sha), Leaves(a)) + HashedPairs(PairHash(sha), Leaves(b)))
    requires forall i | 0 <= i < |a| :: a[i].hash == HashAction(text, a[i]) && b[i].hash == HashAction(text, b[i])
    requires forall i | 0 <= i < |a| :: text(Preimage(a[i])) == text(Preimage(b[i])) ==> Preimage(a[i]) == Preimage(b[i])
    ensures forall i | 0 <= i < |a| ::
              && a[i].index == b[i].index && a[i].tool == b[i].tool && a[i].input == b[i].input && a[i].result == b[i].result
              && Format(a[i].timestamp) == Format(b[i].timestamp)
  {
    var h := PairHash(sha);
    Hex.ParsePrinted(Root(h, Leaves(a)));
    Hex.ParsePrinted(Root(h, Leaves(b)));
    RootBinds(h, Leaves(a), Leaves(b));
    forall i | 0 <= i < |a|
      ensures Preimage(a[i]) == Preimage(b[i])
    {
      Hex.ParsePrinted(text(Preimage(a[i])));
      Hex.ParsePrinted(text(Preimage(b[i])));
      assert Leaves(a)[i] == Leaves(b)[i];
    }
    forall i | 0 <= i < |a|
      ensures a[i].index == b[i].index && a[i].tool == b[i].tool && a[i].input == b[i].input
      ensures a[i].result == b[i].result && Format(a[i].timestamp) == Format(b[i].timestamp)
    {
      PreimageDetermines(a[i], b[i]);
    }
  }
}
