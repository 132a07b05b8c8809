/** The Merkle tree over action hashes: the root built level by level, the proofs walked beside it, and what they prove.
    The node type and the pair hash are parameters; nothing is assumed of the hash except where a lemma says so. */
module Merkle {
  import opened Common

  datatype Side = Left | Right

  /** A sibling and the side it sits on. */
  datatype Link<+T> = Link(side: Side, sibling: T)

  // ---- The code's functions ----

  /** Duplicate the last node of an odd level. */
  function Pad<T>(nodes: seq<T>): (padded: seq<T>)
    ensures |padded| % 2 == 0 && |padded| / 2 == (|nodes| + 1) / 2 && nodes <= padded
  {
    if |nodes| % 2 != 0 then nodes + [nodes[|nodes| - 1]] else nodes
  }

  function NextLevel<T>(h: (T, T) -> T, nodes: seq<T>): (next: seq<T>)
    requires |nodes| % 2 == 0
    ensures |next| == |nodes| / 2
    ensures forall i | 0 <= i < |next| :: next[i] == h(nodes[2 * i], nodes[2 * i + 1])
  {
    seq(|nodes| / 2, i requires 0 <= i < |nodes| / 2 => h(nodes[2 * i], nodes[2 * i + 1]))
  }

  function Root<T>(h: (T, T) -> T, nodes: seq<T>): T
    requires |nodes| > 0
    decreases |nodes|
  {
    if |nodes| == 1 then nodes[0] else Root(h, NextLevel(h, Pad(nodes)))
  }

  lemma RootOfPair<T>(h: (T, T) -> T, nodes: seq<T>)
    requires |nodes| == 2
    ensures Root(h, nodes) == h(nodes[0], nodes[1])
  {
    var next := NextLevel(h, Pad(nodes));
    assert next == [h(nodes[0], nodes[1])] && Root(h, next) == next[0];
  }

  /** The odd one is hashed with itself. */
  lemma RootOfTriple<T>(h: (T, T) -> T, nodes: seq<T>)
    requires |nodes| == 3
    ensures Root(h, nodes) == h(h(nodes[0], nodes[1]), h(nodes[2], nodes[2]))
  {
    var next := NextLevel(h, Pad(nodes));
    assert next == [h(nodes[0], nodes[1]), h(nodes[2], nodes[2])];
    RootOfPair(h, next);
  }

  function Proof<T>(h: (T, T) -> T, nodes: seq<T>, index: nat): seq<Link<T>>
    requires index < |nodes|
    decreases |nodes|
  {
    if |nodes| <= 1 then []
    else
      [SiblingOf(Pad(nodes), index)] + Proof(h, NextLevel(h, Pad(nodes)), index / 2)
  }

  function SiblingOf<T>(padded: seq<T>, index: nat): Link<T>
    requires index < |padded| && |padded| % 2 == 0
  {
    if index % 2 == 0 then Link(Right, padded[index + 1]) else Link(Left, padded[index - 1])
  }

  /** What a proof is for: hash up from a leaf, the sibling on the side its label names. */
  function Fold<T>(h: (T, T) -> T, start: T, path: seq<Link<T>>): T
    decreases |path|
  {
    if path == [] then start
    else
      var l := path[0];
      Fold(h, if l.side.Left? then h(l.sibling, start) else h(start, l.sibling), path[1..])
  }

  /** merkleRoot as the source runs it: each level in a loop. */
  method ComputeRoot<T>(h: (T, T) -> T, nodes: seq<T>) returns (root: T)
    requires |nodes| > 0
    ensures root == Root(h, nodes)
    decreases |nodes|
  {
    if |nodes| == 1 {
      return nodes[0];
    }
    var padded := nodes;
    if |padded| % 2 != 0 {
      padded := padded + [padded[|padded| - 1]];
    }
    var next := BuildLevel(h, padded);
    root := ComputeRoot(h, next);
  }

  method BuildLevel<T>(h: (T, T) -> T, nodes: seq<T>) returns (next: seq<T>)
    requires |nodes| % 2 == 0
    ensures next == NextLevel(h, nodes)
  {
    next := [];
    var i := 0;
    while i < |nodes|
      invariant 0 <= i <= |nodes| && i % 2 == 0 && |next| == i / 2
      invariant forall k | 0 <= k < i / 2 :: next[k] == h(nodes[2 * k], nodes[2 * k + 1])
    {
      next := next + [h(nodes[i], nodes[i + 1])];
      i := i + 2;
    }
  }

  method ComputeProof<T>(h: (T, T) -> T, nodes: seq<T>, index: nat) returns (proof: seq<Link<T>>)
    requires index < |nodes|
    ensures proof == Proof(h, nodes, index)
    decreases |nodes|
  {
    if |nodes| <= 1 {
      return [];
    }
    var padded := nodes;
    if |padded| % 2 != 0 {
      padded := padded + [padded[|padded| - 1]];
    }
    var link;
    if index % 2 == 0 {
      link := Link(Right, padded[index + 1]);
    } else {
      link := Link(Left, padded[index - 1]);
    }
    var next := BuildLevel(h, padded);
    var rest := ComputeProof(h, next, index / 2);
    proof := [link] + rest;
  }

  // ---- Completeness ----

  /** A node and its sibling hash to their parent. */
  lemma ParentOf<T>(h: (T, T) -> T, nodes: seq<T>, parent: nat, bit: nat)
    requires |nodes| > 1 && bit <= 1 && 2 * parent + bit < |nodes|
    ensures var padded, next := Pad(nodes), NextLevel(h, Pad(nodes));
            && parent < |next| && padded[2 * parent + bit] == nodes[2 * parent + bit]
            && next[parent] == h(padded[2 * parent], padded[2 * parent + 1])
  {
  }

  lemma SiblingFolds<T>(h: (T, T) -> T, nodes: seq<T>, index: nat, parent: nat, bit: nat)
    requires |nodes| > 1 && index < |nodes| && bit <= 1 && index == 2 * parent + bit && index % 2 == bit
    ensures var l, next := SiblingOf(Pad(nodes), index), NextLevel(h, Pad(nodes));
            parent < |next| && (if l.side.Left? then h(l.sibling, nodes[index]) else h(nodes[index], l.sibling)) == next[parent]
  {
    ParentOf(h, nodes, parent, bit);
  }

  /** One level of a proof: its first link takes a node to its parent. */
  lemma ProofStep<T>(h: (T, T) -> T, nodes: seq<T>, index: nat)
    requires index < |nodes| && |nodes| > 1
    ensures var p, next := Proof(h, nodes, index), NextLevel(h, Pad(nodes));
            && index / 2 < |next| && |p| > 0 && p[1..] == Proof(h, next, index / 2)
            && (if p[0].side.Left? then h(p[0].sibling, nodes[index]) else h(nodes[index], p[0].sibling)) == next[index / 2]
  {
    SiblingFolds(h, nodes, index, index / 2, index % 2);
  }

  /** Every generated proof folds to the root. */
  lemma {:induction false} ProofFolds<T>(h: (T, T) -> T, nodes: seq<T>, index: nat)
    requires index < |nodes|
    ensures Fold(h, nodes[index], Proof(h, nodes, index)) == Root(h, nodes)
    decreases |nodes|
  {
    if |nodes| > 1 {
      ProofStep(h, nodes, index);
      var next := NextLevel(h, Pad(nodes));
      ProofFolds(h, next, index / 2);
      UnfoldFold(h, nodes[index], Proof(h, nodes, index));
      assert Root(h, nodes) == Root(h, next);
    }
  }

  lemma UnfoldFold<T>(h: (T, T) -> T, start: T, path: seq<Link<T>>)
    requires |path| > 0
    ensures Fold(h, start, path) ==
            Fold(h, if path[0].side.Left? then h(path[0].sibling, start) else h(start, path[0].sibling), path[1..])
  {
  }

  /** ceil(log2(n)): the height of the tree over n leaves. */
  ghost predicate IsCeilLog2(n: nat, k: nat) {
    n <= Pow2(k) && (k > 0 ==> Pow2(k - 1) < n)
  }

  function Height(n: nat): nat
    requires n > 0
  {
    if n == 1 then 0 else 1 + Height((n + 1) / 2)
  }

  lemma {:induction false} ProofLength<T>(h: (T, T) -> T, nodes: seq<T>, index: nat)
    requires index < |nodes|
    ensures |Proof(h, nodes, index)| == Height(|nodes|)
    decreases |nodes|
  {
    if |nodes| > 1 {
      ProofStep(h, nodes, index);
      ProofLength(h, NextLevel(h, Pad(nodes)), index / 2);
      assert |Proof(h, nodes, index)| == 1 + |Proof(h, nodes, index)[1..]|;
    }
  }

  lemma {:induction false} HeightIsCeilLog2(n: nat)
    requires n > 0
    ensures IsCeilLog2(n, Height(n))
  {
    if n > 1 {
      HeightIsCeilLog2((n + 1) / 2);
    }
  }

  /** An odd list longer than one has the root of itself with its last leaf again: a root does not fix the length. */
  lemma OddListSharesRoot<T>(h: (T, T) -> T, nodes: seq<T>)
    requires |nodes| > 1 && |nodes| % 2 != 0
    ensures Root(h, nodes + [nodes[|nodes| - 1]]) == Root(h, nodes)
  {
    var longer := nodes + [nodes[|nodes| - 1]];
    assert Pad(longer) == longer == Pad(nodes);
    assert Root(h, longer) == Root(h, NextLevel(h, longer));
  }

  // ---- Bottom-up equals top-down ----

  /** The perfect binary tree over 2^k leaves, from the top. */
  ghost function TreeRoot<T>(h: (T, T) -> T, leaves: seq<T>, k: nat): T
    requires |leaves| == Pow2(k)
  {
    if k == 0 then leaves[0]
    else h(TreeRoot(h, leaves[..Pow2(k - 1)], k - 1), TreeRoot(h, leaves[Pow2(k - 1)..], k - 1))
  }

  /** Two neighbouring blocks of leaves make one of twice the size. */
  ghost function JoinPairs<T>(blocks: seq<seq<T>>): (joined: seq<seq<T>>)
    requires |blocks| % 2 == 0
    ensures |joined| == |blocks| / 2
    ensures forall i | 0 <= i < |joined| :: joined[i] == blocks[2 * i] + blocks[2 * i + 1]
  {
    seq(|blocks| / 2, i requires 0 <= i < |blocks| / 2 => blocks[2 * i] + blocks[2 * i + 1])
  }

  /** Leaf blocks joined until one is left; an odd level repeats its last block. */
  ghost function Fill<T>(blocks: seq<seq<T>>): seq<T>
    requires |blocks| > 0
    decreases |blocks|
  {
    if |blocks| == 1 then blocks[0] else Fill(JoinPairs(Pad(blocks)))
  }

  ghost function Singles<T>(leaves: seq<T>): (blocks: seq<seq<T>>)
    ensures |blocks| == |leaves| && forall i | 0 <= i < |leaves| :: blocks[i] == [leaves[i]]
  {
    seq(|leaves|, i requires 0 <= i < |leaves| => [leaves[i]])
  }

  /** The leaves the code's tree really stands on. */
  ghost function PaddedLeaves<T>(leaves: seq<T>): seq<T>
    requires |leaves| > 0
  {
    Fill(Singles(leaves))
  }

  /** Each node is the root of the perfect tree over its block of 2^k leaves. */
  ghost predicate IsLevel<T>(h: (T, T) -> T, nodes: seq<T>, blocks: seq<seq<T>>, k: nat) {
    && |nodes| == |blocks|
    && forall i | 0 <= i < |nodes| :: |blocks[i]| == Pow2(k) && nodes[i] == TreeRoot(h, blocks[i], k)
  }

  lemma JoinedTree<T>(h: (T, T) -> T, x: seq<T>, y: seq<T>, k: nat)
    requires |x| == |y| == Pow2(k)
    ensures |x + y| == Pow2(k + 1) && TreeRoot(h, x + y, k + 1) == h(TreeRoot(h, x, k), TreeRoot(h, y, k))
  {
    assert (x + y)[..Pow2(k)] == x && (x + y)[Pow2(k)..] == y;
  }

  lemma NextIsLevel<T>(h: (T, T) -> T, nodes: seq<T>, blocks: seq<seq<T>>, k: nat)
    requires |nodes| > 0 && IsLevel(h, nodes, blocks, k)
    ensures IsLevel(h, NextLevel(h, Pad(nodes)), JoinPairs(Pad(blocks)), k + 1)
  {
    var ns, bs := Pad(nodes), Pad(blocks);
    assert IsLevel(h, ns, bs, k);
    forall i | 0 <= i < |ns| / 2
      ensures |JoinPairs(bs)[i]| == Pow2(k + 1) && NextLevel(h, ns)[i] == TreeRoot(h, JoinPairs(bs)[i], k + 1)
    {
      JoinedTree(h, bs[2 * i], bs[2 * i + 1], k);
    }
  }

  lemma {:induction false} LevelRoot<T>(h: (T, T) -> T, nodes: seq<T>, blocks: seq<seq<T>>, k: nat, top: nat)
    requires |nodes| > 0 && IsLevel(h, nodes, blocks, k) && top == k + Height(|nodes|)
    ensures |Fill(blocks)| == Pow2(top)
    ensures Root(h, nodes) == TreeRoot(h, Fill(blocks), top)
    decreases |nodes|
  {
    if |nodes| > 1 {
      var next, joined := NextLevel(h, Pad(nodes)), JoinPairs(Pad(blocks));
      NextIsLevel(h, nodes, blocks, k);
      assert Height(|nodes|) == 1 + Height(|next|);
      LevelRoot(h, next, joined, k + 1, top);
      assert Root(h, nodes) == Root(h, next) && Fill(blocks) == Fill(joined);
    }
  }

  lemma LeavesAreLevel<T>(h: (T, T) -> T, leaves: seq<T>)
    ensures IsLevel(h, leaves, Singles(leaves), 0)
  {
    forall i | 0 <= i < |leaves|
      ensures |Singles(leaves)[i]| == Pow2(0) && leaves[i] == TreeRoot(h, Singles(leaves)[i], 0)
    {
      assert Singles(leaves)[i] == [leaves[i]];
    }
  }

  /** The code's level-by-level root is the root of the perfect tree over the padded leaves. */
  lemma BottomUpIsTopDown<T>(h: (T, T) -> T, leaves: seq<T>)
    requires |leaves| > 0
    ensures |PaddedLeaves(leaves)| == Pow2(Height(|leaves|))
    ensures Root(h, leaves) == TreeRoot(h, PaddedLeaves(leaves), Height(|leaves|))
  {
    LeavesAreLevel(h, leaves);
    LevelRoot(h, leaves, Singles(leaves), 0, Height(|leaves|));
  }

  // ---- Soundness and binding ----

  /** The pairs hashed while the root is built. */
  ghost function HashedPairs<T>(h: (T, T) -> T, nodes: seq<T>): set<(T, T)>
    requires |nodes| > 0
    decreases |nodes|
  {
    if |nodes| == 1 then {} else LevelPairs(Pad(nodes)) + HashedPairs(h, NextLevel(h, Pad(nodes)))
  }

  ghost function LevelPairs<T>(nodes: seq<T>): set<(T, T)>
    requires |nodes| % 2 == 0
  {
    set i | 0 <= i < |nodes| / 2 :: (nodes[2 * i], nodes[2 * i + 1])
  }

  function Pair<T>(start: T, l: Link<T>): (T, T) {
    if l.side.Left? then (l.sibling, start) else (start, l.sibling)
  }

  /** The pairs hashed while a path is folded. */
  ghost function FoldedPairs<T>(h: (T, T) -> T, start: T, path: seq<Link<T>>): set<(T, T)>
    decreases |path|
  {
    if path == [] then {}
    else
      var p := Pair(start, path[0]);
      {p} + FoldedPairs(h, h(p.0, p.1), path[1..])
  }

  /** No two different pairs among those given have the same hash. */
  ghost predicate CollisionFree<T(!new)>(h: (T, T) -> T, pairs: set<(T, T)>) {
    forall p, q | p in pairs && q in pairs && h(p.0, p.1) == h(q.0, q.1) :: p == q
  }

  /** A hash without collisions, to show that the assumption can be met: terms instead of numbers. */
  datatype Term = Datum(n: int) | Join(left: Term, right: Term)

  lemma TermsNeverCollide(pairs: set<(Term, Term)>)
    ensures CollisionFree((a: Term, b: Term) => Join(a, b), pairs)
  {
  }

  /** The position the labels name: a left sibling is a one bit, lowest bit first. */
  function Position<T>(path: seq<Link<T>>): (i: nat)
    ensures i < Pow2(|path|)
    decreases |path|
  {
    if path == [] then 0 else (if path[0].side.Left? then 1 else 0) + 2 * Position(path[1..])
  }

  /** The leaf of a list of n that stands at a position of its padded tree. */
  function LeafAt(n: nat, position: nat): (i: nat)
    requires n > 0
    ensures i < n
    decreases n
  {
    if n == 1 then 0
    else
      var i := 2 * LeafAt((n + 1) / 2, position / 2) + position % 2;
      if i == n then n - 1 else i
  }

  /** One step of a path against one level of the tree. */
  lemma PairAtLevel<T(!new)>(h: (T, T) -> T, nodes: seq<T>, pairs: set<(T, T)>, p: (T, T), j: nat)
    requires |nodes| % 2 == 0 && 2 * j + 1 < |nodes| && LevelPairs(nodes) <= pairs && p in pairs && CollisionFree(h, pairs)
    requires h(p.0, p.1) == NextLevel(h, nodes)[j]
    ensures p == (nodes[2 * j], nodes[2 * j + 1])
  {
    var q := (nodes[2 * j], nodes[2 * j + 1]);
    assert q in LevelPairs(nodes);
    assert NextLevel(h, nodes)[j] == h(q.0, q.1);
  }

  lemma SmallerPairs<T(!new)>(h: (T, T) -> T, pairs: set<(T, T)>, fewer: set<(T, T)>)
    requires CollisionFree(h, pairs) && fewer <= pairs
    ensures CollisionFree(h, fewer)
  {
  }

  /** The tree one level up. */
  lemma LevelUp<T>(h: (T, T) -> T, nodes: seq<T>)
    requires |nodes| > 1
    ensures var up := NextLevel(h, Pad(nodes));
            && 0 < |up| < |nodes| && |up| == (|nodes| + 1) / 2 && Root(h, nodes) == Root(h, up)
            && HashedPairs(h, nodes) == LevelPairs(Pad(nodes)) + HashedPairs(h, up)
  {
  }

  /** The path one level up. */
  lemma PathUp<T>(h: (T, T) -> T, start: T, path: seq<Link<T>>)
    requires |path| > 0
    ensures var p, rest := Pair(start, path[0]), path[1..];
            && Fold(h, start, path) == Fold(h, h(p.0, p.1), rest)
            && FoldedPairs(h, start, path) == {p} + FoldedPairs(h, h(p.0, p.1), rest)
            && Position(path) == (if path[0].side.Left? then 1 else 0) + 2 * Position(rest)
  {
  }

  lemma LeafAtChild(n: nat, up: nat, position: nat, bit: nat, parent: nat)
    requires n > 1 && bit <= 1 && position == bit + 2 * parent && up == (n + 1) / 2
    ensures LeafAt(n, position) == var i := 2 * LeafAt(up, parent) + bit; if i == n then n - 1 else i
  {
    assert position / 2 == parent && position % 2 == bit;
  }

  lemma PadAt<T>(nodes: seq<T>, i: nat)
    requires 0 < |nodes| && i < |Pad(nodes)|
    ensures Pad(nodes)[i] == nodes[if i == |nodes| then |nodes| - 1 else i]
  {
  }

  /** A parent that is right makes both its children right. */
  lemma ChildOfLeaf<T(!new)>(h: (T, T) -> T, nodes: seq<T>, pairs: set<(T, T)>, start: T, l: Link<T>, parent: nat, position: nat)
    requires |nodes| > 1 && LevelPairs(Pad(nodes)) <= pairs && Pair(start, l) in pairs && CollisionFree(h, pairs)
    requires var j := LeafAt((|nodes| + 1) / 2, parent);
             h(Pair(start, l).0, Pair(start, l).1) == NextLevel(h, Pad(nodes))[j]
    requires position == (if l.side.Left? then 1 else 0) + 2 * parent
    ensures start == nodes[LeafAt(|nodes|, position)]
  {
    var j := LeafAt((|nodes| + 1) / 2, parent);
    PairAtLevel(h, Pad(nodes), pairs, Pair(start, l), j);
    if l.side.Left? {
      LeafAtChild(|nodes|, (|nodes| + 1) / 2, position, 1, parent);
      PadAt(nodes, 2 * j + 1);
    } else {
      LeafAtChild(|nodes|, (|nodes| + 1) / 2, position, 0, parent);
      PadAt(nodes, 2 * j);
    }
  }

  /** Soundness, level by level: a path of the tree's height that folds to the root starts at the leaf its labels name. */
  lemma {:induction false} PathStartsAtLeaf<T(!new)>(h: (T, T) -> T, nodes: seq<T>, start: T, path: seq<Link<T>>)
    requires |nodes| > 0 && |path| == Height(|nodes|) && Fold(h, start, path) == Root(h, nodes)
    requires CollisionFree(h, HashedPairs(h, nodes) + FoldedPairs(h, start, path))
    ensures start == nodes[LeafAt(|nodes|, Position(path))]
    decreases |nodes|
  {
    if |nodes| > 1 {
      var all := HashedPairs(h, nodes) + FoldedPairs(h, start, path);
      var up, p, rest := NextLevel(h, Pad(nodes)), Pair(start, path[0]), path[1..];
      LevelUp(h, nodes);
      PathUp(h, start, path);
      SmallerPairs(h, all, HashedPairs(h, up) + FoldedPairs(h, h(p.0, p.1), rest));
      PathStartsAtLeaf(h, up, h(p.0, p.1), rest);
      ChildOfLeaf(h, nodes, all, start, path[0], Position(rest), Position(path));
    }
  }

  lemma OneFillUp<T>(blocks: seq<seq<T>>, s: nat)
    requires |blocks| > 1 && (forall i | 0 <= i < |blocks| :: |blocks[i]| == s)
    ensures var up := JoinPairs(Pad(blocks));
            && 0 < |up| < |blocks| && |up| == (|blocks| + 1) / 2 && Fill(blocks) == Fill(up)
            && forall i | 0 <= i < |up| :: |up[i]| == 2 * s
  {
    assert forall i | 0 <= i < |Pad(blocks)| :: |Pad(blocks)[i]| == s;
  }

  lemma JoinedAt<T>(blocks: seq<seq<T>>, s: nat, j: nat, bit: nat, r: nat, place: nat)
    requires |blocks| > 0 && (forall i | 0 <= i < |blocks| :: |blocks[i]| == s) && j < (|blocks| + 1) / 2 && bit <= 1 && r < s
    requires place == if bit == 0 then r else s + r
    ensures |JoinPairs(Pad(blocks))[j]| == 2 * s
    ensures var i := 2 * j + bit;
            JoinPairs(Pad(blocks))[j][place] == blocks[if i == |blocks| then |blocks| - 1 else i][r]
  {
    PadAt(blocks, 2 * j);
    PadAt(blocks, 2 * j + 1);
  }

  /** The leaf a position names is the padded leaf at that position; with blocks of s leaves, place r of block q. */
  lemma {:induction false} FillHolds<T>(blocks: seq<seq<T>>, s: nat, q: nat, r: nat, at: nat)
    requires |blocks| > 0 && (forall i | 0 <= i < |blocks| :: |blocks[i]| == s) && q < Pow2(Height(|blocks|)) && r < s
    requires at == q * s + r
    ensures at < |Fill(blocks)| && Fill(blocks)[at] == blocks[LeafAt(|blocks|, q)][r]
    decreases |blocks|
  {
    if |blocks| > 1 {
      var up, parent, bit := JoinPairs(Pad(blocks)), q / 2, q % 2;
      var place := if bit == 0 then r else s + r;
      OneFillUp(blocks, s);
      Halve(|blocks|, q, parent, bit);
      PlaceInBlock(q, s, r, parent, bit, place);
      FillHolds(up, 2 * s, parent, place, at);
      LeafOfJoined(blocks, up, s, q, r, parent, bit, place);
    } else {
      assert q == 0;
      assert at == r && Fill(blocks) == blocks[0] && LeafAt(|blocks|, q) == 0;
    }
  }

  lemma LeafOfJoined<T>(blocks: seq<seq<T>>, up: seq<seq<T>>, s: nat, q: nat, r: nat, parent: nat, bit: nat, place: nat)
    requires |blocks| > 1 && (forall i | 0 <= i < |blocks| :: |blocks[i]| == s) && up == JoinPairs(Pad(blocks)) && r < s
    requires q == 2 * parent + bit && bit <= 1 && place == (if bit == 0 then r else s + r) && |up| == (|blocks| + 1) / 2
    ensures place < |up[LeafAt(|up|, parent)]| && up[LeafAt(|up|, parent)][place] == blocks[LeafAt(|blocks|, q)][r]
  {
    LeafAtChild(|blocks|, |up|, q, bit, parent);
    JoinedLeaf(blocks, up, s, LeafAt(|up|, parent), LeafAt(|blocks|, q), bit, r, place);
  }

  lemma JoinedLeaf<T>(blocks: seq<seq<T>>, up: seq<seq<T>>, s: nat, j: nat, leaf: nat, bit: nat, r: nat, place: nat)
    requires |blocks| > 0 && (forall i | 0 <= i < |blocks| :: |blocks[i]| == s) && up == JoinPairs(Pad(blocks)) && r < s
    requires j < |up| == (|blocks| + 1) / 2 && bit <= 1 && place == if bit == 0 then r else s + r
    requires leaf == if 2 * j + bit == |blocks| then |blocks| - 1 else 2 * j + bit
    ensures leaf < |blocks| && place < |up[j]| && up[j][place] == blocks[leaf][r]
  {
    JoinedAt(blocks, s, j, bit, r, place);
  }

  lemma Halve(n: nat, q: nat, parent: nat, bit: nat)
    requires n > 1 && q < Pow2(Height(n)) && parent == q / 2 && bit == q % 2
    ensures q == 2 * parent + bit && bit <= 1 && parent < Pow2(Height((n + 1) / 2))
  {
    assert Height(n) == 1 + Height((n + 1) / 2);
  }

  lemma PlaceInBlock(q: nat, s: nat, r: nat, parent: nat, bit: nat, place: nat)
    requires q == 2 * parent + bit && bit <= 1 && r < s && place == if bit == 0 then r else s + r
    ensures place < 2 * s && parent * (2 * s) + place == q * s + r
  {
    assert bit * s == if bit == 0 then 0 else s;
    assert (2 * parent + bit) * s == parent * (2 * s) + bit * s;
  }

  /** Soundness: a path of the tree's height that folds to the root proves its start is the padded leaf its labels name,
      unless two of the pairs hashed on the way collide. */
  lemma ProofSound<T(!new)>(h: (T, T) -> T, leaves: seq<T>, start: T, path: seq<Link<T>>)
    requires |leaves| > 0 && |path| == Height(|leaves|) && Fold(h, start, path) == Root(h, leaves)
    requires CollisionFree(h, HashedPairs(h, leaves) + FoldedPairs(h, start, path))
    ensures Position(path) < |PaddedLeaves(leaves)| && start == PaddedLeaves(leaves)[Position(path)]
    ensures start in leaves
  {
    PathStartsAtLeaf(h, leaves, start, path);
    SingleFill(leaves, Position(path));
  }

  lemma SingleFill<T>(leaves: seq<T>, position: nat)
    requires |leaves| > 0 && position < Pow2(Height(|leaves|))
    ensures position < |PaddedLeaves(leaves)| && PaddedLeaves(leaves)[position] == leaves[LeafAt(|leaves|, position)]
  {
    FillHolds(Singles(leaves), 1, position, 0, position);
  }

  /** Binding: lists of one length with one root are equal, unless two of the pairs hashed collide. */
  lemma {:induction false} RootBinds<T(!new)>(h: (T, T) -> T, a: seq<T>, b: seq<T>)
    requires |a| == |b| > 0 && Root(h, a) == Root(h, b)
    requires CollisionFree(h, HashedPairs(h, a) + HashedPairs(h, b))
    ensures a == b
    decreases |a|
  {
    if |a| > 1 {
      var all := HashedPairs(h, a) + HashedPairs(h, b);
      var up, up' := NextLevel(h, Pad(a)), NextLevel(h, Pad(b));
      LevelUp(h, a);
      LevelUp(h, b);
      SmallerPairs(h, all, HashedPairs(h, up) + HashedPairs(h, up'));
      RootBinds(h, up, up');
      forall i | 0 <= i < |a|
        ensures a[i] == b[i]
      {
        NodesAgree(h, a, b, all, i, i / 2, i % 2);
      }
    }
  }

  lemma NodesAgree<T(!new)>(h: (T, T) -> T, a: seq<T>, b: seq<T>, pairs: set<(T, T)>, i: nat, j: nat, bit: nat)
    requires |a| == |b| && i < |a| && i == 2 * j + bit && bit <= 1 && NextLevel(h, Pad(a)) == NextLevel(h, Pad(b))
    requires LevelPairs(Pad(a)) <= pairs && LevelPairs(Pad(b)) <= pairs && CollisionFree(h, pairs)
    ensures a[i] == b[i]
  {
    PairsAgree(h, a, b, pairs, j);
    PadAt(a, i);
    PadAt(b, i);
  }

  lemma PairsAgree<T(!new)>(h: (T, T) -> T, a: seq<T>, b: seq<T>, pairs: set<(T, T)>, j: nat)
    requires |a| == |b| && j < |Pad(a)| / 2 && NextLevel(h, Pad(a)) == NextLevel(h, Pad(b))
    requires LevelPairs(Pad(a)) <= pairs && LevelPairs(Pad(b)) <= pairs && CollisionFree(h, pairs)
    ensures Pad(a)[2 * j] == Pad(b)[2 * j] && Pad(a)[2 * j + 1] == Pad(b)[2 * j + 1]
  {
    var x := Pad(a);
    var p := (x[2 * j], x[2 * j + 1]);
    assert p in LevelPairs(x);
    assert NextLevel(h, x)[j] == h(p.0, p.1);
    PairAtLevel(h, Pad(b), pairs, p, j);
  }
}
