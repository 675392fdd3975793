/** The Merkle tree of `merkle.rs` and the verifier of `lib.rs`, loop by loop. */
module Merkle {
  import opened Basics
  import opened Records
  import opened MerkleSpec
  import opened MerkleLevels

  method HashPair(left: Digest, right: Digest) returns (d: Digest)
    ensures d == NodeHash(left, right) == Sha256(left + right)
  {
    var buf := new byte[2 * HASH_LEN];
    forall i | 0 <= i < HASH_LEN {
      buf[i] := left[i];
    }
    forall i | 0 <= i < HASH_LEN {
      buf[HASH_LEN + i] := right[i];
    }
    assert buf[..] == left + right;
    d := Sha256(buf[..]);
  }

  method BuildNextLevel(level: seq<Digest>) returns (next: seq<Digest>)
    ensures next == NextLevel(level)
  {
    hide NextLevel;
    next := [];
    var i := 0;
    while i + 1 < |level|
      invariant i <= |level| && i % 2 == 0
      invariant next == NextLevel(level)[..i / 2]
    {
      NextLevelAt(level, i / 2);
      var node := HashPair(level[i], level[i + 1]);
      next := next + [node];
      i := i + 2;
    }
    if i < |level| {
      NextLevelAt(level, i / 2);
      next := next + [level[i]];
    }
  }

  /** How often a level of n nodes is replaced by the one above until one node is left. */
  function Rounds(n: nat): nat {
    if n <= 1 then 0 else 1 + Rounds((n + 1) / 2)
  }

  /** The number of rounds is the binary logarithm of n, rounded up. */
  lemma {:induction false} RoundsIsCeilLog2(n: nat)
    requires n >= 1
    ensures n <= Pow2(Rounds(n))
    ensures n > 1 ==> Rounds(n) > 0 && Pow2(Rounds(n) - 1) < n
  {
    if n > 1 {
      RoundsIsCeilLog2((n + 1) / 2);
    }
  }

  /** The root is the reference tree hash; the loop takes ceil(log2 n) rounds. */
  method BuildRoot(leaves: seq<Digest>) returns (root: Digest, ghost rounds: nat)
    ensures leaves == [] ==> root == ZERO_HASH
    ensures leaves != [] ==> root == MTH(leaves)
    ensures |leaves| <= Pow2(rounds)
    ensures rounds > 0 ==> Pow2(rounds - 1) < |leaves|
  {
    rounds := 0;
    if |leaves| == 0 {
      root := ZERO_HASH;
      return;
    }
    hide MTH, NextLevel, Pow2;
    var level := leaves;
    while |level| > 1
      invariant level != [] && MTH(level) == MTH(leaves)
      invariant rounds + Rounds(|level|) == Rounds(|leaves|)
    {
      NextLevelKeepsMTH(level);
      level := BuildNextLevel(level);
      rounds := rounds + 1;
    }
    root := level[0];
    LoneRoot(level);
    RoundsIsCeilLog2(|leaves|);
  }

  /** Recording this level's sibling moves the rest of the path one level up. */
  lemma {:induction false} PathMovesUp(path: seq<ProofStep>, index: nat, level: seq<Digest>)
    requires |level| >= 2 && index < |level|
    ensures path + SiblingStep(level, index) + Path(index / 2, NextLevel(level)) == path + Path(index, level)
  {
    hide Path, NextLevel, SiblingStep;
    PathByLevels(index, level);
  }

  lemma RecordsSibling(path: seq<ProofStep>, level: seq<Digest>, index: nat)
    requires index < |level|
    ensures var sibling := if index % 2 == 0 then index + 1 else index - 1;
      path + SiblingStep(level, index)
      == if sibling < |level| then path + [ProofStep(level[sibling], index % 2 == 0)] else path
  {
  }

  /** `build_proof`: the reference root and the reference audit path of one leaf. */
  method BuildProof(leaves: seq<Digest>, leafIndex: nat) returns (root: Digest, path: seq<ProofStep>)
    requires leafIndex < |leaves|
    ensures root == MTH(leaves)
    ensures path == Path(leafIndex, leaves)
    ensures FoldPath(leaves[leafIndex], path) == root
  {
    hide MTH, NextLevel, Path, SiblingStep, FoldPath;
    path := [];
    var level := leaves;
    var index: nat := leafIndex;
    while |level| > 1
      invariant index < |level|
      invariant MTH(level) == MTH(leaves)
      invariant path + Path(index, level) == Path(leafIndex, leaves)
    {
      NextLevelKeepsMTH(level);
      PathMovesUp(path, index, level);
      RecordsSibling(path, level, index);
      var isLeft := index % 2 == 0;
      var sibling := if isLeft then index + 1 else index - 1;
      if sibling < |level| {
        path := path + [ProofStep(level[sibling], isLeft)];
      }
      level := BuildNextLevel(level);
      index := index / 2;
    }
    root := level[0];
    LoneRoot(level);
    LonePath(level);
    PathFoldsToMTH(leafIndex, leaves);
  }

  /** `verify_inclusion_proof`: accepts exactly the proofs whose path folds to the expected root. */
  method VerifyInclusionProof(proof: InclusionProof, expectedRoot: Digest) returns (r: Result<()>)
    ensures r == InclusionVerdict(proof, expectedRoot)
    ensures r.Ok? <==> FoldPath(proof.entryHash, proof.path) == expectedRoot
    ensures r.Err? ==> r == Err(InclusionMismatch(proof.seqno, proof.segmentId))
  {
    var running := proof.entryHash;
    var i := 0;
    while i < |proof.path|
      invariant i <= |proof.path| && running == FoldPath(proof.entryHash, proof.path[..i])
    {
      var step := proof.path[i];
      assert Front(proof.path[..i + 1]) == proof.path[..i];
      if step.right {
        running := HashPair(running, step.siblingHash);
      } else {
        running := HashPair(step.siblingHash, running);
      }
      i := i + 1;
    }
    assert proof.path[..i] == proof.path;
    if running == expectedRoot {
      r := Ok(());
    } else {
      r := Err(InclusionMismatch(proof.seqno, proof.segmentId));
    }
  }

  function InclusionVerdict(proof: InclusionProof, expectedRoot: Digest): Result<()> {
    if FoldPath(proof.entryHash, proof.path) == expectedRoot then Ok(())
    else Err(InclusionMismatch(proof.seqno, proof.segmentId))
  }
}
