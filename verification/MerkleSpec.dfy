/** The reference tree of RFC 6962, and the fold that checks an audit path.

    `MTH` and `Path` are the recursive definitions of sections 2.1 and 2.1.1 of RFC 6962, without
    the 0x00 and 0x01 prefixes of that standard: an interior node is SHA-256(left || right) and a
    leaf is taken unchanged. */
module MerkleSpec {
  import opened Basics
  import opened Records

  function NodeHash(left: Digest, right: Digest): Digest {
    Sha256(left + right)
  }

  // ----- Powers of two -----

  predicate IsPow2(k: nat) {
    k == 1 || (k > 1 && k % 2 == 0 && IsPow2(k / 2))
  }

  function Pow2(e: nat): (k: nat)
    ensures k > 0
  {
    if e == 0 then 1 else 2 * Pow2(e - 1)
  }

  lemma {:induction false} Pow2sDoubleApart(a: nat, b: nat)
    requires IsPow2(a) && IsPow2(b) && a < b
    ensures 2 * a <= b
  {
    if a > 1 {
      Pow2sDoubleApart(a / 2, b / 2);
    }
  }

  /** The largest power of two below n. */
  function SplitPoint(n: nat): (k: nat)
    requires n >= 2
    ensures k < n <= 2 * k
  {
    LargestBelow(1, n)
  }

  function LargestBelow(k: nat, n: nat): (r: nat)
    requires 1 <= k < n
    ensures r < n <= 2 * r
    decreases n - k
  {
    if 2 * k < n then LargestBelow(2 * k, n) else k
  }

  lemma {:induction false} DoubleIsPow2(k: nat)
    requires IsPow2(k)
    ensures IsPow2(2 * k)
  {
    assert 2 * k / 2 == k;
  }

  lemma {:induction false} LargestBelowIsPow2(k: nat, n: nat)
    requires 1 <= k < n && IsPow2(k)
    ensures IsPow2(LargestBelow(k, n))
    decreases n - k
  {
    hide IsPow2;
    if 2 * k < n {
      DoubleIsPow2(k);
      LargestBelowIsPow2(2 * k, n);
    }
  }

  lemma {:induction false} SplitPointIsPow2(n: nat)
    requires n >= 2
    ensures IsPow2(SplitPoint(n))
  {
    LargestBelowIsPow2(1, n);
  }

  /** Pairing up a level halves the split point. */
  lemma {:induction false} SplitPointHalves(n: nat)
    requires n > 2
    ensures SplitPoint(n) % 2 == 0 && SplitPoint(n) >= 2
    ensures (n + 1) / 2 >= 2 && SplitPoint((n + 1) / 2) == SplitPoint(n) / 2
  {
    SplitPointIsPow2(n);
    SplitPointIsPow2((n + 1) / 2);
    var k, h := SplitPoint(n) / 2, SplitPoint((n + 1) / 2);
    if k < h {
      Pow2sDoubleApart(k, h);
    } else if h < k {
      Pow2sDoubleApart(h, k);
    }
  }

  // ----- The reference tree -----

  /** The Merkle tree hash of section 2.1 of RFC 6962. */
  function MTH(d: seq<Digest>): Digest
    requires d != []
    decreases |d|
  {
    if |d| == 1 then d[0]
    else
      var k := SplitPoint(|d|);
      NodeHash(MTH(d[..k]), MTH(d[k..]))
  }

  /** The audit path of section 2.1.1 of RFC 6962, deepest sibling first. A step is marked `right`
      when the sibling stands to the right of the path. */
  function Path(m: nat, d: seq<Digest>): seq<ProofStep>
    requires m < |d|
    decreases |d|
  {
    if |d| == 1 then []
    else
      var k := SplitPoint(|d|);
      if m < k then Path(m, d[..k]) + [ProofStep(MTH(d[k..]), true)]
      else Path(m - k, d[k..]) + [ProofStep(MTH(d[..k]), false)]
  }

  lemma LoneRoot(d: seq<Digest>)
    requires |d| == 1
    ensures MTH(d) == d[0]
  {
  }

  lemma PathUnfolds(m: nat, d: seq<Digest>, k: nat)
    requires |d| >= 2 && m < |d| && k == SplitPoint(|d|)
    ensures m < k ==> Path(m, d) == Path(m, d[..k]) + [ProofStep(MTH(d[k..]), true)]
    ensures m >= k ==> Path(m, d) == Path(m - k, d[k..]) + [ProofStep(MTH(d[..k]), false)]
  {
  }

  lemma LonePath(d: seq<Digest>)
    requires |d| == 1
    ensures Path(0, d) == []
  {
  }

  // ----- Checking a path -----

  function FoldStep(running: Digest, step: ProofStep): Digest {
    if step.right then NodeHash(running, step.siblingHash) else NodeHash(step.siblingHash, running)
  }

  function FoldPath(leaf: Digest, path: seq<ProofStep>): Digest {
    if path == [] then leaf else FoldStep(FoldPath(leaf, Front(path)), Last(path))
  }

  /** The audit path of a leaf folds to the reference root. */
  lemma {:induction false} PathFoldsToMTH(m: nat, d: seq<Digest>)
    requires m < |d|
    ensures FoldPath(d[m], Path(m, d)) == MTH(d)
    decreases |d|
  {
    if |d| > 1 {
      var k := SplitPoint(|d|);
      if m < k {
        PathFoldsToMTH(m, d[..k]);
        assert Front(Path(m, d)) == Path(m, d[..k]);
      } else {
        PathFoldsToMTH(m - k, d[k..]);
        assert Front(Path(m, d)) == Path(m - k, d[k..]);
      }
    }
  }
}
