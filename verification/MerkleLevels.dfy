/** Building a tree by levels: pairing up neighbours and promoting an unpaired last node keeps the root
    and peels the audit path. */
module MerkleLevels {
  import opened Basics
  import opened Records
  import opened MerkleSpec

  function NextLevel(level: seq<Digest>): (next: seq<Digest>)
    ensures |next| == (|level| + 1) / 2
  {
    if |level| < 2 then level else [NodeHash(level[0], level[1])] + NextLevel(level[2..])
  }

  function SiblingStep(level: seq<Digest>, i: nat): seq<ProofStep>
    requires i < |level|
  {
    if i % 2 == 1 then [ProofStep(level[i - 1], false)]
    else if i + 1 < |level| then [ProofStep(level[i + 1], true)]
    else []
  }

  lemma {:induction false} NextLevelAt(level: seq<Digest>, j: nat)
    requires j < (|level| + 1) / 2
    ensures NextLevel(level)[j]
      == if 2 * j + 1 < |level| then NodeHash(level[2 * j], level[2 * j + 1]) else level[2 * j]
  {
    if |level| >= 2 && j > 0 {
      NextLevelAt(level[2..], j - 1);
    }
  }

  /** Cutting a level after an even number of nodes cuts the next level after half as many. */
  lemma {:induction false} NextLevelSplits(level: seq<Digest>, k: nat)
    requires k % 2 == 0 && k <= |level|
    ensures NextLevel(level)[..k / 2] == NextLevel(level[..k])
    ensures NextLevel(level)[k / 2..] == NextLevel(level[k..])
  {
    hide NextLevel, NodeHash;
    forall j | 0 <= j < k / 2 ensures NextLevel(level)[..k / 2][j] == NextLevel(level[..k])[j] {
      NextLevelAt(level, j);
      NextLevelAt(level[..k], j);
    }
    forall j | 0 <= j < (|level| - k + 1) / 2 ensures NextLevel(level)[k / 2..][j] == NextLevel(level[k..])[j] {
      NextLevelAt(level, k / 2 + j);
      NextLevelAt(level[k..], j);
    }
  }

  /** Replacing a level by the next one keeps the reference root. */
  lemma {:induction false} NextLevelKeepsMTH(d: seq<Digest>)
    requires |d| >= 2
    ensures MTH(NextLevel(d)) == MTH(d)
    decreases |d|
  {
    if |d| > 2 {
      var k := SplitPoint(|d|);
      SplitPointHalves(|d|);
      NextLevelSplits(d, k);
      NextLevelKeepsMTH(d[..k]);
      if |d[k..]| >= 2 {
        NextLevelKeepsMTH(d[k..]);
      }
    } else {
      assert d[2..] == [];
      assert NextLevel(d) == [NodeHash(d[0], d[1])];
    }
  }

  lemma {:induction false} NextLevelHalvesKeepMTH(d: seq<Digest>, k: nat)
    requires |d| > 2 && k == SplitPoint(|d|)
    ensures k % 2 == 0 && k >= 2 && |NextLevel(d)| >= 2 && SplitPoint(|NextLevel(d)|) == k / 2
    ensures NextLevel(d)[..k / 2] == NextLevel(d[..k]) && MTH(NextLevel(d)[..k / 2]) == MTH(d[..k])
    ensures NextLevel(d)[k / 2..] == NextLevel(d[k..]) && MTH(NextLevel(d)[k / 2..]) == MTH(d[k..])
  {
    hide MTH, NextLevel, SplitPoint, IsPow2;
    SplitPointHalves(|d|);
    NextLevelSplits(d, k);
    NextLevelKeepsMTH(d[..k]);
    if |d[k..]| >= 2 {
      NextLevelKeepsMTH(d[k..]);
    } else {
      assert NextLevel(d[k..]) == d[k..] by { LoneLevel(d[k..]); }
    }
  }

  lemma LoneLevel(d: seq<Digest>)
    requires |d| == 1
    ensures NextLevel(d) == d
  {
  }

  /** The audit path is the sibling on this level followed by the path on the next level. */
  lemma {:induction false} PathByLevels(m: nat, d: seq<Digest>)
    requires |d| >= 2 && m < |d|
    ensures Path(m, d) == SiblingStep(d, m) + Path(m / 2, NextLevel(d))
    decreases |d|
  {
    if |d| == 2 {
      assert d[2..] == [];
      assert NextLevel(d) == [NodeHash(d[0], d[1])];
      PathUnfolds(m, d, 1);
    } else {
      PathByLevelsStep(m, d);
    }
  }

  lemma {:induction false} PathByLevelsStep(m: nat, d: seq<Digest>)
    requires |d| > 2 && m < |d|
    ensures Path(m, d) == SiblingStep(d, m) + Path(m / 2, NextLevel(d))
    decreases |d|, 0
  {
    hide Path, MTH, NextLevel;
    var k, next := SplitPoint(|d|), NextLevel(d);
    NextLevelHalvesKeepMTH(d, k);
    PathUnfolds(m, d, k);
    PathUnfolds(m / 2, next, k / 2);
    if m < k {
      PathByLevels(m, d[..k]);
      assert SiblingStep(d[..k], m) == SiblingStep(d, m);
    } else {
      assert m / 2 - k / 2 == (m - k) / 2;
      if |d[k..]| >= 2 {
        PathByLevels(m - k, d[k..]);
        assert SiblingStep(d[k..], m - k) == SiblingStep(d, m);
      } else {
        LonePath(d[k..]);
        LonePath(next[k / 2..]);
      }
    }
  }
}
