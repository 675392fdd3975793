/** What a root and an accepted path bind, with the collision that two different ones contain. */
module MerkleBinding {
  import opened Basics
  import opened Records
  import opened MerkleSpec

  /** The collision that two different leaf lists of one length and one root must contain. */
  function RootCollision(a: seq<Digest>, b: seq<Digest>): Break
    requires |a| == |b| > 0
    decreases |a|
  {
    if |a| == 1 then Collision(a[0], b[0])
    else
      var k := SplitPoint(|a|);
      if MTH(a[..k]) + MTH(a[k..]) != MTH(b[..k]) + MTH(b[k..]) then
        Collision(MTH(a[..k]) + MTH(a[k..]), MTH(b[..k]) + MTH(b[k..]))
      else if a[..k] != b[..k] then RootCollision(a[..k], b[..k])
      else RootCollision(a[k..], b[k..])
  }

  lemma {:induction false} DigestPairsSplit(a: Digest, b: Digest, c: Digest, d: Digest)
    requires a + b == c + d
    ensures a == c && b == d
  {
    assert a == (a + b)[..HASH_LEN] && b == (a + b)[HASH_LEN..];
    assert c == (c + d)[..HASH_LEN] && d == (c + d)[HASH_LEN..];
  }

  lemma RootUnfolds(d: seq<Digest>, k: nat)
    requires |d| >= 2 && k == SplitPoint(|d|)
    ensures MTH(d) == Sha256(MTH(d[..k]) + MTH(d[k..]))
  {
  }

  /** The root binds the leaves: equal roots over lists of one length mean equal lists, or
      `RootCollision` is two different messages with one SHA-256 digest. */
  lemma {:induction false} RootBindsLeaves(a: seq<Digest>, b: seq<Digest>)
    requires |a| == |b| > 0 && MTH(a) == MTH(b)
    ensures a == b || RootCollision(a, b).Genuine()
    decreases |a|
  {
    hide MTH;
    if |a| == 1 {
      assert MTH(a) == a[0] && MTH(b) == b[0] by { LoneRoot(a); LoneRoot(b); }
    } else {
      var k := SplitPoint(|a|);
      RootUnfolds(a, k);
      RootUnfolds(b, k);
      if MTH(a[..k]) + MTH(a[k..]) == MTH(b[..k]) + MTH(b[k..]) {
        DigestPairsSplit(MTH(a[..k]), MTH(a[k..]), MTH(b[..k]), MTH(b[k..]));
        if a[..k] != b[..k] {
          RootBindsLeaves(a[..k], b[..k]);
        } else {
          RootBindsLeaves(a[k..], b[k..]);
          assert a == a[..k] + a[k..] && b == b[..k] + b[k..];
        }
      }
    }
  }

  predicate SameDirections(p: seq<ProofStep>, q: seq<ProofStep>) {
    |p| == |q| && forall i | 0 <= i < |p| :: p[i].right == q[i].right
  }

  function StepMessage(running: Digest, step: ProofStep): Bytes {
    if step.right then running + step.siblingHash else step.siblingHash + running
  }

  /** The collision that two different paths with one set of directions and one result contain. */
  function PathCollision(leaf: Digest, p: seq<ProofStep>, leaf': Digest, q: seq<ProofStep>): Break
    requires |p| == |q|
  {
    if p == [] then Collision(leaf, leaf')
    else
      var m, m' := StepMessage(FoldPath(leaf, Front(p)), Last(p)), StepMessage(FoldPath(leaf', Front(q)), Last(q));
      if m != m' then Collision(m, m') else PathCollision(leaf, Front(p), leaf', Front(q))
  }

  lemma FoldUnfolds(leaf: Digest, p: seq<ProofStep>)
    requires p != []
    ensures FoldPath(leaf, p) == Sha256(StepMessage(FoldPath(leaf, Front(p)), Last(p)))
  {
  }

  lemma {:induction false} StepsSplit(r: Digest, s: ProofStep, r': Digest, s': ProofStep)
    requires s.right == s'.right && StepMessage(r, s) == StepMessage(r', s')
    ensures r == r' && s == s'
  {
    if s.right {
      DigestPairsSplit(r, s.siblingHash, r', s'.siblingHash);
    } else {
      DigestPairsSplit(s.siblingHash, r, s'.siblingHash, r');
    }
  }

  lemma {:induction false} FoldBindsPath(leaf: Digest, p: seq<ProofStep>, leaf': Digest, q: seq<ProofStep>)
    requires SameDirections(p, q) && FoldPath(leaf, p) == FoldPath(leaf', q)
    ensures (leaf == leaf' && p == q) || PathCollision(leaf, p, leaf', q).Genuine()
  {
    if p != [] {
      hide StepMessage, FoldStep;
      var r, r' := FoldPath(leaf, Front(p)), FoldPath(leaf', Front(q));
      FoldUnfolds(leaf, p);
      FoldUnfolds(leaf', q);
      if StepMessage(r, Last(p)) == StepMessage(r', Last(q)) {
        StepsSplit(r, Last(p), r', Last(q));
        FoldBindsPath(leaf, Front(p), leaf', Front(q));
        assert p == Front(p) + [Last(p)] && q == Front(q) + [Last(q)];
      }
    }
  }

  /** An accepted path that turns the way leaf i's path turns carries leaf i and its true siblings,
      or `PathCollision` against the honest path is two messages with one digest. */
  lemma {:induction false} AcceptedPathIsHonest(leaf: Digest, path: seq<ProofStep>, i: nat, d: seq<Digest>)
    requires i < |d| && SameDirections(path, Path(i, d)) && FoldPath(leaf, path) == MTH(d)
    ensures (leaf == d[i] && path == Path(i, d)) || PathCollision(leaf, path, d[i], Path(i, d)).Genuine()
  {
    PathFoldsToMTH(i, d);
    FoldBindsPath(leaf, path, d[i], Path(i, d));
  }

  // ----- Trees over hashed messages -----

  /** The leaves are the digests of these messages, none of which has the length of a node's message. */
  ghost predicate LeavesOfMessages(d: seq<Digest>, msgs: seq<Bytes>) {
    |d| == |msgs| && forall i | 0 <= i < |d| :: d[i] == Sha256(msgs[i]) && |msgs[i]| != 2 * HASH_LEN
  }

  /** What is hashed at the top of a tree of two leaves or more. */
  function TopMessage(d: seq<Digest>): (m: Bytes)
    requires |d| >= 2
    ensures |m| == 2 * HASH_LEN
  {
    MTH(d[..SplitPoint(|d|)]) + MTH(d[SplitPoint(|d|)..])
  }

  /** The collision found by walking an accepted path down the honest tree, from the root, until the two
      part ways. */
  function Descent(m: Bytes, path: seq<ProofStep>, d: seq<Digest>, msgs: seq<Bytes>): Break
    requires |d| == |msgs| > 0
    decreases |d|
  {
    var top := if path == [] then m else StepMessage(FoldPath(Sha256(m), Front(path)), Last(path));
    if |d| == 1 then Collision(top, msgs[0])
    else
      var k := SplitPoint(|d|);
      if path == [] || top != TopMessage(d) then Collision(top, TopMessage(d))
      else if Last(path).right then Descent(m, Front(path), d[..k], msgs[..k])
      else Descent(m, Front(path), d[k..], msgs[k..])
  }

  lemma {:induction false} StepsToNode(r: Digest, step: ProofStep, left: Digest, right: Digest)
    requires StepMessage(r, step) == left + right
    ensures r == if step.right then left else right
  {
    if step.right {
      DigestPairsSplit(r, step.siblingHash, left, right);
    } else {
      DigestPairsSplit(step.siblingHash, r, left, right);
    }
  }

  lemma StepMessageLength(r: Digest, step: ProofStep)
    ensures |StepMessage(r, step)| == 2 * HASH_LEN
  {
  }

  /** Soundness of path checking. If any path at all leads from the digest of a message to the root of a
      tree over hashed messages, the digest is one of the tree's leaves, or `Descent` is a collision. The
      path's length, directions and siblings are arbitrary; it is only needed that no message has the
      length of a node's. */
  lemma {:induction false} AcceptedEntryIsALeaf(m: Bytes, path: seq<ProofStep>, d: seq<Digest>, msgs: seq<Bytes>)
    requires d != [] && LeavesOfMessages(d, msgs) && |m| != 2 * HASH_LEN
    requires FoldPath(Sha256(m), path) == MTH(d)
    ensures Sha256(m) in d || Descent(m, path, d, msgs).Genuine()
    decreases |d|
  {
    hide MTH, FoldPath, StepMessage;
    if path != [] {
      FoldUnfolds(Sha256(m), path);
      StepMessageLength(FoldPath(Sha256(m), Front(path)), Last(path));
    } else {
      EmptyPathFolds(Sha256(m));
    }
    if |d| == 1 {
      LoneRoot(d);
    } else {
      var k := SplitPoint(|d|);
      RootUnfolds(d, k);
      if path != [] && StepMessage(FoldPath(Sha256(m), Front(path)), Last(path)) == TopMessage(d) {
        StepsToNode(FoldPath(Sha256(m), Front(path)), Last(path), MTH(d[..k]), MTH(d[k..]));
        if Last(path).right {
          AcceptedEntryIsALeaf(m, Front(path), d[..k], msgs[..k]);
        } else {
          AcceptedEntryIsALeaf(m, Front(path), d[k..], msgs[k..]);
        }
      }
    }
  }

  lemma EmptyPathFolds(leaf: Digest)
    ensures FoldPath(leaf, []) == leaf
  {
  }

  /** Without the condition on lengths an interior node passes as an entry: the empty path leads from it
      to the root. */
  lemma NodeIsAccepted(a: Digest, b: Digest)
    ensures FoldPath(NodeHash(a, b), []) == MTH([a, b])
    ensures NodeHash(a, b) == Sha256(a + b)
  {
    assert [a, b][..1] == [a] && [a, b][1..] == [b];
  }

  /** The collision that two different lists of hashed messages with one root must contain. */
  function TreeCollision(a: seq<Digest>, ms: seq<Bytes>, b: seq<Digest>, ns: seq<Bytes>): Break
    requires |a| == |ms| > 0 && |b| == |ns| > 0
    decreases |a|
  {
    if |a| == 1 then Collision(ms[0], if |b| == 1 then ns[0] else TopMessage(b))
    else if |b| == 1 then Collision(TopMessage(a), ns[0])
    else
      var k, l := SplitPoint(|a|), SplitPoint(|b|);
      if TopMessage(a) != TopMessage(b) then Collision(TopMessage(a), TopMessage(b))
      else if a[..k] != b[..l] then TreeCollision(a[..k], ms[..k], b[..l], ns[..l])
      else TreeCollision(a[k..], ms[k..], b[l..], ns[l..])
  }

  /** A root over hashed messages binds the leaves whatever their number: two such lists with one root are
      equal, or `TreeCollision` is genuine. */
  lemma {:induction false} RootBindsMessages(a: seq<Digest>, ms: seq<Bytes>, b: seq<Digest>, ns: seq<Bytes>)
    requires a != [] && b != [] && LeavesOfMessages(a, ms) && LeavesOfMessages(b, ns) && MTH(a) == MTH(b)
    ensures a == b || TreeCollision(a, ms, b, ns).Genuine()
    decreases |a|
  {
    hide MTH;
    if |a| == 1 {
      LoneRoot(a);
    }
    if |b| == 1 {
      LoneRoot(b);
    }
    if |a| > 1 {
      RootUnfolds(a, SplitPoint(|a|));
    }
    if |b| > 1 {
      RootUnfolds(b, SplitPoint(|b|));
    }
    if |a| > 1 && |b| > 1 && TopMessage(a) == TopMessage(b) {
      var k, l := SplitPoint(|a|), SplitPoint(|b|);
      DigestPairsSplit(MTH(a[..k]), MTH(a[k..]), MTH(b[..l]), MTH(b[l..]));
      if a[..k] != b[..l] {
        RootBindsMessages(a[..k], ms[..k], b[..l], ns[..l]);
      } else {
        RootBindsMessages(a[k..], ms[k..], b[l..], ns[l..]);
        assert a == a[..k] + a[k..] && b == b[..l] + b[l..];
      }
    }
  }
}
