/** What binds a hash chain: a list of messages, each of which commits to the digest of the one
    before it, starting from the all-zero digest. */
module HashChain {
  import opened Basics

  /** One link: the hashed message, and the previous digest that the message contains. */
  datatype Link = Link(message: Bytes, prev: Bytes)

  function Tip(links: seq<Link>): Digest {
    if links == [] then ZERO_HASH else Sha256(Last(links).message)
  }

  predicate Chained(links: seq<Link>) {
    links == [] || (Chained(Front(links)) && Last(links).prev == Tip(Front(links)))
  }

  /** Equal messages contain equal previous digests. */
  ghost predicate MessagesDeterminePrev(a: seq<Link>, b: seq<Link>) {
    forall i, j | 0 <= i < |a| && 0 <= j < |b| && a[i].message == b[j].message :: a[i].prev == b[j].prev
  }

  /** The collision, or the preimage of the all-zero digest, that two different chains with one tip
      contain. Walks both chains back from the tip. */
  function ChainBreak(a: seq<Link>, b: seq<Link>): Break {
    if a == [] then (if b == [] then ZeroPreimage([]) else ZeroPreimage(Last(b).message))
    else if b == [] then ZeroPreimage(Last(a).message)
    else if Last(a).message != Last(b).message then Collision(Last(a).message, Last(b).message)
    else ChainBreak(Front(a), Front(b))
  }

  /** A tip binds the whole chain under it, whatever the two lengths. */
  lemma {:induction false} TipBindsChain(a: seq<Link>, b: seq<Link>)
    requires Chained(a) && Chained(b) && Tip(a) == Tip(b) && MessagesDeterminePrev(a, b)
    ensures a == b || ChainBreak(a, b).Genuine()
  {
    if a != [] && b != [] && Last(a).message == Last(b).message {
      assert Last(a).prev == Last(b).prev;
      forall i, j | 0 <= i < |Front(a)| && 0 <= j < |Front(b)| && Front(a)[i].message == Front(b)[j].message
        ensures Front(a)[i].prev == Front(b)[j].prev
      {
        assert a[i].message == b[j].message;
      }
      TipBindsChain(Front(a), Front(b));
      assert a == Front(a) + [Last(a)] && b == Front(b) + [Last(b)];
    }
  }
}
