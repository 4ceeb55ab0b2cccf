/**
 The multisignature check (src/blockchain/src/identities/authority_verifier.rs).
 Checking one Ed25519 signature is the parameter `valid`.
 */
module Quorum {
  import opened Bags

  type NodeIndex = nat
  type Key = seq<nat>
  type Message = seq<nat>
  type Signature = seq<nat>
  type SignatureCheck = (Key, Message, Signature) -> bool

  /** At most one signature for each node index. */
  type MultiSignature = map<NodeIndex, Signature>

  class AuthorityVerifier {
    var authorities: map<NodeIndex, Key>

    constructor ()
      ensures authorities == map[]
    {
      authorities := map[];
    }

    method Save(index: NodeIndex, key: Key)
      modifies this
      ensures authorities == old(authorities)[index := key]
    {
      authorities := authorities[index := key];
    }

    predicate Verify(valid: SignatureCheck, msg: Message, signature: Signature, index: NodeIndex)
      reads this
    {
      index in authorities && valid(authorities[index], msg, signature)
    }

    function NodeCount(): nat
      reads this
    {
      |authorities|
    }

    /** The least count above two thirds of the authorities. */
    function Threshold(): (t: nat)
      reads this
      ensures 2 * NodeCount() < 3 * t <= 2 * NodeCount() + 3
    {
      2 * NodeCount() / 3 + 1
    }

    predicate IsComplete(valid: SignatureCheck, msg: Message, partial: MultiSignature)
      reads this
    {
      |partial| >= Threshold() && forall i :: i in partial ==> Verify(valid, msg, partial[i], i)
    }
  }

  /** Two sets that fit into `n` elements share at least what they have in excess. */
  lemma Overlap<T>(a: set<T>, b: set<T>, all: set<T>)
    requires a <= all && b <= all
    ensures |a * b| >= |a| + |b| - |all|
  {
    SubsetCount(a + b, all);
  }

  lemma SignersAreAuthorities(v: AuthorityVerifier, valid: SignatureCheck, msg: Message, partial: MultiSignature)
    requires v.IsComplete(valid, msg, partial)
    ensures partial.Keys <= v.authorities.Keys
    ensures 3 * |partial| > 2 * v.NodeCount()
    ensures v.NodeCount() > 0
  {
    forall i | i in partial ensures i in v.authorities {
      assert v.Verify(valid, msg, partial[i], i);
    }
    SubsetCount(partial.Keys, v.authorities.Keys);
    assert |partial| == |partial.Keys| && |v.authorities| == |v.authorities.Keys|;
  }

  /** Complete: more than two thirds in number, all from known authorities, all valid. */
  lemma CompleteIff(v: AuthorityVerifier, valid: SignatureCheck, msg: Message, partial: MultiSignature)
    ensures v.IsComplete(valid, msg, partial) <==>
            && 3 * |partial| > 2 * v.NodeCount()
            && partial.Keys <= v.authorities.Keys
            && forall i :: i in partial.Keys * v.authorities.Keys ==> valid(v.authorities[i], msg, partial[i])
  {
    if v.IsComplete(valid, msg, partial) {
      SignersAreAuthorities(v, valid, msg, partial);
      forall i | i in partial.Keys * v.authorities.Keys ensures valid(v.authorities[i], msg, partial[i]) {
        assert v.Verify(valid, msg, partial[i], i);
      }
    }
  }

  /** Any two complete multisignatures, over the same or different messages, share more than a third of the authorities. */
  lemma QuorumIntersection(v: AuthorityVerifier, valid: SignatureCheck,
                           m1: Message, p1: MultiSignature, m2: Message, p2: MultiSignature)
    requires v.IsComplete(valid, m1, p1) && v.IsComplete(valid, m2, p2)
    ensures 3 * |p1.Keys * p2.Keys * v.authorities.Keys| > v.NodeCount()
  {
    SignersAreAuthorities(v, valid, m1, p1);
    SignersAreAuthorities(v, valid, m2, p2);
    Overlap(p1.Keys, p2.Keys, v.authorities.Keys);
    assert p1.Keys * p2.Keys * v.authorities.Keys == p1.Keys * p2.Keys;
    assert |p1| == |p1.Keys| && |p2| == |p2.Keys| && |v.authorities| == |v.authorities.Keys|;
  }

  /** Who signed what. */
  type Signed = set<(NodeIndex, Message)>

  /** Every signature that checks was made by its owner. */
  ghost predicate Unforged(v: AuthorityVerifier, valid: SignatureCheck, signed: Signed, msg: Message, partial: MultiSignature)
    reads v
  {
    forall i :: i in partial && v.Verify(valid, msg, partial[i], i) ==> (i, msg) in signed
  }

  ghost function SignedBoth(v: AuthorityVerifier, signed: Signed, m1: Message, m2: Message): set<NodeIndex>
    reads v
  {
    set i | i in v.authorities.Keys && (i, m1) in signed && (i, m2) in signed
  }

  /** While at most a third of the authorities sign both of two messages, only one of them can become complete. */
  lemma NoConflictingCertificates(v: AuthorityVerifier, valid: SignatureCheck, signed: Signed,
                                  m1: Message, p1: MultiSignature, m2: Message, p2: MultiSignature)
    requires Unforged(v, valid, signed, m1, p1) && Unforged(v, valid, signed, m2, p2)
    requires 3 * |SignedBoth(v, signed, m1, m2)| <= v.NodeCount()
    ensures !(v.IsComplete(valid, m1, p1) && v.IsComplete(valid, m2, p2))
  {
    if v.IsComplete(valid, m1, p1) && v.IsComplete(valid, m2, p2) {
      QuorumIntersection(v, valid, m1, p1, m2, p2);
      var shared := p1.Keys * p2.Keys * v.authorities.Keys;
      forall i | i in shared ensures i in SignedBoth(v, signed, m1, m2) {
        assert v.Verify(valid, m1, p1[i], i) && v.Verify(valid, m2, p2[i], i);
      }
      SubsetCount(shared, SignedBoth(v, signed, m1, m2));
    }
  }

  lemma {:induction false} SubsetOfSize<T>(all: set<T>, k: nat) returns (s: set<T>)
    requires k <= |all|
    ensures s <= all && |s| == k
    decreases k
  {
    if k == 0 {
      s := {};
    } else {
      var x :| x in all;
      var rest := SubsetOfSize(all - {x}, k - 1);
      s := rest + {x};
    }
  }

  /**
   The threshold cannot be lowered: with one signature less, two sets of
   signers exist that share no more than a third of the authorities.
   */
  lemma ThresholdIsLeast(v: AuthorityVerifier) returns (a: set<NodeIndex>, b: set<NodeIndex>)
    ensures a <= v.authorities.Keys && b <= v.authorities.Keys
    ensures |a| == |b| == v.Threshold() - 1
    ensures 3 * |a * b| <= v.NodeCount()
  {
    var all, n, k := v.authorities.Keys, v.NodeCount(), v.Threshold() - 1;
    assert |v.authorities| == |all|;
    a := SubsetOfSize(all, k);
    if n - k >= k {
      b := SubsetOfSize(all - a, k);
      assert a * b == {};
    } else {
      var extra := SubsetOfSize(a, 2 * k - n);
      b := (all - a) + extra;
      assert a * b == extra;
    }
  }
}
