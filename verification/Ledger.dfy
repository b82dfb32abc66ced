/** The ledger as the wallet sees it: an append-only sequence of blocks. */
module Ledger {
  import opened Schema

  type Chain = seq<Block>

  predicate Has(l: Chain, i: int, o: TxOut) {
    0 <= i < |l| && o in l[i].outputs
  }

  predicate Lands(l: Chain, i: int, k: KeyImage) {
    0 <= i < |l| && k in l[i].keyImages
  }

  /** The key image that spends `o`. */
  function ImageOf(o: TxOut): KeyImage {
    KeyImage(o.publicKey, o.viewer, o.targetKey.index)
  }

  /** Output ids and public keys never repeat. */
  ghost predicate UniqueOutputs(l: Chain) {
    forall i, o, j, p :: Has(l, i, o) && Has(l, j, p) && (o.id == p.id || o.publicKey == p.publicKey) ==> i == j && o == p
  }

  ghost predicate SpentOnce(l: Chain) {
    forall i, j, k :: Lands(l, i, k) && Lands(l, j, k) ==> i == j
  }

  ghost predicate SpentAfterCreated(l: Chain) {
    forall i, o, j :: Has(l, i, o) && Lands(l, j, ImageOf(o)) ==> i <= j
  }

  /** An output is addressed to a subaddress of the account that can view it. */
  ghost predicate SentToViewer(l: Chain) {
    forall i, o :: Has(l, i, o) ==> o.targetKey.account == o.viewer
  }

  /** What consensus guarantees about the blocks it accepts. */
  ghost predicate Valid(l: Chain) {
    UniqueOutputs(l) && SpentOnce(l) && SpentAfterCreated(l) && SentToViewer(l)
  }

  lemma PrefixFacts(l: Chain, m: Chain)
    requires l <= m
    ensures forall i, o {:trigger Has(l, i, o)} {:trigger Has(m, i, o)} :: i < |l| ==> (Has(l, i, o) <==> Has(m, i, o))
    ensures forall i, k {:trigger Lands(l, i, k)} {:trigger Lands(m, i, k)} :: i < |l| ==> (Lands(l, i, k) <==> Lands(m, i, k))
  {
    assert forall i :: 0 <= i < |l| ==> l[i] == m[i];
  }
}
