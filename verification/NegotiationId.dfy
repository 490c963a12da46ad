/** Negotiation ids (pc/negotiation_id.go): a uint32 counter on a ring that skips 0. */
module NegotiationId {
  import opened Bits

  /** Marks a description that carries no id. */
  const NO_ID: uint32 := 0

  /** nextNegotiationID. */
  function Next(cur: uint32): (n: uint32)
    ensures n != NO_ID
  {
    var next := Trunc32(cur + 1);
    if next == NO_ID then next + 1 else next
  }

  datatype Verdict = Accept | Stale | Duplicate | Mismatch

  /** classifyAnswerNegotiationID. */
  function Classify(id: uint32, remote: uint32, local: uint32): Verdict {
    if id == NO_ID then Accept
    else if remote == NO_ID then if id != local then Mismatch else Accept
    else
      var delta := AsInt32(Trunc32(id - remote));
      if delta < 0 then Stale
      else if delta == 0 then Duplicate
      else if id != local then Mismatch
      else Accept
  }

  /** The id of the k-th offer of a transport; the 0-th is no id at all. */
  function Nth(k: nat): uint32 {
    if k == 0 then NO_ID else (k - 1) % (TWO32 - 1) + 1
  }

  /** Counting with Next walks the ring of 2^32 - 1 ids in order, for ever. */
  lemma NthStep(k: nat)
    ensures Next(Nth(k)) == Nth(k + 1)
  {
    if k > 0 {
      var m := TWO32 - 1;
      assert (k - 1) % m == m - 1 ==> k % m == 0;
      assert (k - 1) % m < m - 1 ==> k % m == (k - 1) % m + 1;
    }
  }

  /** Against the last accepted id and the offer after it, an answer that carries
      an id is accepted exactly when it answers the outstanding offer. This covers
      the wrap from 2^32 - 1 to 1. */
  lemma AcceptsOnlyOutstanding(id: uint32, remote: uint32, local: uint32)
    requires id != NO_ID && (local == remote || local == Next(remote))
    ensures Classify(id, remote, local) == Accept <==> id == local && local != remote
  {
  }

}
