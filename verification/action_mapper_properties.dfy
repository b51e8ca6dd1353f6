/**
  Properties of the action mapper model: what the row and the action left
  over together retain of the input, what they cannot tell apart, and what
  the row depends on.
 */
module ActionMapperProperties {
  import opened ActionMapper

  /** The row and the left-over action together give back the original
      action, unless the action carried a `hex_data` equal to the
      placeholder (see `PlaceholderHexDataIsLost`). */
  lemma RestoreRoundTrip(action: Record, transaction: Record)
    requires HasLookedUpKeys(action, transaction)
    requires "hex_data" in action ==> action["hex_data"] != NoHexData
    ensures var r := ActionToDict(action, transaction);
      r.result.Ok? && Restore(r.result.value, r.action) == action
  {
  }

  /** An action whose `hex_data` is the placeholder string and the same
      action without `hex_data` give the same row and the same left-over
      action, so the row alone cannot say which one it came from. */
  lemma PlaceholderHexDataIsLost(action: Record, transaction: Record)
    requires "hex_data" !in action
    ensures var with := ActionToDict(action["hex_data" := NoHexData], transaction);
      var without := ActionToDict(action, transaction);
      with.result == without.result
      && (with.result.Ok? ==> with.action == without.action)
  {
  }

  /** The consumed keys are gone after a successful call, so mapping the
      same action dictionary again fails on its first action lookup and
      changes nothing. */
  lemma SecondCallFails(action: Record, transaction: Record)
    requires HasLookedUpKeys(action, transaction)
    ensures var first := ActionToDict(action, transaction);
      ActionToDict(first.action, transaction) == Call(Err(KeyError("account")), first.action)
  {
  }

  /** Both maps lack `k`, or both map it to the same value. */
  predicate Agrees(m1: Record, m2: Record, k: string)
  {
    (k in m1 <==> k in m2) && (k in m1 ==> m1[k] == m2[k])
  }

  /** Two inputs that agree on the keys the row reads. */
  predicate SameLookedUp(a1: Record, t1: Record, a2: Record, t2: Record)
  {
    && (forall k :: k in {"trx.hash", "block_hash"} ==> Agrees(t1, t2, k))
    && (forall k :: k in Consumed ==> Agrees(a1, a2, k))
  }

  /** The row, or the error, depends on nothing but the keys it reads: the
      other keys of the action and of the transaction play no part. */
  lemma RowDependsOnlyOnLookedUp(a1: Record, t1: Record, a2: Record, t2: Record)
    requires SameLookedUp(a1, t1, a2, t2)
    ensures ActionToDict(a1, t1).result == ActionToDict(a2, t2).result
  {
    assert Agrees(t1, t2, "trx.hash") && Agrees(t1, t2, "block_hash");
    assert Agrees(a1, a2, "account") && Agrees(a1, a2, "name") && Agrees(a1, a2, "authorization");
    assert Agrees(a1, a2, "data") && Agrees(a1, a2, "hex_data");
  }
}
