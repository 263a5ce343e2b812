/** Entries of the write-back cache and the list of changes threaded through them. */
module WriteCache {
  import opened Options
  import opened ByteKeys

  datatype CachedValue = CachedValue(numErases: nat, orig: Option<Bytes>, current: Option<Bytes>,
                                     inChangeList: bool, next: Option<Bytes>)

  type Cache = map<Bytes, CachedValue>

  /** The key at position `i` of the change list, or its end. */
  function Link(order: seq<Bytes>, i: nat): Option<Bytes>
    requires i <= |order|
  {
    if i < |order| then Some(order[i]) else None
  }

  /** From `head` the links run through `order`, which has no key twice, to the end. */
  ghost predicate Linked(cache: Cache, head: Option<Bytes>, order: seq<Bytes>) {
    && head == Link(order, 0)
    && (forall i :: 0 <= i < |order| ==> order[i] in cache && cache[order[i]].next == Link(order, i + 1))
    && (forall i, j :: 0 <= i < j < |order| ==> order[i] != order[j])
  }
}
