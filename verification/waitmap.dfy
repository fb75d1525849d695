/**
 Sequential semantics of the Go package `waitmap`.

 Every key of a wait map goes through the state machine ABSENT -> UNSET -> SET:
 ABSENT is the lack of an entry, UNSET is an entry that a reader created before any
 writer arrived, and SET is an entry holding the one value that will ever be stored
 under that key. Each operation is one atomic step from a map to the next map plus a
 result. The locks and the condition variable of the Go code exist only to make these
 steps atomic, so they do not appear here; the atomic flag appears only as the
 difference between Unset and SetTo (module Representation models it directly).
 */
module Waitmap {

  datatype Option<+T> = None | Some(value: T)

  /** The state of a key that has an entry: waiting for a writer, or written once. */
  datatype Entry<+V> = Unset | SetTo(value: V)

  /** The map of entries; entries are only ever added, never removed. */
  datatype WaitMap<K, V> = WaitMap(ents: map<K, Entry<V>>)

  /** What a call to Get observes: the stored value, or that the caller has to wait. */
  datatype GetOutcome<+V> = Value(value: V) | WouldBlock

  /** The state after an operation together with the operation's result. */
  datatype After<+S, +R> = After(next: S, result: R)

  /** The entry of `k`, or None while `k` is ABSENT. */
  function Lookup<K(!new), V>(m: WaitMap<K, V>, k: K): Option<Entry<V>>
  {
    if k in m.ents then Some(m.ents[k]) else None
  }

  /** True iff `k` is in the SET state. */
  predicate IsSet<K(!new), V>(m: WaitMap<K, V>, k: K)
  {
    k in m.ents && m.ents[k].SetTo?
  }

  /** `m'` is `m` except possibly at key `k`. */
  ghost predicate SameExcept<K(!new), V>(m: WaitMap<K, V>, m': WaitMap<K, V>, k: K)
  {
    forall j :: j != k ==> Lookup(m', j) == Lookup(m, j)
  }

  /**
   `m'` is a possible later state of `m`: no key has gone back to ABSENT, and every
   SET entry still holds the same value.
   */
  ghost predicate Grows<K(!new), V>(m: WaitMap<K, V>, m': WaitMap<K, V>)
  {
    forall k :: k in m.ents ==> k in m'.ents && (m.ents[k].SetTo? ==> m'.ents[k] == m.ents[k])
  }

  /** New: a map without entries. */
  function New<K(!new), V>(): (m: WaitMap<K, V>)
    ensures forall k :: Lookup(m, k) == None
    ensures forall k :: !Check(m, k)
  {
    WaitMap(map[])
  }

  /** NewCap: the capacity hint only sizes the Go map's storage; it changes no behaviour. */
  function NewCap<K(!new), V>(c: int): (m: WaitMap<K, V>)
    ensures m == New()
    ensures forall k :: Lookup(m, k) == None
  {
    WaitMap(map[])
  }

  /**
   Get: an ABSENT key gets a fresh UNSET entry (the only change Get ever makes);
   a SET key yields its value; an UNSET key is where the Go caller would wait.
   */
  function Get<K(!new), V>(m: WaitMap<K, V>, k: K): (a: After<WaitMap<K, V>, GetOutcome<V>>)
    ensures k in a.next.ents
    ensures a.result.Value? <==> IsSet(m, k)
    ensures IsSet(m, k) ==> a.result == Value(m.ents[k].value)
    ensures k in m.ents ==> a.next == m
    ensures k !in m.ents ==> a.next.ents == m.ents[k := Unset]
    ensures SameExcept(m, a.next, k) && Grows(m, a.next)
  {
    var ents := if k in m.ents then m.ents else m.ents[k := Unset];
    var e := ents[k];
    After(WaitMap(ents), if e.SetTo? then Value(e.value) else WouldBlock)
  }

  /**
   Set: succeeds exactly when `k` is not yet SET — both when `k` is ABSENT (the entry
   is inserted already SET) and when Get left an UNSET entry (the compare-and-swap of
   the flag from 0 to 1 succeeds). A failed Set changes nothing.
   */
  function Set<K(!new), V>(m: WaitMap<K, V>, k: K, v: V): (a: After<WaitMap<K, V>, bool>)
    ensures a.result <==> !IsSet(m, k)
    ensures a.result ==> a.next.ents == m.ents[k := SetTo(v)]
    ensures !a.result ==> a.next == m
    ensures IsSet(a.next, k)
    ensures SameExcept(m, a.next, k) && Grows(m, a.next)
  {
    if k !in m.ents then
      After(WaitMap(m.ents[k := SetTo(v)]), true)
    else if m.ents[k].Unset? then
      After(WaitMap(m.ents[k := SetTo(v)]), true)
    else
      After(m, false)
  }

  /**
   Check: a lookup that never inserts. It answers whether `k` is SET, so an UNSET
   entry that Get created answers false just like an ABSENT key.
   */
  function Check<K(!new), V>(m: WaitMap<K, V>, k: K): (b: bool)
    ensures b <==> Get(m, k).result.Value?
    ensures Lookup(m, k) == Some(Unset) ==> !b
    ensures Lookup(m, k) == None ==> !b
  {
    IsSet(m, k)
  }

  /** Check answers true exactly when Get would not wait and Set would fail. */
  lemma CheckAgreesWithGetAndSet<K(!new), V>(m: WaitMap<K, V>, k: K, v: V)
    ensures Check(m, k) <==> Get(m, k).result.Value?
    ensures Check(m, k) <==> !Set(m, k, v).result
  {
  }

  /**
   An entry that Get created is present in the map, yet Set still stores into it and
   Check still answers false: "already in the map" in the Go doc comments means
   "already set", not "present".
   */
  lemma PresentButUnsetIsNotInTheMap<K(!new), V>(m: WaitMap<K, V>, k: K, v: V)
    requires k !in m.ents
    ensures k in Get(m, k).next.ents
    ensures !Check(Get(m, k).next, k)
    ensures Set(Get(m, k).next, k, v).result
    ensures Set(Get(m, k).next, k, v).next.ents[k] == SetTo(v)
  {
  }
}
