/**
 The Go representation of a wait map, one atomic step per operation.

 A Go `entry` holds an interface value `data` (nil until written) and a 32-bit flag
 `ok` that Set claims with a compare-and-swap from 0 to 1; its condition variable
 only wakes waiting readers and is not represented. `Abs` maps this representation
 to the abstract states of module Waitmap, and the `...Refines` lemmas show that each
 Go operation, applied to a well-formed representation, does what the abstract
 operation does.
 */
module Representation {
  import opened Waitmap

  newtype uint32 = x: int | 0 <= x < 0x1_0000_0000

  /** One Go `entry`: `data` is None while it is nil. */
  datatype Cell<V> = Cell(data: Option<V>, ok: uint32)

  /** The `ents` map of a Go `WaitMap`. */
  datatype Store<K, V> = Store(ents: map<K, Cell<V>>)

  /** What the Go Get hands back: the `data` field, or a wait on the condition. */
  datatype Fetched<V> = Returned(data: Option<V>) | Blocks

  /** `new(entry)`: every field at its zero value. */
  function Fresh<V>(): Cell<V>
  {
    Cell(None, 0)
  }

  /** In a sequential run the flag is 0 with nil data, or 1 with the data written. */
  predicate CellValid<V>(c: Cell<V>)
  {
    (c.ok == 0 && c.data.None?) || (c.ok == 1 && c.data.Some?)
  }

  predicate Valid<K(!new), V>(s: Store<K, V>)
  {
    forall k :: k in s.ents ==> CellValid(s.ents[k])
  }

  function AbsCell<V>(c: Cell<V>): (e: Entry<V>)
    requires CellValid(c)
    ensures e.SetTo? <==> c.ok == 1
    ensures e.SetTo? ==> c.data == Some(e.value)
  {
    if c.ok == 1 then SetTo(c.data.value) else Unset
  }

  /** The abstract wait map a well-formed representation stands for. */
  function Abs<K(!new), V>(s: Store<K, V>): (m: WaitMap<K, V>)
    requires Valid(s)
    ensures m.ents.Keys == s.ents.Keys
    ensures forall k :: k in s.ents ==> m.ents[k] == AbsCell(s.ents[k])
  {
    WaitMap(map k | k in s.ents :: AbsCell(s.ents[k]))
  }

  /** `New` and `NewCap`: an empty `ents` map (the hint `c` only sizes its storage). */
  function NewStore<K(!new), V>(c: int): (s: Store<K, V>)
    ensures Valid(s) && Abs(s) == NewCap(c) && Abs(s) == New()
  {
    Store(map[])
  }

  /**
   Get: under the map lock, an absent key gets `new(entry)`; then, when `ok` is 1,
   `data` is returned, and otherwise the caller waits.
   */
  function Get<K(!new), V>(s: Store<K, V>, k: K): (a: After<Store<K, V>, Fetched<V>>)
    ensures Valid(s) ==> Valid(a.next)
    ensures a.next.ents.Keys == s.ents.Keys + {k}
  {
    var ents := if k in s.ents then s.ents else s.ents[k := Fresh()];
    var e := ents[k];
    After(Store(ents), if e.ok == 1 then Returned(e.data) else Blocks)
  }

  /**
   Set: an absent key gets an entry with `data = v` and `ok = 1` under the map lock;
   a present key is claimed by compare-and-swap of `ok` from 0 to 1, after which
   `data` is written. A failed swap leaves the store as it was.
   */
  function Set<K(!new), V>(s: Store<K, V>, k: K, v: V): (a: After<Store<K, V>, bool>)
    ensures Valid(s) ==> Valid(a.next)
    ensures a.next.ents.Keys == s.ents.Keys + {k}
    ensures Valid(s) ==> (a.result <==> !Check(s, k))
    ensures !a.result ==> a.next == s
  {
    if k !in s.ents then
      After(Store(s.ents[k := Cell(Some(v), 1)]), true)
    else
      var e := s.ents[k];
      if e.ok == 0 then
        After(Store(s.ents[k := Cell(Some(v), 1)]), true)
      else
        After(s, false)
  }

  /** Check: false for an absent key, otherwise whether `ok` reads 1. */
  function Check<K(!new), V>(s: Store<K, V>, k: K): (b: bool)
    ensures b ==> k in s.ents
    ensures Valid(s) ==> (b <==> Get(s, k).result.Returned?)
  {
    if k !in s.ents then false else s.ents[k].ok == 1
  }

  /** Overwriting one cell of a well-formed store overwrites one entry of its abstraction. */
  lemma AbsUpdate<K(!new), V>(s: Store<K, V>, k: K, c: Cell<V>)
    requires Valid(s) && CellValid(c)
    ensures Valid(Store(s.ents[k := c]))
    ensures Abs(Store(s.ents[k := c])).ents == Abs(s).ents[k := AbsCell(c)]
  {
    var s' := Store(s.ents[k := c]);
    assert Abs(s').ents.Keys == Abs(s).ents[k := AbsCell(c)].Keys;
  }

  lemma GetRefines<K(!new), V>(s: Store<K, V>, k: K)
    requires Valid(s)
    ensures Valid(Get(s, k).next)
    ensures Abs(Get(s, k).next) == Waitmap.Get(Abs(s), k).next
    ensures Get(s, k).result == Blocks <==> Waitmap.Get(Abs(s), k).result == WouldBlock
    ensures Waitmap.Get(Abs(s), k).result.Value? ==>
              Get(s, k).result == Returned(Some(Waitmap.Get(Abs(s), k).result.value))
  {
    if k !in s.ents {
      AbsUpdate(s, k, Fresh());
    }
  }

  lemma SetRefines<K(!new), V>(s: Store<K, V>, k: K, v: V)
    requires Valid(s)
    ensures Valid(Set(s, k, v).next)
    ensures Abs(Set(s, k, v).next) == Waitmap.Set(Abs(s), k, v).next
    ensures Set(s, k, v).result == Waitmap.Set(Abs(s), k, v).result
  {
    AbsUpdate(s, k, Cell(Some(v), 1));
  }

  lemma CheckRefines<K(!new), V>(s: Store<K, V>, k: K)
    requires Valid(s)
    ensures Check(s, k) == Waitmap.Check(Abs(s), k)
  {
  }
}
