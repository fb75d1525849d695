# waitmap — a Dafny model of a write-once, wait-on-read map

The Go package `waitmap` provides a thread-safe map in which `Get` on a key with no value yet
waits until some `Set` supplies one, and `Set` is one-shot: the first successful `Set` of a
key fixes its value and every later `Set` of that key returns `false` without changing it.
`Check` is a lookup that never waits and never inserts.

This project models the package through its sequential semantics. Each call is one atomic
step. The mutexes and the condition variable exist only to make these steps atomic. The atomic
`ok` flag is the difference between an UNSET and a SET entry. Each key goes through the state machine ABSENT → UNSET → SET:

- `Get` creates an UNSET entry for an ABSENT key. On a SET key it returns the value. On an UNSET
  key the Go caller waits; the model returns `WouldBlock` and leaves the state unchanged.
- `Set` on an ABSENT key inserts the entry already SET. On an UNSET entry it claims the flag
  with a compare-and-swap and stores the value. On a SET entry it returns `false` and changes
  nothing.
- `Check` answers whether the key is SET.

There are four modules:

- `Waitmap` (`waitmap.dfy`) is the abstract state `map<K, Entry>`, with `Entry = Unset | SetTo(v)`.
  It has one pure transition function per operation.
- `Representation` (`representation.dfy`) models the Go structures. An entry has `data`, which
  is nil until written, and a 32-bit `ok` flag claimed by compare-and-swap from 0 to 1. This
  module has an abstraction function onto `Waitmap` and one refinement lemma per operation.
- `Histories` (`histories.dfy`) runs arbitrary finite sequences of operations. It proves the
  exactly-once-write guarantee and that a SET value never changes. It also proves that blocked
  readers are released only by the winning `Set`, that `Check` is unobservable and that keys
  are independent.
- `Scenarios` (`scenarios.dfy`) restates the sequential tests of `waitmap_test.go`, plus the
  race and rendezvous patterns the package exists for, as histories.

### Doc comments versus code

The doc comment of `Set` says it fails "if the key is already in the map" (waitmap.go:56-57).
The doc comment of `Check` says it returns whether `k` "is a key in the map" (waitmap.go:81).
Both look the key up, but neither answers from presence alone. A present entry also needs its
`ok` flag, which `Set` claims by compare-and-swap (waitmap.go:72) and `Check` reads
(waitmap.go:89). So an entry
that `Get` created, and that nobody has set, counts as "not in the map" for both methods. The
model follows the code. `Waitmap.PresentButUnsetIsNotInTheMap` shows the difference.

## Model

| member | source | states |
|---|---|---|
| Waitmap.New | waitmap.go:21-26 | a new map has no entry for any key, so `Check` is false for every key |
| Waitmap.NewCap | waitmap.go:28-33 | the capacity hint has no semantic effect: the result equals `New()` and has no entries |
| Waitmap.Get | waitmap.go:35-53 | an ABSENT key gets an UNSET entry and nothing else changes; a SET key yields its stored value with the state unchanged; an UNSET key yields `WouldBlock` with the state unchanged; afterwards the key always has an entry |
| Waitmap.Set | waitmap.go:56-79 | returns true exactly when the key is not SET (ABSENT or UNSET) and then stores `v` at that key only; on a SET key returns false and leaves the whole map unchanged; afterwards the key is SET |
| Waitmap.Check | waitmap.go:81-90 | true iff `Get` would return without waiting; an entry that `Get` created and nobody set answers false, like an ABSENT key |
| Waitmap.CheckAgreesWithGetAndSet | waitmap.go:38-90 | `Check` is true exactly when `Get` would return without waiting, and exactly when `Set` would return false |
| Waitmap.PresentButUnsetIsNotInTheMap | waitmap.go:56-90 | after `Get` creates an entry, the key is present in the map, yet `Check` answers false and `Set` succeeds and stores its value; "already in the map" means "already set" |
| Representation.NewStore | waitmap.go:21-33 | the empty Go map is well formed and stands for `New()` and `NewCap(c)` for every hint `c` |
| Representation.Get | waitmap.go:38-53 | Go-level Get keeps the store well formed and leaves exactly the old keys plus `k` |
| Representation.Set | waitmap.go:58-79 | Go-level Set keeps the store well formed and leaves exactly the old keys plus `k`; on a well-formed store it succeeds iff `Check` is false; a failed compare-and-swap leaves the store unchanged |
| Representation.Check | waitmap.go:82-90 | Go-level Check is true only for a present key; on a well-formed store it is true iff Go-level Get would return instead of waiting |
| Representation.GetRefines | waitmap.go:38-53 | on a well-formed store, Go-level Get refines `Waitmap.Get`: the same next state under the abstraction, a wait exactly when the abstract Get would block, and the stored value otherwise |
| Representation.SetRefines | waitmap.go:58-79 | on a well-formed store, the fresh-insert path and the compare-and-swap path of Go-level Set refine `Waitmap.Set`, with the same next state and the same result |
| Representation.CheckRefines | waitmap.go:82-90 | on a well-formed store, testing `ok == 1` gives the same answer as `Waitmap.Check` |
| Histories.Step | waitmap.go:38-90 | one operation changes at most its own key; the state only grows; the only way a key becomes SET is a winning `Set` of that value; `Check` leaves the state unchanged |
| Histories.Run | waitmap.go:38-90 | a history gives one reply per operation, and its final state grows its initial one: no entry disappears and no SET value changes |
| Histories.GrowsBetween | waitmap.go:58-79 | between any two points of a history the state only grows: an entry never reverts to ABSENT or UNSET and never changes value |
| Histories.WinnerStays | waitmap.go:72-78 | after a winning `Set(k, v)`, `k` holds `SetTo(v)` in every later state |
| Histories.AtMostOneWinner | waitmap.go:58-79 | in any history, two `Set` calls on the same key that both return true are the same call |
| Histories.NoWinnerOnceSet | waitmap.go:72-78 | if a key is already SET when a history starts, no `Set` on it returns true |
| Histories.WinnerIsObserved | waitmap.go:38-90 | after the winning `Set(k, v)`, every later `Get(k)` yields `v`, every later `Check(k)` is true, and every later `Set(k, ·)` returns false |
| Histories.WinnerIsFinal | waitmap.go:72-75 | the final state of a history holds the winning value of every key that had a winning `Set` |
| Histories.NoSetKeepsUnset | waitmap.go:38-53 | `Get` and `Check` never make a key SET; without a `Set` on `k`, a key that was not SET stays not SET |
| Histories.FirstSetWins | waitmap.go:59-75 | from a state where `k` is not SET, the first `Set` on `k` in a history returns true |
| Histories.ExactlyOneWinner | waitmap.go:58-79 | from a state where `k` is not SET, a history with any `Set` on `k` has exactly one `Set` on `k` that returns true |
| Histories.BlockedUntilWon | waitmap.go:48-75 | if a `Get(k)` would block and a later `Get(k)` returns `v`, then some `Set(k, v)` between them returned true |
| Histories.StepIsLocal | waitmap.go:40-66 | an operation on `k` depends only on the entry of `k`: the same entry gives the same reply and the same next entry |
| Histories.KeysAreIndependent | waitmap.go:40-66 | the replies to the operations on `k`, and `k`'s final entry, equal those of running only `k`'s operations from any state with the same entry for `k` |
| Histories.CheckIsUnobservable | waitmap.go:82-90 | inserting a `Check` anywhere in a history changes no other reply and not the final state; it answers whether `k` is SET at that point |
| Scenarios.FlatGet | waitmap_test.go:7-17 | `Set(1,2)`, `Set(2,3)`, then `Get(1)` is 2 and `Get(2)` is 3, without waiting |
| Scenarios.FlatCheck | waitmap_test.go:19-32 | `Check(1)` is false on a new map and true after `Set(1,2)`; `Check(2)` stays false |
| Scenarios.MultipleSet | waitmap_test.go:51-61 | of two `Set(1,"HI")` calls, the first returns true and the second false |
| Scenarios.RaceOnFreshKey | waitmap.go:58-79 | of any non-empty series of `Set` calls on a key that is not SET, the first returns true, all others false, and the first one's value is stored |
| Scenarios.Rendezvous | waitmap.go:48-75 | any number of `Get(k)` calls on a new key all block; the following `Set(k, x)` wins; every `Get(k)` after it, including the blocked readers' retries, returns `x` |

## Left out

- Locking and atomics: the map mutex, the per-entry `sync.Cond` and the atomicity of `CompareAndSwapUint32`/`LoadUint32` are not modelled. Each call is one atomic step, which is what these primitives are meant to provide.
- Blocking: `Get`'s wait loop (waitmap.go:48-52) becomes the `WouldBlock` outcome. Suspension, wake-up and fairness are not modelled. A woken reader is modelled as a fresh `Get` after the winning `Set`.
- Publication order: in the compare-and-swap path, `e.data = v` is written after `ok` becomes 1 (waitmap.go:72-73). A concurrent reader could then see the flag before the value. The model performs both writes in one step, and `Representation.Valid` excludes the intermediate state. No lemma here covers this interleaving.
- Lost wake-ups: `Broadcast` is called without holding `cond.L` (waitmap.go:74), which could lose a wake-up. This is not modelled.
- Goroutine tests and benchmarks (waitmap_test.go:34-49 and 63-130) exercise timing and concurrency only. Only their sequential content appears in `Scenarios`.
- Dynamic typing: keys and values are `interface{}` in Go. The model uses the type parameters `K` and `V`. Go's runtime panic on an unhashable key is not modelled.
- Keys that are not equal to themselves: the model assumes every key equals itself. In Go, a key that does not, such as a float64 NaN or a value that contains one, is never found by the lookups at waitmap.go:40, 60 and 84. It gets a new entry on every call, so any number of `Set` calls on it return true, every `Get` on it waits, and `Check` on it is false. `Histories.AtMostOneWinner`, `Histories.ExactlyOneWinner` and `Histories.WinnerIsObserved` hold only for keys that equal themselves.
- Capacity hint: `NewCap`'s hint only sizes the Go map's storage, so the model ignores it for every `int`, negative hints included. Go raises a run-time panic for a negative `make` size only for slices and channels, not for maps.
