# In-memory key-value store: storage engine

This project models the storage engine of a small in-memory key-value store
written in Go. The store maps string keys to items. An item is either a
string or a list of strings, and it may carry a deadline after which it
expires. The model covers:

- the item model: the two kinds, the payload, the deadline, and the expiry
  predicate;
- the periodic sweep: it collects the expired keys in one pass and deletes
  them in a second;
- the ten operations of the repository: Set, Get, Remove, Update, GetTTL,
  SetTTL, GetList, CreateList, Push and Pop.

Layout:

- `wrappers.dfy` (module `Wrappers`): `Option` for Go's nil pointer and
  `Result` for Go's `(value, error)` pair.
- `store.dfy` (module `Store`, after `internal/store/basic.go`): `Item` and
  `IsExpired`, the invariant `KindsAgree`, the classes `DataMap` and
  `DataObj`, and the sweep. The sweep is the imperative method
  `CleanExpired`, specified by the function `Sweep`.
- `engine.dfy` (module `Engine`, after `internal/datastore/store.go`): each
  operation as a pure step from a key space to a new key space and a reply.
  Each step's contract states which keys count as missing, when it fails,
  and what a failure leaves unchanged.
- `datastore.dfy` (module `Datastore`): class `Repo`, whose methods update
  the shared map in place the way the Go methods do. Each method is proved
  to produce exactly the step of the matching `Engine` function, and to
  keep the invariant `Valid()`, i.e. every item's kind agrees with its payload.
- `properties.dfy` (module `Properties`): properties that span several
  operations. These are read-after-write, the TTL round trip, Push and Pop as
  a stack (LIFO), the sweep agreeing with lazy expiry, and the kind invariant.

Modelling choices:

- Time is a `nat`. The instant 0 stands for Go's zero `time.Time`, which an
  item uses to mean "never expires". A duration is an `int` in the same unit.
- Every clock reading is a parameter. GetTTL and SetTTL read the clock twice
  in the source. The first reading (`now`) is the expiry check. The second
  (`later`) is `time.Until` or `time.Now().Add`. Because of this, GetTTL's
  branch that deletes a key whose remaining time is negative can be reached:
  the key is live at `now` but past its deadline at `later`. With a single
  reading it never fires (lemma `GetTTLAtOneInstant`).
- The Go item's payload is an untyped `interface{}`. Here it is a tagged
  `Value` (`Str` or `Lst`), kept next to the `kind` field. The `Engine`
  functions keep the source's failed-downcast branches. Lemma
  `KindDecidesListOperations` shows those branches never decide anything
  while `KindsAgree` holds. Every `Engine` step and `Sweep` states in its
  own contract that it keeps `KindsAgree`.
- Get on a missing key replies with Go's zero values. Those are a nil value
  and the kind numbered 0, which is `StringType`.
- Three behaviours of the code that a reader might not expect:
  - Expiry is strict: `time.Now().After(deadline)`
    (internal/store/basic.go:35), so an item is still live at its deadline
    instant (lemma `Store.ExpiryWindow`).
  - Get is not read-only: it deletes an expired key it finds
    (internal/datastore/store.go:50-52).
  - CreateList refuses any key present in the map, expired or not
    (internal/datastore/store.go:156). Get, Update, GetTTL, SetTTL,
    GetList, Push and Pop treat an expired key as missing (lemma
    `CreateListSeesExpiredKeys`). Remove, like CreateList, does not check
    expiry (internal/datastore/store.go:61-64), and Set overwrites any key.

## Model

| member | source | states |
|---|---|---|
| `Store.ExpiryWindow` | internal/store/basic.go:31-36 | an item with no deadline is never expired; an item with a deadline is live up to and including it and expired at every later instant |
| `Store.ExpiryIsPermanent` | internal/store/basic.go:31-36 | an item expired at one instant stays expired at every later instant |
| `Store.ExpiredKeys` | internal/store/basic.go:85-90 | the sweep collects exactly the keys in the map whose item is expired at the sweep's instant |
| `Store.Sweep` | internal/store/basic.go:75-107 | a sweep only removes: every key left was in the map with the identical item and is not expired; every key that was not expired is still there; the kind invariant is kept |
| `Store.SweepIsIdempotent` | internal/store/basic.go:75-107 | a second sweep at the same instant deletes nothing |
| `Store.DataMap.constructor` | internal/store/basic.go:43-47 | a new data map is empty |
| `Store.DataObj.constructor` | internal/store/basic.go:49-60 | a new store holds a fresh, empty data map |
| `Store.DataObj.CollectExpired` | internal/store/basic.go:83-90 | the first pass visits every key once and collects, without duplicates, exactly the keys whose deadline is set and has passed, using the same predicate as lazy expiry |
| `Store.DataObj.CleanExpired` | internal/store/basic.go:75-107 | after the collect pass and the delete pass, the map is the sweep of the old map |
| `Engine.Deadline` | internal/datastore/store.go:160-163 | a TTL that is not positive gives no deadline; a positive one gives a deadline exactly TTL after the reading, never the zero instant |
| `Engine.Set` | internal/datastore/store.go:22-39 | Set always succeeds, stores a string item under the key and leaves every other key as it was; the key is live at once; it has no deadline exactly when the TTL is missing or not positive |
| `Engine.Get` | internal/datastore/store.go:41-55 | found exactly when the key is live; then the item's value and kind come back and nothing changes; otherwise the zero values come back and only that key is deleted (a missing key leaves the map unchanged); kinds and deadlines of live keys are kept, and so is the kind invariant |
| `Engine.Remove` | internal/datastore/store.go:57-67 | true exactly when the key was in the map, expired or not; afterwards the key is absent and every other key is unchanged; the kind invariant is kept |
| `Engine.Update` | internal/datastore/store.go:69-84 | succeeds exactly on a live string key; a failure changes nothing; on success only that key's value changes, and its kind and deadline are kept |
| `Engine.GetTTL` | internal/datastore/store.go:86-107 | a key that is not live gives `(0, false)`; the sentinel -1 is returned exactly for a live key with no deadline; a live key with a deadline is found exactly when the second reading is not past the deadline, and then the remaining time is non-negative and equals the deadline minus the second reading; the map changes exactly when a live key's deadline has passed at the second reading, and then only that key is deleted; the kind invariant is kept |
| `Engine.SetTTL` | internal/datastore/store.go:109-125 | succeeds exactly on a live key; a failure changes nothing; on success kind and value are kept and the deadline is cleared when the TTL is not positive, else set TTL after the second reading |
| `Engine.GetList` | internal/datastore/store.go:127-150 | NotFound exactly when the key is not live; TypeMismatch exactly when it is live but does not hold a list; on success the returned sequence equals the stored list |
| `Engine.CreateList` | internal/datastore/store.go:152-172 | succeeds exactly when the key is absent from the map, even an expired key refuses; a failure changes nothing; on success an empty list is added, live at once, with no deadline exactly when the TTL is not positive and otherwise with the deadline `now + ttl` |
| `Engine.Push` | internal/datastore/store.go:174-201 | a key that is not live becomes the one-element list with no deadline; on a live key it succeeds exactly when the key holds a list, appending the value at the end; a failure changes nothing; kinds and deadlines of live keys are kept |
| `Engine.Pop` | internal/datastore/store.go:203-227 | succeeds exactly on a live non-empty list, returning its last element and removing just that element; a failure returns the empty string and changes nothing; kinds and deadlines are kept |
| `Datastore.Repo.constructor` | internal/datastore/store.go:15-20 | the repository works on the given store and, given a store whose kinds agree with their payloads (an empty one does), starts out satisfying its invariant `Valid()` |
| `Datastore.Repo.Set` | internal/datastore/store.go:22-39 | the in-place update yields the map of `Engine.Set` and keeps the kind invariant |
| `Datastore.Repo.Get` | internal/datastore/store.go:41-55 | the reply and the new map are those of `Engine.Get`; the kind invariant is kept |
| `Datastore.Repo.Remove` | internal/datastore/store.go:57-67 | the reply and the new map are those of `Engine.Remove`; the kind invariant is kept |
| `Datastore.Repo.Update` | internal/datastore/store.go:69-84 | the reply and the new map are those of `Engine.Update`; the kind invariant is kept |
| `Datastore.Repo.GetTTL` | internal/datastore/store.go:86-107 | the reply and the new map are those of `Engine.GetTTL`; the kind invariant is kept |
| `Datastore.Repo.SetTTL` | internal/datastore/store.go:109-125 | the reply and the new map are those of `Engine.SetTTL`; the kind invariant is kept |
| `Datastore.Repo.GetList` | internal/datastore/store.go:127-150 | reads only; the reply is that of `Engine.GetList`, a sequence value equal to the stored list that later pushes and pops cannot change |
| `Datastore.Repo.CreateList` | internal/datastore/store.go:152-172 | the reply and the new map are those of `Engine.CreateList`; the kind invariant is kept |
| `Datastore.Repo.Push` | internal/datastore/store.go:174-201 | the reply and the new map are those of `Engine.Push`; the kind invariant is kept |
| `Datastore.Repo.Pop` | internal/datastore/store.go:203-227 | the reply and the new map are those of `Engine.Pop`; the kind invariant is kept |
| `Properties.SetThenGet` | internal/datastore/store.go:22-55 | a Get right after a Set at the same instant returns the value, kind StringType and found |
| `Properties.SetLifetime` | internal/datastore/store.go:22-55 | after Set with a positive TTL, Get finds the key at every instant up to the deadline and at none after it; without a TTL Get always finds it |
| `Properties.UpdateThenGet` | internal/datastore/store.go:41-84 | after a successful Update, Get at the same instant returns the new value as a string |
| `Properties.RemoveThenGet` | internal/datastore/store.go:41-67 | after Remove, Get reports the key missing |
| `Properties.SetTTLThenGetTTL` | internal/datastore/store.go:86-125 | SetTTL then GetTTL at one instant returns the TTL, or the -1 sentinel when the TTL was not positive (clearing a deadline) |
| `Properties.GetTTLAtOneInstant` | internal/datastore/store.go:86-107 | with a single clock reading GetTTL never deletes, and a live key with a deadline reports exactly deadline minus now |
| `Properties.CreateListThenGetList` | internal/datastore/store.go:127-172 | a created list reads back empty, and a second CreateList on that key refuses and changes nothing |
| `Properties.CreateListSeesExpiredKeys` | internal/datastore/store.go:152-158 | an expired key still in the map is missing for Get and Push, yet CreateList refuses it |
| `Properties.PushThenGetList` | internal/datastore/store.go:127-201 | after a successful Push, GetList returns the previous list (empty for a new key) with the value at the end |
| `Properties.PushThenPop` | internal/datastore/store.go:174-227 | Pop right after a successful Push returns the pushed value and restores the map (a key Push created is left as an empty list with no deadline) |
| `Properties.PopThenPush` | internal/datastore/store.go:174-227 | pushing back the value a successful Pop returned gives the original map |
| `Properties.PushAllAppends` | internal/datastore/store.go:174-201 | pushing a sequence onto a live list appends it in order and keeps kind and deadline |
| `Properties.PushAllCreates` | internal/datastore/store.go:179-187 | pushing a non-empty sequence onto a key that is not live leaves a list of exactly those values with no deadline |
| `Properties.PopAllReverses` | internal/datastore/store.go:203-227 | popping as many times as there are trailing values returns them back to front (`Reverse`, whose element `k` is element `k` from the end by lemma `ReverseAt`) and leaves the list without them |
| `Properties.PopAllEmpties` | internal/datastore/store.go:203-227 | popping every element of a list with no deadline returns them back to front and leaves an empty list with no deadline; the general case, any live list and any prefix left behind, is `PopAllReverses` |
| `Properties.PushesThenPopsAreLifo` | internal/datastore/store.go:174-227 | on a live list, n pushes followed by n pops return the pushed values in reverse order and restore the map |
| `Properties.PushesOntoMissingKeyThenPops` | internal/datastore/store.go:174-227 | on a key that is not live, n pushes followed by n pops return the values in reverse order and leave an empty list with no deadline |
| `Properties.KindDecidesListOperations` | internal/datastore/store.go:127-227 | while kinds agree with payloads, Push fails and GetList reports TypeMismatch exactly on a live string key, and Pop on a live list fails exactly when it is empty |
| `Properties.SweepIsInvisibleToReads` | internal/store/basic.go:85-96 | at the sweep's instant and at every later one, Get, GetList and Pop answer the same with or without the sweep |
| `Properties.LazyDeletionAgreesWithSweep` | internal/store/basic.go:85-96 | a Get that lazily deletes an expired key before a sweep at the same instant does not change the sweep's result |

## Left out

- The `sync.RWMutex`: each operation is one atomic step here, since every
  Go operation holds the lock from start to finish.
- The ticker, the `runCleanUp` goroutine and its `select` loop, and
  `StopCh`/`Stop`: these schedule and stop sweeps and hold no store logic.
  A sweep is modelled as one call of `CleanExpired`.
- Real wall-clock time: every reading of `time.Now` and `time.Until` is a
  parameter.
- Logging: the `fmt` output, and the check after each delete that only logs
  (internal/store/basic.go:97-102).
- The 64-bit width of `time.Duration` and the overflow of `time.Add`:
  times and durations are unbounded integers.
- Aliasing of `*Item` pointers: Update, SetTTL, Push and Pop write through a
  pointer to the map entry. Here the updated item is stored back into the
  map. Nothing else holds these pointers, so the effect is the same.
- Get on a list key returns the live Go slice, not a copy. A later Push can
  write into that slice's backing array. Values here are immutable, so the
  model does not capture this sharing.
- Set's `error` result is always nil, so `Repo.Set` returns nothing.
- The facade in internal/datastore/service.go and the interface in
  internal/datastore/repository.go only forward calls to the repository. The
  HTTP handlers, router, startup code and the HTTP client in pkg/gocache are
  not part of this model.
