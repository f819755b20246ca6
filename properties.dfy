/** Properties that relate several operations of the engine: what a read sees
    after a write, the stack discipline of Push and Pop, the agreement of the
    periodic sweep with lazy expiry, and the kind invariant. */
module Properties {
  import opened Wrappers
  import opened Store
  import opened Engine

  // ---------------------------------------------------------------- strings

  /** A Set is immediately visible to a Get at the same instant. */
  lemma SetThenGet(m: Data, key: string, value: string, ttl: Option<Duration>, now: Time)
    ensures var s := Set(m, key, value, ttl, now);
      Get(s, key, now) == Step(s, Got(Some(Str(value)), StringType, true))
  {
  }

  /** A key set with a positive TTL is found up to and including `now + ttl`
      and not found at any later instant; without one it is always found. */
  lemma SetLifetime(m: Data, key: string, value: string, ttl: Option<Duration>, now: Time, t: Time)
    requires now <= t
    ensures Get(Set(m, key, value, ttl, now), key, t).out.found <==>
      ttl == None || ttl.value <= 0 || t <= now + ttl.value
  {
  }

  /** A successful Update is what the next Get at the same instant returns. */
  lemma UpdateThenGet(m: Data, key: string, value: string, now: Time)
    requires Update(m, key, value, now).out
    ensures var s := Update(m, key, value, now).data;
      Get(s, key, now).out == Got(Some(Str(value)), StringType, true)
  {
  }

  /** After Remove the key is not found, whatever it held. */
  lemma RemoveThenGet(m: Data, key: string, now: Time)
    ensures var s := Remove(m, key).data;
      Get(s, key, now) == Step(s, Got(None, StringType, false))
  {
  }

  // -------------------------------------------------------------------- TTL

  /** SetTTL followed by GetTTL at the same instant gives back the TTL, or the
      "no deadline" sentinel when the TTL was not positive. */
  lemma SetTTLThenGetTTL(m: Data, key: string, ttl: Duration, now: Time)
    requires Live(m, key, now)
    ensures var s := SetTTL(m, key, ttl, now, now).data;
      GetTTL(s, key, now, now) == Step(s, if ttl <= 0 then Ttl(NoExpiry, true) else Ttl(ttl, true))
  {
  }

  /** With a single clock reading, GetTTL never deletes, and a live key with
      a deadline reports exactly the time left until it. */
  lemma GetTTLAtOneInstant(m: Data, key: string, now: Time)
    ensures GetTTL(m, key, now, now).data == m
    ensures Live(m, key, now) && m[key].expiresAt != 0 ==>
      GetTTL(m, key, now, now).out == Ttl(m[key].expiresAt - now, true)
  {
  }

  // ------------------------------------------------------------------ lists

  /** CreateList makes an empty list, and a second CreateList on that key
      refuses. */
  lemma CreateListThenGetList(m: Data, key: string, ttl: Duration, ttl': Duration, now: Time)
    requires key !in m
    ensures var s := CreateList(m, key, ttl, now).data;
      GetList(s, key, now) == Ok([]) && CreateList(s, key, ttl', now) == Step(s, false)
  {
  }

  /** A key that has expired but is still in the map is missing for Get and
      Push, yet CreateList refuses it. */
  lemma CreateListSeesExpiredKeys(m: Data, key: string, value: string, ttl: Duration, now: Time)
    requires key in m && m[key].IsExpired(now)
    ensures !Get(m, key, now).out.found
    ensures Push(m, key, value, now).out
    ensures !CreateList(m, key, ttl, now).out
  {
  }

  /** What a successful Push appends is what GetList then returns at the end. */
  lemma PushThenGetList(m: Data, key: string, value: string, now: Time)
    requires Push(m, key, value, now).out
    ensures var before := if Live(m, key, now) then m[key].value.list else [];
      GetList(Push(m, key, value, now).data, key, now) == Ok(before + [value])
  {
    assert [] + [value] == [value];
  }

  /** Pop undoes Push: it returns the pushed value, and the list is restored
      (a key Push created holds an empty list with no deadline). */
  lemma PushThenPop(m: Data, key: string, value: string, now: Time)
    requires Push(m, key, value, now).out
    ensures var restored := if Live(m, key, now) then m else m[key := Item(ListType, Lst([]), 0)];
      Pop(Push(m, key, value, now).data, key, now) == Step(restored, Popped(value, true))
  {
    if Live(m, key, now) {
      var list := m[key].value.list;
      assert (list + [value])[..|list|] == list;
      assert m[key := m[key].(value := Lst(list))] == m;
    }
  }

  /** Push undoes Pop: pushing the popped value back gives the map as it was. */
  lemma PopThenPush(m: Data, key: string, now: Time)
    requires Pop(m, key, now).out.ok
    ensures var p := Pop(m, key, now);
      Push(p.data, key, p.out.value, now) == Step(m, true)
  {
    var list := m[key].value.list;
    assert list[..|list| - 1] + [list[|list| - 1]] == list;
  }

  /** `vs` pushed in order. */
  function PushAll(m: Data, key: string, vs: seq<string>, now: Time): Data
    decreases |vs|
  {
    if vs == [] then m else PushAll(Push(m, key, vs[0], now).data, key, vs[1..], now)
  }

  /** `n` pops; the reply lists the popped values in the order they came out. */
  function PopAll(m: Data, key: string, n: nat, now: Time): Step<seq<string>>
  {
    if n == 0 then Step(m, [])
    else
      var p := Pop(m, key, now);
      var rest := PopAll(p.data, key, n - 1, now);
      Step(rest.data, [p.out.value] + rest.out)
  }

  /** A sequence back to front. */
  function Reverse(s: seq<string>): (r: seq<string>)
    ensures |r| == |s|
  {
    if s == [] then [] else [s[|s| - 1]] + Reverse(s[..|s| - 1])
  }

  /** The element at position `k` of the reversal is the `k`-th from the end. */
  lemma {:induction false} ReverseAt(s: seq<string>, k: nat)
    requires k < |s|
    ensures Reverse(s)[k] == s[|s| - 1 - k]
  {
    if k > 0 {
      ReverseAt(s[..|s| - 1], k - 1);
    }
  }

  /** Whether `key` holds a live list at `now`. */
  predicate LiveList(m: Data, key: string, now: Time)
  {
    Live(m, key, now) && m[key].kind == ListType && m[key].value.Lst?
  }

  /** A second update of the same key overrides the first. */
  lemma UpdateTwice(m: Data, key: string, first: Item, second: Item)
    ensures m[key := first][key := second] == m[key := second]
  {
    assert m[key := first][key := second] == m[key := second];
  }

  /** One push onto a live list replaces its payload by the longer list. */
  lemma PushOntoLiveList(m: Data, key: string, value: string, now: Time)
    requires LiveList(m, key, now)
    ensures Push(m, key, value, now).data == m[key := m[key].(value := Lst(m[key].value.list + [value]))]
  {
  }

  /** Pushing onto a live list appends, in order, and keeps the deadline. */
  lemma {:induction false} PushAllAppends(m: Data, key: string, vs: seq<string>, now: Time)
    requires LiveList(m, key, now)
    ensures PushAll(m, key, vs, now) == m[key := m[key].(value := Lst(m[key].value.list + vs))]
    decreases |vs|
  {
    var list := m[key].value.list;
    if vs == [] {
      assert list + vs == list;
      assert m[key := m[key].(value := Lst(list))] == m;
    } else {
      var m1 := m[key := m[key].(value := Lst(list + [vs[0]]))];
      PushOntoLiveList(m, key, vs[0], now);
      assert PushAll(m, key, vs, now) == PushAll(m1, key, vs[1..], now);
      PushAllAppends(m1, key, vs[1..], now);
      assert (list + [vs[0]]) + vs[1..] == list + vs;
      UpdateTwice(m, key, m[key].(value := Lst(list + [vs[0]])), m[key].(value := Lst(list + vs)));
    }
  }

  /** Popping `|vs|` times from a live list ending in `vs` returns `vs`
      back to front and leaves the list without them. */
  lemma {:induction false} PopAllReverses(m: Data, key: string, prefix: seq<string>, vs: seq<string>, now: Time)
    requires LiveList(m, key, now) && m[key].value.list == prefix + vs
    ensures PopAll(m, key, |vs|, now) == Step(m[key := m[key].(value := Lst(prefix))], Reverse(vs))
    decreases |vs|
  {
    if vs == [] {
      assert prefix + vs == prefix;
      assert m[key := m[key].(value := Lst(prefix))] == m;
    } else {
      var last := |vs| - 1;
      var list := prefix + vs;
      assert list[|list| - 1] == vs[last];
      assert list[..|list| - 1] == prefix + vs[..last];
      var p := Pop(m, key, now);
      PopAllReverses(p.data, key, prefix, vs[..last], now);
      assert p.data[key := p.data[key].(value := Lst(prefix))] == m[key := m[key].(value := Lst(prefix))];
    }
  }

  /** Giving a key's item another list and then its own list back restores the map. */
  lemma RelistRestores(m: Data, key: string, other: seq<string>)
    requires key in m
    ensures var m1 := m[key := m[key].(value := Lst(other))];
      m1[key := m1[key].(value := m[key].value)] == m
  {
    var m1 := m[key := m[key].(value := Lst(other))];
    assert m1[key := m1[key].(value := m[key].value)] == m;
  }

  /** Stack discipline on a live list: pushing `vs` and then popping as many
      times returns `vs` back to front and restores the map. */
  lemma {:induction false} PushesThenPopsAreLifo(m: Data, key: string, vs: seq<string>, now: Time)
    requires LiveList(m, key, now)
    ensures PopAll(PushAll(m, key, vs, now), key, |vs|, now) == Step(m, Reverse(vs))
  {
    var list := m[key].value.list;
    PushAllAppends(m, key, vs, now);
    var pushed := m[key := m[key].(value := Lst(list + vs))];
    PopAllReverses(pushed, key, list, vs, now);
    RelistRestores(m, key, list + vs);
  }

  /** Pushing onto a key that is not live creates a list of the pushed values
      with no deadline. */
  lemma {:induction false} PushAllCreates(m: Data, key: string, vs: seq<string>, now: Time)
    requires !Live(m, key, now) && vs != []
    ensures PushAll(m, key, vs, now) == m[key := Item(ListType, Lst(vs), 0)]
  {
    var m1 := m[key := Item(ListType, Lst([vs[0]]), 0)];
    assert PushAll(m, key, vs, now) == PushAll(m1, key, vs[1..], now);
    PushAllAppends(m1, key, vs[1..], now);
    assert [vs[0]] + vs[1..] == vs;
    UpdateTwice(m, key, Item(ListType, Lst([vs[0]]), 0), Item(ListType, Lst(vs), 0));
  }

  /** Popping every element of a list without a deadline returns them back
      to front and leaves the list empty. */
  lemma {:induction false} PopAllEmpties(m: Data, key: string, vs: seq<string>, now: Time)
    ensures PopAll(m[key := Item(ListType, Lst(vs), 0)], key, |vs|, now) ==
      Step(m[key := Item(ListType, Lst([]), 0)], Reverse(vs))
  {
    var full := m[key := Item(ListType, Lst(vs), 0)];
    assert full[key].value.list == [] + vs;
    PopAllReverses(full, key, [], vs, now);
    assert full[key := full[key].(value := Lst([]))] == m[key := Item(ListType, Lst([]), 0)];
  }

  /** Stack discipline on a key that is not live: the first Push creates the
      list; popping as many times returns the values back to front and
      leaves an empty list with no deadline, on which Pop fails. */
  lemma {:induction false} PushesOntoMissingKeyThenPops(m: Data, key: string, vs: seq<string>, now: Time)
    requires !Live(m, key, now) && vs != []
    ensures PopAll(PushAll(m, key, vs, now), key, |vs|, now) ==
      Step(m[key := Item(ListType, Lst([]), 0)], Reverse(vs))
  {
    PushAllCreates(m, key, vs, now);
    PopAllEmpties(m, key, vs, now);
  }

  // -------------------------------------------------------- kind invariant

  /** In a store whose kinds agree with their payloads, the payload checks
      never decide anything: list operations fail on a live key exactly when
      it holds a string. */
  lemma KindDecidesListOperations(m: Data, key: string, value: string, now: Time)
    requires KindsAgree(m)
    ensures !Push(m, key, value, now).out <==> Live(m, key, now) && m[key].kind == StringType
    ensures GetList(m, key, now) == Err(TypeMismatch) <==> Live(m, key, now) && m[key].kind == StringType
    ensures Live(m, key, now) && m[key].kind == ListType ==>
      (Pop(m, key, now).out.ok <==> m[key].value.list != [])
  {
  }

  // ------------------------------------------------------------ the sweep

  /** A sweep is invisible to reads: at its instant and at every later one,
      Get, GetList and Pop answer the same with or without it. */
  lemma SweepIsInvisibleToReads(m: Data, key: string, now: Time, t: Time)
    requires now <= t
    ensures Get(Sweep(m, now), key, t).out == Get(m, key, t).out
    ensures GetList(Sweep(m, now), key, t) == GetList(m, key, t)
    ensures Pop(Sweep(m, now), key, t).out == Pop(m, key, t).out
  {
    if key in m {
      ExpiryIsPermanent(m[key], now, t);
    }
  }

  /** Lazy deletion by Get and the sweep delete by the same predicate: a Get
      before a sweep at the same instant leaves the sweep's result unchanged. */
  lemma LazyDeletionAgreesWithSweep(m: Data, key: string, now: Time)
    ensures Sweep(Get(m, key, now).data, now) == Sweep(m, now)
  {
  }
}
