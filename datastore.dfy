/** The repository: the engine's operations as methods that update the
    shared map in place. Each method does one atomic check-then-act step and
    is proved to have exactly the effect and reply of the matching step in
    module Engine. */
module Datastore {
  import opened Wrappers
  import opened Store
  import Engine

  class Repo {
    const items: DataObj

    /** The repository's invariant: every item's kind agrees with its payload. */
    ghost predicate Valid()
      reads items.data
    {
      KindsAgree(items.data.data)
    }

    /** A repository over the store `items`, whose kinds agree with their
        payloads (a new store's empty map does). */
    constructor (items: DataObj)
      requires KindsAgree(items.data.data)
      ensures this.items == items
      ensures Valid()
    {
      this.items := items;
    }

    method Set(key: string, item: string, ttl: Option<Duration>, now: Time)
      requires Valid()
      modifies items.data
      ensures Valid()
      ensures items.data.data == Engine.Set(old(items.data.data), key, item, ttl, now)
    {
      var expiresAt: Time := 0;
      if ttl.Some? && ttl.value > 0 {
        expiresAt := now + ttl.value;
      }
      items.data.data := items.data.data[key := Item(StringType, Str(item), expiresAt)];
    }

    method Get(key: string, now: Time) returns (value: Option<Value>, kind: DataType, found: bool)
      requires Valid()
      modifies items.data
      ensures Valid()
      ensures Engine.Get(old(items.data.data), key, now) ==
        Engine.Step(items.data.data, Engine.Got(value, kind, found))
    {
      if key !in items.data.data {
        return None, StringType, false;
      }
      var item := items.data.data[key];
      if item.IsExpired(now) {
        items.data.data := items.data.data - {key};
        return None, StringType, false;
      }
      return Some(item.value), item.kind, true;
    }

    method Remove(key: string) returns (removed: bool)
      requires Valid()
      modifies items.data
      ensures Valid()
      ensures Engine.Remove(old(items.data.data), key) == Engine.Step(items.data.data, removed)
    {
      var present := key in items.data.data;
      if present {
        items.data.data := items.data.data - {key};
        return true;
      }
      return false;
    }

    method Update(key: string, value: string, now: Time) returns (ok: bool)
      requires Valid()
      modifies items.data
      ensures Valid()
      ensures Engine.Update(old(items.data.data), key, value, now) == Engine.Step(items.data.data, ok)
    {
      if key !in items.data.data || items.data.data[key].IsExpired(now) {
        return false;
      }
      var item := items.data.data[key];
      if item.kind != StringType {
        return false;
      }
      items.data.data := items.data.data[key := item.(value := Str(value))];
      return true;
    }

    method GetTTL(key: string, now: Time, later: Time) returns (remaining: Duration, found: bool)
      requires Valid()
      modifies items.data
      ensures Valid()
      ensures Engine.GetTTL(old(items.data.data), key, now, later) ==
        Engine.Step(items.data.data, Engine.Ttl(remaining, found))
    {
      if key !in items.data.data || items.data.data[key].IsExpired(now) {
        return 0, false;
      }
      var item := items.data.data[key];
      if item.expiresAt == 0 {
        return Engine.NoExpiry, true;
      }
      remaining := item.expiresAt - later;
      if remaining < 0 {
        items.data.data := items.data.data - {key};
        return 0, false;
      }
      found := true;
    }

    method SetTTL(key: string, ttl: Duration, now: Time, later: Time) returns (ok: bool)
      requires Valid()
      modifies items.data
      ensures Valid()
      ensures Engine.SetTTL(old(items.data.data), key, ttl, now, later) == Engine.Step(items.data.data, ok)
    {
      if key !in items.data.data || items.data.data[key].IsExpired(now) {
        return false;
      }
      var item := items.data.data[key];
      if ttl <= 0 {
        item := item.(expiresAt := 0);
      } else {
        item := item.(expiresAt := later + ttl);
      }
      items.data.data := items.data.data[key := item];
      return true;
    }

    /** Reads only: the list returned is a value, so later pushes and pops
        cannot change what the caller holds. */
    method GetList(key: string, now: Time) returns (r: Result<seq<string>, Engine.ListError>)
      requires Valid()
      ensures r == Engine.GetList(items.data.data, key, now)
      ensures r.Ok? ==> items.data.data[key].value == Lst(r.value)
    {
      if key !in items.data.data || items.data.data[key].IsExpired(now) {
        return Err(Engine.NotFound);
      }
      var item := items.data.data[key];
      if item.kind != ListType {
        return Err(Engine.TypeMismatch);
      }
      match item.value
      case Str(_) =>
        return Err(Engine.TypeMismatch);
      case Lst(list) =>
        return Ok(list);
    }

    method CreateList(key: string, ttl: Duration, now: Time) returns (ok: bool)
      requires Valid()
      modifies items.data
      ensures Valid()
      ensures Engine.CreateList(old(items.data.data), key, ttl, now) == Engine.Step(items.data.data, ok)
    {
      if key in items.data.data {
        return false;
      }
      var expiresAt: Time := 0;
      if ttl > 0 {
        expiresAt := now + ttl;
      }
      items.data.data := items.data.data[key := Item(ListType, Lst([]), expiresAt)];
      return true;
    }

    method Push(key: string, value: string, now: Time) returns (ok: bool)
      requires Valid()
      modifies items.data
      ensures Valid()
      ensures Engine.Push(old(items.data.data), key, value, now) == Engine.Step(items.data.data, ok)
    {
      if key !in items.data.data || items.data.data[key].IsExpired(now) {
        items.data.data := items.data.data[key := Item(ListType, Lst([value]), 0)];
        return true;
      }
      var item := items.data.data[key];
      if item.kind != ListType {
        return false;
      }
      match item.value
      case Str(_) =>
        return false;
      case Lst(list) =>
        items.data.data := items.data.data[key := item.(value := Lst(list + [value]))];
        return true;
    }

    method Pop(key: string, now: Time) returns (value: string, ok: bool)
      requires Valid()
      modifies items.data
      ensures Valid()
      ensures Engine.Pop(old(items.data.data), key, now) ==
        Engine.Step(items.data.data, Engine.Popped(value, ok))
    {
      if key !in items.data.data || items.data.data[key].IsExpired(now) {
        return "", false;
      }
      var item := items.data.data[key];
      if item.kind != ListType {
        return "", false;
      }
      match item.value
      case Str(_) =>
        return "", false;
      case Lst(list) =>
        if |list| == 0 {
          return "", false;
        }
        var lastIndex := |list| - 1;
        value := list[lastIndex];
        items.data.data := items.data.data[key := item.(value := Lst(list[..lastIndex]))];
        return value, true;
    }
  }
}
