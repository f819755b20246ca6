/** The ten operations of the storage engine, each as one atomic step from a
    key space to a key space and a reply. Clock readings are parameters: an
    operation that reads the clock twice takes `now` (the reading its expiry
    check uses) and `later` (the second reading).

    A key is LIVE when it is in the map and its item has not expired. */
module Engine {
  import opened Wrappers
  import opened Store

  /** One step: the key space afterwards and what the caller gets back. */
  datatype Step<+R> = Step(data: Data, out: R)

  /** The reply of Get: `(value, kind, found)`; a miss carries Go's zero
      values, a nil value and the kind numbered 0, which is StringType. */
  datatype Got = Got(value: Option<Value>, kind: DataType, found: bool)

  /** The reply of GetTTL: `(remaining, found)`; -1 means "no deadline". */
  datatype Ttl = Ttl(remaining: Duration, found: bool)

  /** The reply of Pop: `(value, ok)`; a failure carries the empty string. */
  datatype Popped = Popped(value: string, ok: bool)

  /** The two errors GetList reports. */
  datatype ListError = NotFound | TypeMismatch

  /** The "no deadline" sentinel of GetTTL. */
  const NoExpiry: Duration := -1

  /** Whether `key` is present and not expired at `now`. */
  predicate Live(m: Data, key: string, now: Time)
  {
    key in m && !m[key].IsExpired(now)
  }

  /** The deadline a TTL gives from `now`: none for a TTL that is not positive. */
  function Deadline(now: Time, ttl: Duration): (t: Time)
    ensures t == 0 <==> ttl <= 0
    ensures t != 0 ==> t > now && t - now == ttl
  {
    if ttl > 0 then now + ttl else 0
  }

  /** Every key live before that is still present keeps its kind and its deadline. */
  ghost predicate KeepsKindsAndDeadlines(m: Data, m': Data, now: Time)
  {
    forall k :: k in m' && Live(m, k, now) ==>
      m'[k].kind == m[k].kind && m'[k].expiresAt == m[k].expiresAt
  }

  /** Creates or overwrites `key` as a string; a missing or non-positive TTL
      means no deadline. Always succeeds. */
  function Set(m: Data, key: string, value: string, ttl: Option<Duration>, now: Time): (r: Data)
    ensures r.Keys == m.Keys + {key}
    ensures forall k :: k in m && k != key ==> r[k] == m[k]
    ensures r[key].kind == StringType && r[key].value == Str(value)
    ensures r[key].expiresAt == 0 <==> ttl == None || ttl.value <= 0
    ensures Live(r, key, now)
    ensures KindsAgree(m) ==> KindsAgree(r)
  {
    var expiresAt := if ttl.Some? then Deadline(now, ttl.value) else 0;
    m[key := Item(StringType, Str(value), expiresAt)]
  }

  /** Looks `key` up; an expired key is reported missing and deleted. */
  function Get(m: Data, key: string, now: Time): (r: Step<Got>)
    ensures r.out.found <==> Live(m, key, now)
    ensures r.out.found ==> r.data == m && r.out == Got(Some(m[key].value), m[key].kind, true)
    ensures !r.out.found ==> r.data == m - {key} && r.out == Got(None, StringType, false)
    ensures key !in m ==> r.data == m
    ensures KeepsKindsAndDeadlines(m, r.data, now)
    ensures KindsAgree(m) ==> KindsAgree(r.data)
  {
    if key !in m then
      Step(m, Got(None, StringType, false))
    else if m[key].IsExpired(now) then
      Step(m - {key}, Got(None, StringType, false))
    else
      Step(m, Got(Some(m[key].value), m[key].kind, true))
  }

  /** Deletes `key` whatever its kind and whether or not it has expired. */
  function Remove(m: Data, key: string): (r: Step<bool>)
    ensures r.out <==> key in m
    ensures key !in r.data
    ensures forall k :: k != key ==> (k in r.data <==> k in m)
    ensures forall k :: k in r.data ==> r.data[k] == m[k]
    ensures KindsAgree(m) ==> KindsAgree(r.data)
  {
    if key in m then Step(m - {key}, true) else Step(m, false)
  }

  /** Replaces the value of a live string key. */
  function Update(m: Data, key: string, value: string, now: Time): (r: Step<bool>)
    ensures r.out <==> Live(m, key, now) && m[key].kind == StringType
    ensures !r.out ==> r.data == m
    ensures r.data.Keys == m.Keys
    ensures forall k :: k in m && k != key ==> r.data[k] == m[k]
    ensures r.out ==> r.data[key].value == Str(value)
    ensures KeepsKindsAndDeadlines(m, r.data, now)
    ensures KindsAgree(m) ==> KindsAgree(r.data)
  {
    if key !in m || m[key].IsExpired(now) then Step(m, false)
    else if m[key].kind != StringType then Step(m, false)
    else Step(m[key := m[key].(value := Str(value))], true)
  }

  /** The time left before `key` expires, measured at the second reading
      `later`; -1 for a key with no deadline. A deadline that the second
      reading finds already passed deletes the key. */
  function GetTTL(m: Data, key: string, now: Time, later: Time): (r: Step<Ttl>)
    ensures !Live(m, key, now) ==> r == Step(m, Ttl(0, false))
    ensures Live(m, key, now) && m[key].expiresAt == 0 ==> r == Step(m, Ttl(NoExpiry, true))
    ensures r.out.found && r.out.remaining != NoExpiry ==>
      r.data == m && r.out.remaining >= 0 && m[key].expiresAt == later + r.out.remaining
    ensures !r.out.found ==> r.out.remaining == 0 && (r.data == m || r.data == m - {key})
    ensures later <= now ==> r.data == m
    ensures r.out.found && r.out.remaining == NoExpiry ==> m[key].expiresAt == 0
    ensures Live(m, key, now) && m[key].expiresAt != 0 ==> (r.out.found <==> later <= m[key].expiresAt)
    ensures r.data != m <==> Live(m, key, now) && m[key].expiresAt != 0 && m[key].expiresAt < later
    ensures KindsAgree(m) ==> KindsAgree(r.data)
  {
    if key !in m || m[key].IsExpired(now) then
      Step(m, Ttl(0, false))
    else if m[key].expiresAt == 0 then
      Step(m, Ttl(NoExpiry, true))
    else
      var remaining := m[key].expiresAt - later;
      if remaining < 0 then Step(m - {key}, Ttl(0, false))
      else Step(m, Ttl(remaining, true))
  }

  /** Gives a live key a new deadline `ttl` after the second reading
      `later`, or removes its deadline when `ttl` is not positive. */
  function SetTTL(m: Data, key: string, ttl: Duration, now: Time, later: Time): (r: Step<bool>)
    ensures r.out <==> Live(m, key, now)
    ensures !r.out ==> r.data == m
    ensures r.data.Keys == m.Keys
    ensures forall k :: k in m && k != key ==> r.data[k] == m[k]
    ensures r.out ==> r.data[key].kind == m[key].kind && r.data[key].value == m[key].value
    ensures r.out ==> (r.data[key].expiresAt == 0 <==> ttl <= 0)
    ensures r.out && ttl > 0 ==> r.data[key].expiresAt == later + ttl
    ensures KindsAgree(m) ==> KindsAgree(r.data)
  {
    if key !in m || m[key].IsExpired(now) then Step(m, false)
    else Step(m[key := m[key].(expiresAt := Deadline(later, ttl))], true)
  }

  /** The list held by `key`, as a value of its own. */
  function GetList(m: Data, key: string, now: Time): (r: Result<seq<string>, ListError>)
    ensures r == Err(NotFound) <==> !Live(m, key, now)
    ensures r == Err(TypeMismatch) <==> Live(m, key, now) && (m[key].kind != ListType || !m[key].value.Lst?)
    ensures r.Ok? ==> m[key].value == Lst(r.value)
  {
    if key !in m || m[key].IsExpired(now) then Err(NotFound)
    else if m[key].kind != ListType then Err(TypeMismatch)
    else match m[key].value
      case Lst(list) => Ok(list)
      case Str(_) => Err(TypeMismatch)
  }

  /** Creates an empty list under a key absent from the map; a key that is
      present refuses, even when it has expired. */
  function CreateList(m: Data, key: string, ttl: Duration, now: Time): (r: Step<bool>)
    ensures r.out <==> key !in m
    ensures !r.out ==> r.data == m
    ensures r.out ==> r.data.Keys == m.Keys + {key} && forall k :: k in m ==> r.data[k] == m[k]
    ensures r.out ==> r.data[key].kind == ListType && r.data[key].value == Lst([])
    ensures r.out ==> (r.data[key].expiresAt == 0 <==> ttl <= 0) && Live(r.data, key, now)
    ensures r.out && ttl > 0 ==> r.data[key].expiresAt == now + ttl
    ensures KindsAgree(m) ==> KindsAgree(r.data)
  {
    if key in m then Step(m, false)
    else Step(m[key := Item(ListType, Lst([]), Deadline(now, ttl))], true)
  }

  /** Appends `value` to the list of `key`; a missing or expired key becomes
      a new one-element list with no deadline. */
  function Push(m: Data, key: string, value: string, now: Time): (r: Step<bool>)
    ensures !Live(m, key, now) ==> r == Step(m[key := Item(ListType, Lst([value]), 0)], true)
    ensures Live(m, key, now) ==> (r.out <==> m[key].kind == ListType && m[key].value.Lst?)
    ensures !r.out ==> r.data == m
    ensures r.data.Keys == m.Keys + {key}
    ensures forall k :: k in m && k != key ==> r.data[k] == m[k]
    ensures r.out && Live(m, key, now) ==> r.data[key].value == Lst(m[key].value.list + [value])
    ensures KeepsKindsAndDeadlines(m, r.data, now)
    ensures KindsAgree(m) ==> KindsAgree(r.data)
  {
    if key !in m || m[key].IsExpired(now) then
      Step(m[key := Item(ListType, Lst([value]), 0)], true)
    else if m[key].kind != ListType then
      Step(m, false)
    else match m[key].value
      case Lst(list) => Step(m[key := m[key].(value := Lst(list + [value]))], true)
      case Str(_) => Step(m, false)
  }

  /** Removes and returns the last element of the list of `key`. */
  function Pop(m: Data, key: string, now: Time): (r: Step<Popped>)
    ensures r.out.ok <==>
      Live(m, key, now) && m[key].kind == ListType && m[key].value.Lst? && m[key].value.list != []
    ensures !r.out.ok ==> r == Step(m, Popped("", false))
    ensures r.data.Keys == m.Keys
    ensures forall k :: k in m && k != key ==> r.data[k] == m[k]
    ensures r.out.ok ==>
      var list := m[key].value.list;
      r.out.value == list[|list| - 1] && r.data[key].value == Lst(list[..|list| - 1])
    ensures KeepsKindsAndDeadlines(m, r.data, now)
    ensures KindsAgree(m) ==> KindsAgree(r.data)
  {
    if key !in m || m[key].IsExpired(now) then Step(m, Popped("", false))
    else if m[key].kind != ListType then Step(m, Popped("", false))
    else match m[key].value
      case Str(_) => Step(m, Popped("", false))
      case Lst(list) =>
        if |list| == 0 then Step(m, Popped("", false))
        else
          var lastIndex := |list| - 1;
          Step(m[key := m[key].(value := Lst(list[..lastIndex]))], Popped(list[lastIndex], true))
  }
}
