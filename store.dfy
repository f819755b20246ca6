/** The item model of the key-value store and its periodic expiry sweep.

    Time is an instant on one clock, counted in the same unit as a duration;
    the instant 0 stands for Go's zero `time.Time`, which an item's deadline
    uses to say "never expires". Every real clock reading lies after it. */
module Store {

  /** An instant; 0 is the zero time, i.e. "no deadline". */
  type Time = nat

  /** A span of time, possibly negative or zero. */
  type Duration = int

  /** The two kinds of value a key can hold. */
  datatype DataType = StringType | ListType

  /** The stored payload: a scalar string or an ordered list of strings. */
  datatype Value = Str(s: string) | Lst(list: seq<string>)

  /** A stored item: its kind, its payload and its deadline (0 = never). */
  datatype Item = Item(kind: DataType, value: Value, expiresAt: Time)
  {
    /** Lazy expiry: an item with a deadline is expired strictly after it. */
    predicate IsExpired(now: Time)
    {
      if expiresAt == 0 then false else now > expiresAt
    }

    /** The kind field names the shape of the payload. */
    predicate WellKinded()
    {
      match kind
      case StringType => value.Str?
      case ListType => value.Lst?
    }
  }

  /** The key space. */
  type Data = map<string, Item>

  /** Invariant of the store: every item's kind agrees with its payload. */
  ghost predicate KindsAgree(m: Data)
  {
    forall k :: k in m ==> m[k].WellKinded()
  }

  /** An item with no deadline is live at every instant; an item with a
      deadline is live up to and including the deadline and expired at every
      later instant. */
  lemma ExpiryWindow(item: Item, t: Time)
    ensures item.expiresAt == 0 ==> !item.IsExpired(t)
    ensures item.expiresAt != 0 && t <= item.expiresAt ==> !item.IsExpired(t)
    ensures item.expiresAt != 0 && t > item.expiresAt ==> item.IsExpired(t)
  {
  }

  /** Once expired, an item stays expired: the clock never makes it live again. */
  lemma ExpiryIsPermanent(item: Item, t: Time, u: Time)
    requires t <= u
    ensures item.IsExpired(t) ==> item.IsExpired(u)
  {
  }

  /** The keys a sweep at `now` collects. */
  function ExpiredKeys(m: Data, now: Time): (ks: set<string>)
    ensures ks <= m.Keys
    ensures forall k :: k in m && !m[k].IsExpired(now) ==> k !in ks
    ensures forall k :: k in m && m[k].IsExpired(now) ==> k in ks
  {
    set k | k in m && m[k].IsExpired(now)
  }

  /** The store after a sweep at `now`: the collected keys are deleted. */
  function Sweep(m: Data, now: Time): (r: Data)
    ensures forall k :: k in r ==> k in m && r[k] == m[k] && !r[k].IsExpired(now)
    ensures forall k :: k in m && !m[k].IsExpired(now) ==> k in r
    ensures KindsAgree(m) ==> KindsAgree(r)
  {
    m - ExpiredKeys(m, now)
  }

  /** A second sweep at the same instant deletes nothing. */
  lemma SweepIsIdempotent(m: Data, now: Time)
    ensures Sweep(Sweep(m, now), now) == Sweep(m, now)
  {
    var once := Sweep(m, now);
    assert ExpiredKeys(once, now) == {};
  }

  /** The set of elements of a sequence. */
  function Elems(s: seq<string>): set<string>
  {
    set x | x in s
  }

  /** The map behind the store: keys to items. */
  class DataMap {
    var data: Data

    /** An empty map. */
    constructor ()
      ensures data == map[]
    {
      data := map[];
    }
  }

  /** The store object: the map it guards. The lock, the ticker that
      schedules sweeps and the stop channel are not part of this model. */
  class DataObj {
    const data: DataMap

    /** A store holding an empty map. */
    constructor ()
      ensures fresh(data) && data.data == map[]
    {
      data := new DataMap();
    }

    /** The first pass of a sweep: visits every key once, in an unspecified
        order, and collects those whose deadline is set and has passed. */
    method CollectExpired(now: Time) returns (keysToDelete: seq<string>)
      ensures Elems(keysToDelete) == ExpiredKeys(data.data, now)
      ensures forall i, j :: 0 <= i < j < |keysToDelete| ==> keysToDelete[i] != keysToDelete[j]
    {
      keysToDelete := [];
      var unvisited := data.data.Keys;
      while unvisited != {}
        invariant unvisited <= data.data.Keys
        invariant forall k :: k in keysToDelete <==>
          k in data.data && k !in unvisited && data.data[k].IsExpired(now)
        invariant forall i, j :: 0 <= i < j < |keysToDelete| ==> keysToDelete[i] != keysToDelete[j]
        decreases unvisited
      {
        var k :| k in unvisited;
        var v := data.data[k];
        if v.expiresAt != 0 && now > v.expiresAt {
          keysToDelete := keysToDelete + [k];
        }
        unvisited := unvisited - {k};
      }
    }

    /** A sweep: collect the expired keys, then delete them in a second pass. */
    method CleanExpired(now: Time)
      modifies data
      ensures data.data == Sweep(old(data.data), now)
    {
      var keysToDelete := CollectExpired(now);
      ghost var before := data.data;
      for i := 0 to |keysToDelete|
        invariant data.data == before - Elems(keysToDelete[..i])
      {
        assert keysToDelete[..i + 1] == keysToDelete[..i] + [keysToDelete[i]];
        data.data := data.data - {keysToDelete[i]};
      }
      assert keysToDelete[..|keysToDelete|] == keysToDelete;
    }
  }
}
