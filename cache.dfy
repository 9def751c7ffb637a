/**
 * The in-process cache of models/cache.py: one `CacheEntry` per worksheet, held by a
 * `CacheManager` under the worksheet's name. Time is the integer `now` the caller
 * passes in for `time.time()`, and the byte estimate of a row, `len(json.dumps(row))`,
 * is the function `size` the caller passes in.
 */
module Cache {
  import opened Wrappers
  import opened Records
  import opened Seqs

  /** A byte count that is never zero: the JSON text of a row is at least `{}`. */
  type Pos = n: int | n > 0 witness 1

  /** The value held by one cache entry. */
  datatype Snapshot = Snapshot(data: seq<Record>, timestamp: int, sizeBytes: int)

  /** A whole cache, as a value: worksheet name to entry. */
  type Contents = map<string, Snapshot>

  /**
   * The effect of a write-through append: the named entry, if there is one, gains
   * `row` at its end, grows by the row's size and is re-stamped; nothing else changes,
   * and no entry is ever created.
   */
  function AppendedTo(c: Contents, name: string, row: Record, now: int, size: Record -> Pos): (r: Contents)
    ensures r.Keys == c.Keys
    ensures forall k :: k in c && k != name ==> r[k] == c[k]
    ensures name in c ==>
      && |r[name].data| == |c[name].data| + 1
      && r[name].data[..|c[name].data|] == c[name].data
      && r[name].data[|c[name].data|] == row
      && r[name].sizeBytes == c[name].sizeBytes + size(row)
      && r[name].timestamp == now
    ensures name !in c ==> r == c
  {
    if name in c then
      c[name := Snapshot(c[name].data + [row], now, c[name].sizeBytes + size(row))]
    else c
  }

  /**
   * The effect of a write-through update: in the named entry, the first row that
   * satisfies `matchFn` has `updates` merged into it and the entry is re-stamped;
   * when the entry is missing or no row matches, nothing changes at all.
   */
  function UpdatedIn(c: Contents, name: string, matchFn: Record -> bool, updates: Updates, now: int): (r: Contents)
    ensures r.Keys == c.Keys
    ensures forall k :: k in c && k != name ==> r[k] == c[k]
    ensures name in c && FirstMatch(c[name].data, matchFn).Some? ==>
      var k := FirstMatch(c[name].data, matchFn).value;
      && |r[name].data| == |c[name].data|
      && r[name].data[k] == c[name].data[k] + AsMap(updates)
      && (forall j :: 0 <= j < |c[name].data| && j != k ==> r[name].data[j] == c[name].data[j])
      && r[name].timestamp == now
      && r[name].sizeBytes == c[name].sizeBytes
    ensures (name !in c || FirstMatch(c[name].data, matchFn).None?) ==> r == c
  {
    if name !in c then c
    else
      match FirstMatch(c[name].data, matchFn)
      case None => c
      case Some(k) =>
        var e := c[name];
        ApplyIsMerge(e.data[k], updates);
        c[name := Snapshot(e.data[k := Apply(e.data[k], updates)], now, e.sizeBytes)]
  }

  /**
   * The effect of `invalidate(sheet_name)`: a non-empty name drops that entry alone;
   * `None`, and also the empty name (Python's `if sheet_name:` is false for it), drop
   * every entry.
   */
  function Invalidated(c: Contents, name: Option<string>): (r: Contents)
    ensures name.Some? && name.value != "" ==> r.Keys == c.Keys - {name.value}
    ensures forall k :: k in r ==> k in c && r[k] == c[k]
    ensures name.None? || name.value == "" ==> r == map[]
  {
    if name.Some? && name.value != "" then c - {name.value} else map[]
  }

  /** Invalidating twice is invalidating once. */
  lemma InvalidateIdempotent(c: Contents, name: Option<string>)
    ensures Invalidated(Invalidated(c, name), name) == Invalidated(c, name)
  {
  }

  /** `CacheEntry`: the rows of one worksheet, when they were fetched, and their estimated size. */
  class CacheEntry {
    var data: seq<Record>
    var timestamp: int
    var sizeBytes: int

    constructor (data: seq<Record>, timestamp: int, sizeBytes: int)
      ensures View() == Snapshot(data, timestamp, sizeBytes)
    {
      this.data := data;
      this.timestamp := timestamp;
      this.sizeBytes := sizeBytes;
    }

    function View(): Snapshot
      reads this
    {
      Snapshot(data, timestamp, sizeBytes)
    }

    /** Seconds since the entry was stamped. */
    function Age(now: int): (a: int)
      reads this
      ensures a + timestamp == now
      ensures a >= 0 <==> now >= timestamp
    {
      now - timestamp
    }

    /** The entry has reached its time-to-live. */
    predicate IsStale(ttl: int, now: int)
      reads this
      ensures IsStale(ttl, now) <==> now - timestamp >= ttl
    {
      Age(now) >= ttl
    }

    /** The entry is younger than its time-to-live: exactly when it is not stale. */
    predicate IsFresh(ttl: int, now: int)
      reads this
      ensures IsFresh(ttl, now) <==> now - timestamp < ttl
      ensures IsFresh(ttl, now) <==> !IsStale(ttl, now)
    {
      Age(now) < ttl
    }

    /** Re-stamps the entry; its rows and size stay as they are. */
    method MarkFresh(now: int)
      modifies this
      ensures View() == old(View()).(timestamp := now)
    {
      timestamp := now;
    }

    /** Appends a row, adds its size to the estimate and re-stamps the entry. */
    method AddRow(row: Record, now: int, size: Record -> Pos)
      modifies this
      ensures View() == Snapshot(old(data) + [row], now, old(sizeBytes) + size(row))
      ensures sizeBytes > old(sizeBytes)
    {
      data := data + [row];
      sizeBytes := sizeBytes + size(row);
      MarkFresh(now);
    }
  }

  /** An entry that is stale stays stale until it is re-stamped; a fresh one was fresh before. */
  lemma FreshnessIsMonotone(e: CacheEntry, ttl: int, t1: int, t2: int)
    requires t1 <= t2
    ensures e.IsStale(ttl, t1) ==> e.IsStale(ttl, t2)
    ensures e.IsFresh(ttl, t2) ==> e.IsFresh(ttl, t1)
  {
  }

  /**
   * `CacheManager`: the worksheet-name-to-entry dict. `order` is the dict's key order
   * (insertion order, which `keys()` reports); distinct names hold distinct entries.
   */
  class CacheManager {
    var entries: map<string, CacheEntry>
    var order: seq<string>

    ghost predicate Valid()
      reads this
    {
      && NoDups(order)
      && (forall k :: k in order <==> k in entries)
      && (forall a, b :: a in entries && b in entries && a != b ==> entries[a] != entries[b])
    }

    /** The cache's value. */
    function Contents(): Contents
      reads this, entries.Values
    {
      map k | k in entries :: entries[k].View()
    }

    constructor ()
      ensures Valid() && Contents() == map[] && order == [] && entries == map[]
    {
      entries := map[];
      order := [];
    }

    /** `get`: the entry stored under `name`, if any. */
    function Get(name: string): (e: Option<CacheEntry>)
      reads this, entries.Values
      ensures e.Some? <==> name in Contents()
      ensures e.Some? ==> e.value.View() == Contents()[name]
    {
      if name in entries then Some(entries[name]) else None
    }

    /** `has`: whether an entry is stored under `name`. */
    predicate Has(name: string)
      reads this, entries.Values
      ensures Has(name) <==> name in Contents()
    {
      name in entries
    }

    /** `set`: creates or replaces the entry, stamped `now`; every other entry stays as it was. */
    method Set(name: string, data: seq<Record>, sizeBytes: int, now: int)
      requires Valid()
      modifies this
      ensures Valid()
      ensures Contents() == old(Contents())[name := Snapshot(data, now, sizeBytes)]
      ensures order == if name in old(entries) then old(order) else old(order) + [name]
      ensures name in entries && fresh(entries[name])
      ensures forall k :: k in old(entries) && k != name ==> k in entries && entries[k] == old(entries)[k]
    {
      var e := new CacheEntry(data, now, sizeBytes);
      Store(name, e);
    }

    /** Puts a new entry `e` under `name`, keeping the key order of the dict. */
    method Store(name: string, e: CacheEntry)
      requires Valid() && e !in entries.Values
      modifies this
      ensures Valid()
      ensures Contents() == old(Contents())[name := e.View()]
      ensures order == if name in old(entries) then old(order) else old(order) + [name]
      ensures entries == old(entries)[name := e]
    {
      ghost var target := Contents()[name := e.View()];
      if name !in entries {
        order := order + [name];
      }
      entries := entries[name := e];
      assert Contents() == target;
    }

    /**
     * `append_row`: true, and `AddRow` on that entry alone, when `name` is cached;
     * false, with nothing changed, when it is not.
     */
    method AppendRow(name: string, row: Record, now: int, size: Record -> Pos) returns (ok: bool)
      requires Valid()
      modifies entries.Values
      ensures Valid() && entries == old(entries) && order == old(order)
      ensures ok == (name in old(Contents()))
      ensures Contents() == AppendedTo(old(Contents()), name, row, now, size)
    {
      if name in entries {
        entries[name].AddRow(row, now, size);
        ok := true;
      } else {
        ok := false;
      }
      assert Contents() == AppendedTo(old(Contents()), name, row, now, size);
    }

    /**
     * `update_row`: merges `updates` into the first row of the entry that satisfies
     * `matchFn` and re-stamps the entry, returning true; false, with nothing changed,
     * when the entry is missing or no row matches.
     */
    method UpdateRow(name: string, matchFn: Record -> bool, updates: Updates, now: int) returns (found: bool)
      requires Valid()
      modifies entries.Values
      ensures Valid() && entries == old(entries) && order == old(order)
      ensures found == (name in old(Contents()) && FirstMatch(old(Contents())[name].data, matchFn).Some?)
      ensures Contents() == UpdatedIn(old(Contents()), name, matchFn, updates, now)
    {
      if name !in entries {
        return false;
      }
      var cached := entries[name];
      var i := 0;
      while i < |cached.data|
        invariant 0 <= i <= |cached.data|
        invariant forall j :: 0 <= j < i ==> !matchFn(cached.data[j])
      {
        if matchFn(cached.data[i]) {
          assert FirstMatch(cached.data, matchFn) == Some(i);
          cached.data := cached.data[i := Apply(cached.data[i], updates)];
          cached.MarkFresh(now);
          assert Contents() == UpdatedIn(old(Contents()), name, matchFn, updates, now);
          return true;
        }
        i := i + 1;
      }
      return false;
    }

    /** `invalidate`: drops one entry, or all of them for `None` or the empty name. */
    method Invalidate(name: Option<string>)
      requires Valid()
      modifies this
      ensures Valid()
      ensures Contents() == Invalidated(old(Contents()), name)
      ensures order == if name.Some? && name.value != "" then Without(old(order), name.value) else []
      ensures entries == if name.Some? && name.value != "" then old(entries) - {name.value} else map[]
    {
      if name.Some? && name.value != "" {
        if name.value in entries {
          Remove(name.value);
        } else {
          AbsentUnchanged(name.value);
        }
      } else {
        Clear();
      }
    }

    /** `del self._cache[name]` for a cached `name`. */
    method Remove(name: string)
      requires Valid() && name in entries
      modifies this
      ensures Valid()
      ensures Contents() == old(Contents()) - {name}
      ensures order == Without(old(order), name)
      ensures entries == old(entries) - {name}
    {
      ghost var target := Contents() - {name};
      WithoutNoDups(order, name);
      WithoutMembers(order, name);
      entries := entries - {name};
      order := Without(order, name);
      assert Contents() == target;
    }

    /** Dropping a name that is not cached changes nothing. */
    lemma AbsentUnchanged(name: string)
      requires Valid() && name !in entries
      ensures Without(order, name) == order
      ensures entries - {name} == entries
      ensures Contents() - {name} == Contents()
    {
      WithoutAbsent(order, name);
    }

    /** `keys`: every cached name exactly once, in insertion order. */
    method Keys() returns (ks: seq<string>)
      requires Valid()
      ensures NoDups(ks)
      ensures forall k :: k in ks <==> Has(k)
      ensures ks == order
    {
      ks := order;
    }

    /** `clear`: drops every entry. */
    method Clear()
      requires Valid()
      modifies this
      ensures Valid() && Contents() == map[] && order == [] && entries == map[]
    {
      entries := map[];
      order := [];
    }
  }
}
