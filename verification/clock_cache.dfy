/** Clock eviction: a lookup table over a ring of descriptors with usage counts and pin locks. */
module ClockEviction {
  datatype PageID = PageID(fd: int, page: nat)

  /** The tag of a descriptor that was never used. */
  const NO_TAG := PageID(0, 0)

  datatype Descriptor = Descriptor(tag: PageID, usage: nat, lock: bool)

  type Ring = seq<Descriptor>

  /** How many cursor advances lead from `cursor` to `f`. */
  function Offset(n: nat, cursor: nat, f: nat): (o: nat)
    requires f < n && cursor < n
    ensures o < n
  {
    if cursor <= f then f - cursor else f + n - cursor
  }

  ghost predicate HasUnlocked(ring: Ring) {
    exists f :: 0 <= f < |ring| && !ring[f].lock
  }

  /** `v` is the first frame clockwise from the cursor among the unlocked frames of least usage `m`. */
  ghost predicate IsVictim(ring: Ring, cursor: nat, v: nat, m: nat)
    requires cursor < |ring|
  {
    && v < |ring| && !ring[v].lock && ring[v].usage == m
    && (forall f :: 0 <= f < |ring| && !ring[f].lock ==> m <= ring[f].usage)
    && forall f :: 0 <= f < |ring| && !ring[f].lock && Offset(|ring|, cursor, f) < Offset(|ring|, cursor, v) ==>
         m < ring[f].usage
  }

  /** The ring after the sweep: unlocked frames before the victim were passed once more than those after it. */
  ghost predicate Swept(oldRing: Ring, cursor: nat, v: nat, m: nat, ring: Ring)
    requires cursor < |oldRing| && v < |oldRing|
  {
    && |ring| == |oldRing|
    && forall f :: 0 <= f < |ring| && f != v ==>
         && ring[f].tag == oldRing[f].tag && ring[f].lock == oldRing[f].lock
         && ring[f].usage == if oldRing[f].lock then oldRing[f].usage
                             else if Offset(|ring|, cursor, f) < Offset(|ring|, cursor, v) then oldRing[f].usage - m - 1
                             else oldRing[f].usage - m
  }

  /**
    The ring and the cursor after `key` was put: frame `f` is the victim and has the new page, used once; the sweep
    passed the others; the cursor is behind `f`.
   */
  ghost predicate TakenFor(oldRing: Ring, oldCursor: nat, key: PageID, f: nat, lock: bool, ring: Ring, cursor: nat) {
    && oldCursor < |oldRing| == |ring| && f < |ring|
    && (exists m: nat :: IsVictim(oldRing, oldCursor, f, m) && Swept(oldRing, oldCursor, f, m, ring))
    && ring[f] == Descriptor(key, 1, lock)
    && cursor == Successor(|ring|, f)
  }

  lemma LockTaken(oldRing: Ring, oldCursor: nat, key: PageID, f: nat, lock: bool, ring: Ring, cursor: nat, lock': bool)
    requires TakenFor(oldRing, oldCursor, key, f, lock, ring, cursor)
    ensures TakenFor(oldRing, oldCursor, key, f, lock', ring[f := ring[f].(lock := lock')], cursor)
  {
    hide IsVictim;
    var m: nat :| IsVictim(oldRing, oldCursor, f, m) && Swept(oldRing, oldCursor, f, m, ring);
    SweptIgnoresVictim(oldRing, oldCursor, f, m, ring, ring[f].(lock := lock'));
  }

  // --- Hits between two sweeps ---

  function Hit(ring: Ring, f: nat): (r: Ring)
    requires f < |ring|
    ensures |r| == |ring|
  {
    ring[f := ring[f].(usage := ring[f].usage + 1)]
  }

  /** The ring after hits on the listed frames. */
  function AfterHits(ring: Ring, hits: seq<nat>): (r: Ring)
    requires forall i :: 0 <= i < |hits| ==> hits[i] < |ring|
    ensures |r| == |ring|
  {
    if hits == [] then ring else Hit(AfterHits(ring, hits[..|hits| - 1]), hits[|hits| - 1])
  }

  /** Each hit counts once, for its own frame. */
  lemma {:induction false} HitsCount(ring: Ring, hits: seq<nat>, f: nat)
    requires f < |ring| && forall i :: 0 <= i < |hits| ==> hits[i] < |ring|
    ensures AfterHits(ring, hits)[f] == ring[f].(usage := ring[f].usage + multiset(hits)[f])
  {
    if hits == [] {
    } else {
      var n := |hits| - 1;
      assert hits == hits[..n] + [hits[n]];
      HitsCount(ring, hits[..n], f);
    }
  }

  /**
    Of two frames of which the first was not used less before, the one hit more often is not taken first: while the
    other one is unlocked, the victim is a different frame.
   */
  lemma MoreHitsStay(ring: Ring, cursor: nat, hits: seq<nat>, f: nat, g: nat, v: nat, m: nat)
    requires f < |ring| && g < |ring| && cursor < |ring| && forall i :: 0 <= i < |hits| ==> hits[i] < |ring|
    requires ring[g].usage <= ring[f].usage && multiset(hits)[g] < multiset(hits)[f] && !ring[g].lock
    requires IsVictim(AfterHits(ring, hits), cursor, v, m)
    ensures v != f
  {
    HitsCount(ring, hits, f);
    HitsCount(ring, hits, g);
  }

  /** What one request for `key`, by now given back, did to the cache: one more use, or one sweep. */
  ghost predicate Requested(oldTable: map<PageID, nat>, oldRing: Ring, oldCursor: nat, key: PageID,
                            table: map<PageID, nat>, ring: Ring, cursor: nat)
  {
    if key in oldTable then
      && table == oldTable && cursor == oldCursor
      && oldTable[key] < |oldRing| && ring == Hit(oldRing, oldTable[key])
    else
      && key in table && table[key] < |oldRing|
      && TakenFor(oldRing, oldCursor, key, table[key], false, ring, cursor)
      && table == Reindexed(oldTable, oldRing[table[key]].tag, key, table[key])
  }

  /** Giving back what was requested restores the lock. */
  lemma RequestDone(oldTable: map<PageID, nat>, oldRing: Ring, oldCursor: nat, key: PageID, f: nat,
                    table: map<PageID, nat>, mid: Ring, cursor: nat)
    requires key in table && table[key] == f < |oldRing| && |mid| == |oldRing|
    requires key in oldTable ==>
               && f == oldTable[key] && table == oldTable && cursor == oldCursor
               && mid == Hit(oldRing, f)[f := Hit(oldRing, f)[f].(lock := true)]
    requires key !in oldTable ==>
               && TakenFor(oldRing, oldCursor, key, f, true, mid, cursor)
               && table == Reindexed(oldTable, oldRing[f].tag, key, f)
    ensures Requested(oldTable, oldRing, oldCursor, key, table, mid[f := mid[f].(lock := oldRing[f].lock)], cursor)
  {
    hide Swept;
    if key !in oldTable {
      assert !oldRing[f].lock;
      LockTaken(oldRing, oldCursor, key, f, true, mid, cursor, false);
    }
  }

  lemma OffsetInjective(n: nat, cursor: nat, f: nat, g: nat)
    requires f < n && g < n && cursor < n
    ensures Offset(n, cursor, f) == Offset(n, cursor, g) <==> f == g
  {}

  /** The closed form determines the victim. */
  lemma VictimIsUnique(ring: Ring, cursor: nat, v: nat, m: nat, v': nat, m': nat)
    requires cursor < |ring| && IsVictim(ring, cursor, v, m) && IsVictim(ring, cursor, v', m')
    ensures v == v' && m == m'
  {}

  ghost predicate IsLeastUsage(ring: Ring, m: nat) {
    && (exists f :: 0 <= f < |ring| && !ring[f].lock && ring[f].usage == m)
    && forall f :: 0 <= f < |ring| && !ring[f].lock ==> m <= ring[f].usage
  }

  lemma LeastUsage(ring: Ring) returns (m: nat)
    requires HasUnlocked(ring)
    ensures IsLeastUsage(ring, m)
  {
    var f :| 0 <= f < |ring| && !ring[f].lock;
    while exists g :: 0 <= g < |ring| && !ring[g].lock && ring[g].usage < ring[f].usage
      invariant 0 <= f < |ring| && !ring[f].lock
      decreases ring[f].usage
    {
      var g :| 0 <= g < |ring| && !ring[g].lock && ring[g].usage < ring[f].usage;
      f := g;
    }
    m := ring[f].usage;
  }

  lemma SweptIgnoresVictim(oldRing: Ring, cursor: nat, v: nat, m: nat, ring: Ring, d: Descriptor)
    requires cursor < |oldRing| && v < |ring| == |oldRing| && Swept(oldRing, cursor, v, m, ring)
    ensures Swept(oldRing, cursor, v, m, ring[v := d])
  {}

  lemma VictimIsUnlocked(ring: Ring, cursor: nat, v: nat, m: nat)
    requires cursor < |ring| && IsVictim(ring, cursor, v, m)
    ensures v < |ring| && !ring[v].lock
  {}

  // --- The state of a sweep ---

  /** How often a sweep has passed a frame after `lap` turns, `again` counting the current one. */
  ghost function Passes(lap: nat, again: bool): nat {
    if again then lap + 1 else lap
  }

  function Successor(n: nat, cursor: nat): nat {
    if cursor + 1 == n then 0 else cursor + 1
  }

  /** The ring after `lap` full turns from `start` and `steps` more advances. */
  ghost predicate Midway(ring0: Ring, start: nat, lap: nat, steps: nat, ring: Ring, cursor: nat)
    requires start < |ring0|
  {
    && |ring| == |ring0| && cursor < |ring|
    && steps == Offset(|ring|, start, cursor)
    && forall f :: 0 <= f < |ring| ==>
         && ring[f].tag == ring0[f].tag && ring[f].lock == ring0[f].lock
         && var lost := if ring0[f].lock then 0 else Passes(lap, Offset(|ring|, start, f) < steps);
            lost <= ring0[f].usage && ring[f].usage == ring0[f].usage - lost
  }

  function Passed(d: Descriptor): Descriptor {
    if d.lock || d.usage == 0 then d else d.(usage := d.usage - 1)
  }

  /** Ring and cursor after `n` turns of the sweep, none of which stopped it. */
  function After(ring: Ring, cursor: nat, n: nat): (r: (Ring, nat))
    requires cursor < |ring|
    ensures |r.0| == |ring| && r.1 < |ring|
  {
    if n == 0 then (ring, cursor)
    else
      var (swept, at) := After(ring, cursor, n - 1);
      (swept[at := Passed(swept[at])], Successor(|ring|, at))
  }

  /** The sweep stops in the turn after `n` others: the cursor is at an unlocked frame of usage 0. */
  predicate StopsAt(ring: Ring, cursor: nat, n: nat)
    requires cursor < |ring|
  {
    var (swept, at) := After(ring, cursor, n);
    !swept[at].lock && swept[at].usage == 0
  }

  lemma MidwayStart(ring: Ring, start: nat)
    requires start < |ring|
    ensures Midway(ring, start, 0, 0, ring, start)
  {}

  lemma OneMoreLap(lap: nat, n: nat, steps: nat)
    requires steps + 1 == n
    ensures lap * n + steps + 1 == (lap + 1) * n
  {}

  lemma MidwayStep(ring0: Ring, start: nat, lap: nat, steps: nat, ring: Ring, cursor: nat)
    requires start < |ring0| && Midway(ring0, start, lap, steps, ring, cursor)
    requires ring[cursor].lock || ring[cursor].usage > 0
    ensures var next, ring' := Successor(|ring|, cursor), ring[cursor := Passed(ring[cursor])];
            if next == start then steps + 1 == |ring| && Midway(ring0, start, lap + 1, 0, ring', next)
            else Midway(ring0, start, lap, steps + 1, ring', next)
  {
    forall f | 0 <= f < |ring|
      ensures Offset(|ring|, start, f) < steps + 1 <==> Offset(|ring|, start, f) < steps || f == cursor
    {
      OffsetInjective(|ring|, start, f, cursor);
    }
  }

  lemma MidwayEnd(ring0: Ring, start: nat, lap: nat, steps: nat, ring: Ring, cursor: nat, m: nat)
    requires start < |ring0| && Midway(ring0, start, lap, steps, ring, cursor) && IsLeastUsage(ring0, m)
    requires !ring[cursor].lock && ring[cursor].usage == 0
    ensures lap == m && IsVictim(ring0, start, cursor, m) && Swept(ring0, start, cursor, m, ring)
  {}

  lemma LapsBounded(ring0: Ring, start: nat, lap: nat, steps: nat, ring: Ring, cursor: nat, m: nat)
    requires start < |ring0| && Midway(ring0, start, lap, steps, ring, cursor) && IsLeastUsage(ring0, m)
    ensures lap <= m && steps < |ring|
  {}

  lemma MidwayStepOrEnd(ring0: Ring, start: nat, lap: nat, steps: nat, ring: Ring, cursor: nat, m: nat)
    requires start < |ring0| && cursor < |ring| == |ring0|
    requires Midway(ring0, start, lap, steps, ring, cursor) && IsLeastUsage(ring0, m)
    ensures if !ring[cursor].lock && ring[cursor].usage == 0 then
              && lap == m && IsVictim(ring0, start, cursor, m) && Swept(ring0, start, cursor, m, ring)
              && steps == Offset(|ring0|, start, cursor) && ring[cursor] == ring0[cursor].(usage := 0)
            else
              var next, ring' := Successor(|ring|, cursor), ring[cursor := Passed(ring[cursor])];
              if next == start then steps + 1 == |ring| && Midway(ring0, start, lap + 1, 0, ring', next)
              else Midway(ring0, start, lap, steps + 1, ring', next)
  {
    if !ring[cursor].lock && ring[cursor].usage == 0 {
      MidwayEnd(ring0, start, lap, steps, ring, cursor, m);
    } else {
      MidwayStep(ring0, start, lap, steps, ring, cursor);
    }
  }

  /** With an unlocked frame the sweep stops, for the first time, at the victim: its closed form. */
  lemma SweepStops(ring: Ring, cursor: nat) returns (m: nat, n: nat)
    requires cursor < |ring| && HasUnlocked(ring)
    ensures StopsAt(ring, cursor, n) && forall k: nat :: k < n ==> !StopsAt(ring, cursor, k)
    ensures var (swept, v) := After(ring, cursor, n);
            && IsVictim(ring, cursor, v, m) && Swept(ring, cursor, v, m, swept)
            && swept[v] == ring[v].(usage := 0)
            && n == m * |ring| + Offset(|ring|, cursor, v)
  {
    hide Midway, IsVictim, Swept, IsLeastUsage;
    m := LeastUsage(ring);
    n := 0;
    var lap, steps := 0, 0;
    MidwayStart(ring, cursor);
    while !StopsAt(ring, cursor, n)
      invariant Midway(ring, cursor, lap, steps, After(ring, cursor, n).0, After(ring, cursor, n).1)
      invariant n == lap * |ring| + steps
      invariant forall k: nat :: k < n ==> !StopsAt(ring, cursor, k)
      decreases m - lap, |ring| - steps
    {
      var (swept, at) := After(ring, cursor, n);
      LapsBounded(ring, cursor, lap, steps, swept, at, m);
      MidwayStepOrEnd(ring, cursor, lap, steps, swept, at, m);
      n := n + 1;
      if Successor(|ring|, at) == cursor {
        OneMoreLap(lap, |ring|, steps);
        lap, steps := lap + 1, 0;
      } else {
        steps := steps + 1;
      }
    }
    var (swept, at) := After(ring, cursor, n);
    MidwayStepOrEnd(ring, cursor, lap, steps, swept, at, m);
  }

  /** With every frame locked the sweep goes round and changes nothing. */
  lemma {:induction false} AllLockedSpins(ring: Ring, cursor: nat, n: nat)
    requires cursor < |ring| && !HasUnlocked(ring)
    ensures After(ring, cursor, n).0 == ring && !StopsAt(ring, cursor, n)
  {
    if n == 0 {
    } else {
      AllLockedSpins(ring, cursor, n - 1);
    }
  }

  /** The loop of `Put` ends if and only if some frame is unlocked. */
  lemma SweepEndsIff(ring: Ring, cursor: nat)
    requires cursor < |ring|
    ensures (exists n: nat :: StopsAt(ring, cursor, n)) <==> HasUnlocked(ring)
  {
    if HasUnlocked(ring) {
      var m, n := SweepStops(ring, cursor);
    } else {
      forall n: nat | true ensures !StopsAt(ring, cursor, n) {
        AllLockedSpins(ring, cursor, n);
      }
    }
  }

  // --- The index ---

  /** The lookup table and the tags of the used frames are inverse to each other. */
  ghost predicate Indexed(table: map<PageID, nat>, ring: Ring, used: set<nat>) {
    && (forall key :: key in table ==> table[key] in used && table[key] < |ring| && ring[table[key]].tag == key)
    && (forall f :: f in used ==> f < |ring| && ring[f].tag in table && table[ring[f].tag] == f)
    && (forall f :: 0 <= f < |ring| && f !in used ==> ring[f].tag == NO_TAG)
  }

  lemma TagsKeepIndex(table: map<PageID, nat>, ring: Ring, used: set<nat>, f: nat, d: Descriptor)
    requires Indexed(table, ring, used) && f < |ring| && d.tag == ring[f].tag
    ensures Indexed(table, ring[f := d], used)
  {}

  function Reindexed(table: map<PageID, nat>, oldTag: PageID, key: PageID, v: nat): map<PageID, nat> {
    (table - {oldTag})[key := v]
  }

  ghost function Retagged(ring: Ring, v: nat, key: PageID): Ring
    requires v < |ring|
  {
    ring[v := Descriptor(key, 1, ring[v].lock)]
  }

  /**
    Replacing the victim keeps the index exactly when the victim was used before or no page with the default tag is
    cached: otherwise erasing the victim's default tag drops that page from the table.
   */
  lemma ReplaceKeepsIndexIff(table: map<PageID, nat>, ring: Ring, used: set<nat>, v: nat, key: PageID)
    requires Indexed(table, ring, used) && v < |ring| && key !in table
    ensures Indexed(Reindexed(table, ring[v].tag, key, v), Retagged(ring, v, key), used + {v})
        <==> v in used || NO_TAG !in table
  {}

  class ClockCache {
    const capacity: nat
    var table: map<PageID, nat>
    var ring: Ring
    var cursor: nat
    ghost var used: set<nat>

    ghost predicate Valid()
      reads this
    {
      && 0 < capacity == |ring|
      && cursor < capacity
      && Indexed(table, ring, used)
    }

    constructor (capacity: nat)
      requires capacity > 0
      ensures Valid() && this.capacity == capacity && table == map[] && used == {} && cursor == 0
      ensures forall f :: 0 <= f < capacity ==> ring[f] == Descriptor(NO_TAG, 0, false)
    {
      this.capacity := capacity;
      table, cursor, used := map[], 0, {};
      ring := seq(capacity, _ => Descriptor(NO_TAG, 0, false));
    }

    method Get(key: PageID) returns (index: nat, found: bool)
      requires 0 < |ring| && (key in table ==> table[key] < |ring|)
      modifies this`ring
      ensures (old(Valid()) ==> Valid()) && found == (key in table)
      ensures index < |ring|
      ensures if found then
                && index == table[key]
                && ring == old(ring)[index := old(ring)[index].(usage := old(ring)[index].usage + 1)]
              else
                index == 0 && ring == old(ring)
    {
      if key !in table {
        return 0, false;
      }
      index, found := table[key], true;
      ring := ring[index := ring[index].(usage := ring[index].usage + 1)];
    }

    method Increase()
      requires cursor < capacity
      modifies this`cursor
      ensures cursor < capacity && cursor == if old(cursor) + 1 == capacity then 0 else old(cursor) + 1
    {
      cursor := cursor + 1;
      if cursor == capacity {
        cursor := 0;
      }
    }

    /**
      The sweep of `Put`: the cursor advances past locked frames, and past unlocked ones lowering their usage, until it
      is at an unlocked frame of usage 0.
     */
    method Sweep() returns (ghost m: nat, ghost advances: nat)
      requires Valid() && HasUnlocked(ring)
      modifies this`ring, this`cursor
      ensures cursor < capacity == |ring| && Indexed(table, ring, used)
      ensures (ring, cursor) == After(old(ring), old(cursor), advances)
      ensures StopsAt(old(ring), old(cursor), advances)
      ensures forall k: nat :: k < advances ==> !StopsAt(old(ring), old(cursor), k)
      ensures IsVictim(old(ring), old(cursor), cursor, m)
      ensures Swept(old(ring), old(cursor), cursor, m, ring)
      ensures ring[cursor] == old(ring)[cursor].(usage := 0)
      ensures advances == m * capacity + Offset(capacity, old(cursor), cursor)
    {
      hide IsVictim, Swept, Indexed;
      ghost var n;
      m, n := SweepStops(ring, cursor);
      advances := 0;
      while true
        invariant |ring| == capacity && cursor < capacity && Indexed(table, ring, used)
        invariant (ring, cursor) == After(old(ring), old(cursor), advances) && advances <= n
        decreases n - advances
      {
        TagsKeepIndex(table, ring, used, cursor, Passed(ring[cursor]));
        if !ring[cursor].lock {
          if ring[cursor].usage == 0 {
            break;
          }
          ring := ring[cursor := ring[cursor].(usage := ring[cursor].usage - 1)];
        } else {
          assert ring[cursor := Passed(ring[cursor])] == ring;
        }
        Increase();
        advances := advances + 1;
      }
      assert StopsAt(old(ring), old(cursor), advances);
    }

    /**
      Replaces the victim's page by `key`, which is not cached. The table and the tags stay inverse exactly when the
      victim was used before or the page with the default tag is not cached.
     */
    method Put(key: PageID) returns (index: nat, ghost m: nat, ghost advances: nat)
      requires Valid() && HasUnlocked(ring) && key !in table
      modifies this
      ensures Valid() <==> index in old(used) || NO_TAG !in old(table)
      ensures IsVictim(old(ring), old(cursor), index, m)
      ensures Swept(old(ring), old(cursor), index, m, ring)
      ensures ring[index] == Descriptor(key, 1, false)
      ensures table == Reindexed(old(table), old(ring)[index].tag, key, index)
      ensures used == old(used) + {index}
      ensures cursor == Successor(capacity, index)
      ensures advances == m * capacity + Offset(capacity, old(cursor), index)
    {
      hide IsVictim, Swept, Indexed;
      m, advances := Sweep();
      index := cursor;
      ghost var swept := ring;
      SweptIgnoresVictim(old(ring), old(cursor), index, m, ring, Descriptor(key, 1, ring[index].lock));
      ReplaceKeepsIndexIff(table, ring, used, index, key);
      table := table - {ring[cursor].tag};
      ring := ring[cursor := ring[cursor].(tag := key)];
      ring := ring[cursor := ring[cursor].(usage := 1)];
      table := table[key := cursor];
      used := used + {cursor};
      assert ring == Retagged(swept, index, key);
      VictimIsUnlocked(old(ring), old(cursor), index, m);
      Increase();
    }

    method Lock(index: nat)
      requires Valid() && index < capacity
      modifies this`ring
      ensures Valid() && ring == old(ring)[index := old(ring)[index].(lock := true)]
    {
      ring := ring[index := ring[index].(lock := true)];
    }

    method Unlock(index: nat)
      requires Valid() && index < capacity
      modifies this`ring
      ensures Valid() && ring == old(ring)[index := old(ring)[index].(lock := false)]
    {
      ring := ring[index := ring[index].(lock := false)];
    }
  }

  /** An unlocked frame of usage 0 at the cursor is the victim, and no other frame changes. */
  lemma TakenAtOnce(before: Ring, cursor: nat, v: nat, m: nat, after: Ring)
    requires cursor < |before| && !before[cursor].lock && before[cursor].usage == 0
    requires IsVictim(before, cursor, v, m) && v < |before| && Swept(before, cursor, v, m, after)
    ensures v == cursor && m == 0 && |after| == |before|
    ensures forall f :: 0 <= f < |before| && f != v ==> after[f] == before[f]
  {
    VictimIsUnique(before, cursor, v, m, cursor, 0);
  }

  /**
    The default tag is lost at its smallest input: of two frames one holds the page (0, 0); the next page goes to the
    other frame, whose default tag erases (0, 0) from the table although its frame still holds it.
   */
  method DefaultTagIsLost(key: PageID) returns (cache: ClockCache, found: bool)
    requires key != NO_TAG
    ensures !found && !cache.Valid()
    ensures cache.table == map[key := 1]
    ensures cache.ring == [Descriptor(NO_TAG, 1, false), Descriptor(key, 1, false)] && 0 in cache.used
  {
    cache := new ClockCache(2);
    hide Indexed, Swept, IsVictim, Offset;
    ghost var m, n;
    var first, second;
    ghost var start := cache.ring;
    assert !start[0].lock;
    first, m, n := cache.Put(NO_TAG);
    VictimIsUnlocked(start, 0, first, m);
    TakenAtOnce(start, 0, first, m, cache.ring);
    ghost var between := cache.ring;
    assert between == [Descriptor(NO_TAG, 1, false), Descriptor(NO_TAG, 0, false)];
    assert !between[1].lock;
    second, m, n := cache.Put(key);
    VictimIsUnlocked(between, 1, second, m);
    TakenAtOnce(between, 1, second, m, cache.ring);
    assert !cache.Valid();
    var index;
    index, found := cache.Get(NO_TAG);
  }
}
