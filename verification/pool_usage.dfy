/** What requests do to the usage of pages: a page requested more often is not the first to leave. */
module PoolUsage {
  import opened ClockEviction
  import opened BufferPool

  /** The frames that hold the listed pages of a file. */
  function FramesOf(table: map<PageID, nat>, fd: int, ps: seq<nat>): (fs: seq<nat>)
    requires forall i :: 0 <= i < |ps| ==> PageID(fd, ps[i]) in table
    ensures |fs| == |ps| && forall i :: 0 <= i < |fs| ==> fs[i] == table[PageID(fd, ps[i])]
  {
    seq(|ps|, i requires 0 <= i < |ps| => table[PageID(fd, ps[i])])
  }

  /** Different pages are in different frames, so a frame is hit as often as its page is requested. */
  lemma {:induction false} FrameHits(table: map<PageID, nat>, ring: Ring, used: set<nat>, fd: int, ps: seq<nat>, p: nat)
    requires Indexed(table, ring, used) && PageID(fd, p) in table
    requires forall i :: 0 <= i < |ps| ==> PageID(fd, ps[i]) in table
    ensures multiset(FramesOf(table, fd, ps))[table[PageID(fd, p)]] == multiset(ps)[p]
  {
    if ps == [] {
    } else {
      var n := |ps| - 1;
      assert ps == ps[..n] + [ps[n]];
      assert FramesOf(table, fd, ps) == FramesOf(table, fd, ps[..n]) + [table[PageID(fd, ps[n])]];
      FrameHits(table, ring, used, fd, ps[..n], p);
      OneFrameEach(table, ring, used, PageID(fd, p), PageID(fd, ps[n]));
    }
  }

  lemma OneFrameEach(table: map<PageID, nat>, ring: Ring, used: set<nat>, a: PageID, b: PageID)
    requires Indexed(table, ring, used) && a in table && b in table
    ensures table[a] == table[b] <==> a == b
  {}

  lemma OneMoreHit(ring: Ring, hits: seq<nat>, n: nat)
    requires n < |hits| && forall i :: 0 <= i < |hits| ==> hits[i] < |ring|
    ensures AfterHits(ring, hits[..n + 1]) == Hit(AfterHits(ring, hits[..n]), hits[n])
  {
    assert hits[..n + 1][..n] == hits[..n];
  }

  lemma CachedInRing(pool: FramePool, key: PageID)
    requires pool.Valid() && key in pool.cache.table
    ensures pool.cache.table[key] < |pool.cache.ring| == |pool.frames|
    ensures pool.cache.ring[pool.cache.table[key]].lock <==> pool.cache.table[key] in pool.pins
  {
    LockedWhilePinned(pool.cache.ring, pool.cache.used, pool.frames, pool.pins, pool.cache.table[key]);
  }

  lemma AllInRing(pool: FramePool, fd: int, ps: seq<nat>)
    requires pool.Valid() && forall i :: 0 <= i < |ps| ==> PageID(fd, ps[i]) in pool.cache.table
    ensures forall i :: 0 <= i < |ps| ==> FramesOf(pool.cache.table, fd, ps)[i] < |pool.cache.ring|
  {
    hide FramePool.Valid, FramesOf;
    forall i | 0 <= i < |ps| ensures FramesOf(pool.cache.table, fd, ps)[i] < |pool.cache.ring| {
      CachedInRing(pool, PageID(fd, ps[i]));
    }
  }

  /** A cached page is requested and given back: its usage is one higher, and nothing else is different. */
  method Touch(pool: FramePool, file: File, p: nat)
    requires pool.Valid() && file in pool.files && p < |file.pages| && PageID(file.fd, p) != NO_TAG
    requires PageID(file.fd, p) in pool.cache.table
    modifies pool`frames, pool`pins, pool.cache, pool.memory, pool.files
    ensures pool.Valid() && pool.files == old(pool.files) && pool.pins == old(pool.pins)
    ensures pool.cache.table == old(pool.cache.table) && pool.cache.cursor == old(pool.cache.cursor)
    ensures pool.cache.table[PageID(file.fd, p)] < |old(pool.cache.ring)|
    ensures pool.cache.ring == Hit(old(pool.cache.ring), pool.cache.table[PageID(file.fd, p)])
    ensures forall g :: g in pool.files ==> pool.Contents(g) == old(pool.Contents(g))
  {
    hide Indexed, Described, FilesOk, OwnersOk, FramePool.Contents, ContentOf, FrameBytes;
    CachedInRing(pool, PageID(file.fd, p));
    var f := pool.AcquireFrame(file, p);
    pool.ReleaseFrame(f);
    assert pool.pins == old(pool.pins);
  }

  /** Requests for cached pages only count: each page's usage grows by the number of its requests. */
  method TouchAll(pool: FramePool, file: File, ps: seq<nat>)
    requires pool.Valid() && file in pool.files
    requires forall i :: 0 <= i < |ps| ==>
               ps[i] < |file.pages| && PageID(file.fd, ps[i]) != NO_TAG && PageID(file.fd, ps[i]) in pool.cache.table
    modifies pool`frames, pool`pins, pool.cache, pool.memory, pool.files
    ensures pool.Valid() && pool.files == old(pool.files) && pool.pins == old(pool.pins)
    ensures pool.cache.table == old(pool.cache.table) && pool.cache.cursor == old(pool.cache.cursor)
    ensures var frames := FramesOf(pool.cache.table, file.fd, ps);
            && (forall i :: 0 <= i < |frames| ==> frames[i] < |old(pool.cache.ring)|)
            && pool.cache.ring == AfterHits(old(pool.cache.ring), frames)
    ensures forall g :: g in pool.files ==> pool.Contents(g) == old(pool.Contents(g))
  {
    hide FramePool.Contents, FramePool.Valid, AfterHits, Hit, FramesOf;
    ghost var frames := FramesOf(pool.cache.table, file.fd, ps);
    AllInRing(pool, file.fd, ps);
    NoHits(pool.cache.ring, frames);
    for i := 0 to |ps|
      invariant pool.Valid() && pool.files == old(pool.files) && pool.pins == old(pool.pins)
      invariant pool.cache.table == old(pool.cache.table) && pool.cache.cursor == old(pool.cache.cursor)
      invariant pool.cache.ring == AfterHits(old(pool.cache.ring), frames[..i])
      invariant forall g :: g in pool.files ==> pool.Contents(g) == old(pool.Contents(g))
    {
      SameLength(pool, file);
      OneMoreHit(old(pool.cache.ring), frames, i);
      Touch(pool, file, ps[i]);
    }
    assert frames[..|ps|] == frames;
  }

  lemma NoHits(ring: Ring, hits: seq<nat>)
    ensures AfterHits(ring, hits[..0]) == ring
  {}

  lemma SameLength(pool: FramePool, file: File)
    requires pool.Valid() && file in pool.files
    ensures |pool.Contents(file)| == |file.pages|
  {}

  /**
    Two cached pages, `hot` not used less than `cold` so far, and `cold` without a handle: after any requests for cached
    pages of which more are for `hot`, a request for another page leaves `hot` in the cache.
   */
  method MoreRequestedStays(pool: FramePool, file: File, ps: seq<nat>, p: nat, hot: nat, cold: nat) returns (f: nat)
    requires pool.Valid() && file in pool.files
    requires forall i :: 0 <= i < |ps| ==>
               ps[i] < |file.pages| && PageID(file.fd, ps[i]) != NO_TAG && PageID(file.fd, ps[i]) in pool.cache.table
    requires p < |file.pages| && PageID(file.fd, p) != NO_TAG && PageID(file.fd, p) !in pool.cache.table
    requires PageID(file.fd, hot) in pool.cache.table && PageID(file.fd, cold) in pool.cache.table
    requires pool.cache.table[PageID(file.fd, hot)] < |pool.cache.ring|
    requires pool.cache.table[PageID(file.fd, cold)] < |pool.cache.ring| && |pool.cache.ring| == |pool.frames|
    requires pool.cache.ring[pool.cache.table[PageID(file.fd, cold)]].usage
          <= pool.cache.ring[pool.cache.table[PageID(file.fd, hot)]].usage
    requires pool.pins[pool.cache.table[PageID(file.fd, cold)]] == 0 && multiset(ps)[cold] < multiset(ps)[hot]
    modifies pool`frames, pool`pins, pool.cache, pool.memory, pool.files
    ensures pool.Valid() && PageID(file.fd, hot) in pool.cache.table && PageID(file.fd, p) in pool.cache.table
    ensures pool.cache.table[PageID(file.fd, hot)] == old(pool.cache.table)[PageID(file.fd, hot)] != f
  {
    hide FramePool.Contents, Indexed, Described, FilesOk, OwnersOk, AfterHits, TakenFor;
    ghost var ring, table, used := pool.cache.ring, pool.cache.table, pool.cache.used;
    CachedInRing(pool, PageID(file.fd, cold));
    FrameHits(table, ring, used, file.fd, ps, hot);
    FrameHits(table, ring, used, file.fd, ps, cold);
    TouchAll(pool, file, ps);
    SameLength(pool, file);
    ghost var frames := FramesOf(table, file.fd, ps);
    ghost var hits, cursor := pool.cache.ring, pool.cache.cursor;
    assert pool.HasFreeFrame() by { assert pool.pins[table[PageID(file.fd, cold)]] == 0; }
    ghost var usedNow := pool.cache.used;
    f := pool.AcquireFrame(file, p);
    NotTaken(ring, cursor, frames, table[PageID(file.fd, hot)], table[PageID(file.fd, cold)], PageID(file.fd, p), f,
             pool.cache.ring, pool.cache.cursor);
    TagsDiffer(table, hits, usedNow, PageID(file.fd, hot), f);
  }

  lemma NotTaken(ring: Ring, cursor: nat, hits: seq<nat>, hot: nat, cold: nat, key: PageID, f: nat, ring': Ring,
                 cursor': nat)
    requires hot < |ring| && cold < |ring| && forall i :: 0 <= i < |hits| ==> hits[i] < |ring|
    requires ring[cold].usage <= ring[hot].usage && multiset(hits)[cold] < multiset(hits)[hot] && !ring[cold].lock
    requires TakenFor(AfterHits(ring, hits), cursor, key, f, true, ring', cursor')
    ensures f != hot
  {
    hide IsVictim, Swept, AfterHits;
    var m: nat :| IsVictim(AfterHits(ring, hits), cursor, f, m) && Swept(AfterHits(ring, hits), cursor, f, m, ring');
    MoreHitsStay(ring, cursor, hits, hot, cold, f, m);
  }

  /** Frame `f` does not carry the tag of a page in another frame. */
  lemma TagsDiffer(table: map<PageID, nat>, ring: Ring, used: set<nat>, key: PageID, f: nat)
    requires Indexed(table, ring, used) && NO_TAG !in table && key in table && f < |ring| && f != table[key]
    ensures ring[f].tag != key
  {}
}
