/** A pinned write-back cache of file pages, kept in one block of memory. */
module BufferPool {
  import opened Codec
  import opened FixedPages
  import opened ClockEviction

  /** An open file: a growable sequence of pages. System calls are assumed to succeed. */
  class File {
    const fd: int
    var size: nat
    var pages: seq<Page>

    ghost predicate Valid() reads this { size == |pages| * PAGE_SIZE }

    constructor (fd: int)
      ensures Valid() && this.fd == fd && pages == []
    {
      this.fd, size, pages := fd, 0, [];
    }

    /** Opening an existing file finds the pages it has. */
    constructor Open(fd: int, pages: seq<Page>)
      ensures Valid() && this.fd == fd && this.pages == pages
    {
      this.fd, size, this.pages := fd, |pages| * PAGE_SIZE, pages;
    }

    function PageCount(): (n: nat)
      requires Valid()
      reads this
      ensures n == |pages|
    {
      (size + PAGE_SIZE - 1) / PAGE_SIZE
    }

    method AllocPage() returns (index: nat)
      requires Valid()
      modifies this
      ensures Valid() && index == |old(pages)| && pages == old(pages) + [ZERO_PAGE]
    {
      index := size / PAGE_SIZE;
      pages := pages + [ZERO_PAGE];
      size := size + PAGE_SIZE;
    }

    method Write(index: nat, data: array<byte>, at: nat)
      requires Valid() && index < |pages| && at + PAGE_SIZE <= data.Length
      modifies this`pages
      ensures Valid() && pages == old(pages)[index := data[..][at..at + PAGE_SIZE]]
    {
      assert data[at..at + PAGE_SIZE] == data[..][at..at + PAGE_SIZE];
      pages := pages[index := data[at..at + PAGE_SIZE]];
    }

    method Read(index: nat, data: array<byte>, at: nat)
      requires Valid() && index < |pages| && at + PAGE_SIZE <= data.Length
      modifies data
      ensures data[..] == Written(old(data[..]), at, pages[index])
    {
      WriteBytes(data, at, pages[index]);
    }
  }

  datatype Frame = Frame(owner: File?, pageIndex: nat, refCount: nat)

  function FrameStart(f: nat): nat {
    f * PAGE_SIZE
  }

  function FrameBytes(memory: seq<byte>, f: nat): Page
    requires FrameStart(f) + PAGE_SIZE <= |memory|
  {
    memory[FrameStart(f)..FrameStart(f) + PAGE_SIZE]
  }

  /** A page's content: its frame's bytes if it is cached, otherwise the bytes in the file. */
  function ContentOf(table: map<PageID, nat>, memory: seq<byte>, fd: int, pages: seq<Page>, q: nat): Page
    requires q < |pages|
    requires PageID(fd, q) in table ==> FrameStart(table[PageID(fd, q)]) + PAGE_SIZE <= |memory|
  {
    var key := PageID(fd, q);
    if key in table then FrameBytes(memory, table[key]) else pages[q]
  }

  // --- Content is kept ---

  lemma OtherFrameUntouched(memory: seq<byte>, f: nat, g: nat, page: Page)
    requires f != g && FrameStart(f) + PAGE_SIZE <= |memory| && FrameStart(g) + PAGE_SIZE <= |memory|
    ensures FrameBytes(Written(memory, FrameStart(f), page), g) == FrameBytes(memory, g)
    ensures FrameBytes(Written(memory, FrameStart(f), page), f) == page
  {
    WrittenElsewhere(memory, FrameStart(f), page, FrameStart(g), FrameStart(g) + PAGE_SIZE);
    WrittenHere(memory, FrameStart(f), page, FrameStart(f) + PAGE_SIZE);
  }

  lemma ReadBack(memory: seq<byte>, f: nat, page: Page)
    requires FrameStart(f) + PAGE_SIZE <= |memory|
    ensures FrameBytes(Written(memory, FrameStart(f), page), f) == page
  {
    WrittenHere(memory, FrameStart(f), page, FrameStart(f) + PAGE_SIZE);
  }

  /**
    Replacing the page in frame `v` by the page `key` changes no page's content, provided the replaced page was
    written back (`pages`) and the frame now holds what the file has for `key` (`loaded`).
   */
  lemma ReplaceKeepsContent(table: map<PageID, nat>, ring: Ring, used: set<nat>, v: nat, key: PageID,
                            memory: seq<byte>, loaded: Page, fd: int, oldPages: seq<Page>, pages: seq<Page>, q: nat)
    requires Indexed(table, ring, used) && v < |ring| && key !in table && |memory| == |ring| * PAGE_SIZE
    requires q < |pages| == |oldPages|
    requires pages[q] == if v in used && ring[v].tag == PageID(fd, q) then FrameBytes(memory, v) else oldPages[q]
    requires key == PageID(fd, q) ==> loaded == pages[q]
    requires v in used || NO_TAG !in table
    ensures ContentOf(Reindexed(table, ring[v].tag, key, v), Written(memory, FrameStart(v), loaded), fd, pages, q)
         == ContentOf(table, memory, fd, oldPages, q)
  {
    hide Written, FrameBytes;
    ReadBack(memory, v, loaded);
    var id := PageID(fd, q);
    if id in table && table[id] != v {
      OtherFrameUntouched(memory, v, table[id], loaded);
    }
  }

  // --- Frames and descriptors ---

  /** A frame and its descriptor agree: same page, as many references as handles, locked exactly while pinned. */
  ghost predicate Describes(d: Descriptor, isUsed: bool, frame: Frame, handles: nat) {
    && (frame.owner != null <==> isUsed)
    && (frame.owner != null ==> d.tag == PageID(frame.owner.fd, frame.pageIndex))
    && (frame.owner == null ==> handles == 0)
    && frame.refCount == handles
    && (d.lock <==> handles > 0)
  }

  ghost predicate Described(ring: Ring, used: set<nat>, frames: seq<Frame>, pins: multiset<nat>) {
    && |ring| == |frames|
    && (forall f: nat :: f in pins ==> f < |frames|)
    && forall f: nat :: f < |frames| ==> Describes(ring[f], f in used, frames[f], pins[f])
  }

  /** The files are intact and no two share a descriptor. */
  ghost predicate FilesOk(files: set<File>)
    reads files
  {
    && (forall g :: g in files ==> g.Valid())
    && forall g, h :: g in files && h in files && g.fd == h.fd ==> g == h
  }

  ghost predicate OwnersOk(files: set<File>, frames: seq<Frame>)
    reads files
  {
    forall f: nat :: f < |frames| && frames[f].owner != null ==>
      frames[f].owner in files && frames[f].pageIndex < |frames[f].owner.pages|
  }

  lemma SameOwners(files: set<File>, frames: seq<Frame>, f: nat, refCount: nat)
    requires OwnersOk(files, frames) && f < |frames|
    ensures OwnersOk(files, frames[f := frames[f].(refCount := refCount)])
  {}

  /** Exactly the frames without a handle are unlocked. */
  lemma FreeIffUnlocked(ring: Ring, used: set<nat>, frames: seq<Frame>, pins: multiset<nat>)
    requires Described(ring, used, frames, pins)
    ensures HasUnlocked(ring) <==> exists f: nat :: f < |frames| && pins[f] == 0
  {
    forall f: nat | f < |frames| ensures ring[f].lock <==> pins[f] > 0 {
      assert Describes(ring[f], f in used, frames[f], pins[f]);
    }
    if HasUnlocked(ring) {
      var f: nat :| f < |ring| && !ring[f].lock;
      assert pins[f] == 0;
    }
  }

  /** A frame without a handle ends the sweep. */
  lemma FreeIsUnlocked(ring: Ring, used: set<nat>, frames: seq<Frame>, pins: multiset<nat>)
    requires Described(ring, used, frames, pins) && exists f: nat :: f < |frames| && pins[f] == 0
    ensures HasUnlocked(ring)
  {
    hide HasUnlocked, Described;
    FreeIffUnlocked(ring, used, frames, pins);
  }

  /** The sweep and the reload leave every frame and its descriptor in agreement, and take no pinned frame. */
  lemma LoadKeepsDescribed(ring: Ring, cursor: nat, used: set<nat>, frames: seq<Frame>, pins: multiset<nat>,
                           v: nat, m: nat, ring': Ring, file: File, p: nat)
    requires Described(ring, used, frames, pins) && cursor < |ring|
    requires IsVictim(ring, cursor, v, m) && Swept(ring, cursor, v, m, ring')
    requires ring'[v] == Descriptor(PageID(file.fd, p), 1, false)
    ensures v < |frames| && pins[v] == 0 && Described(ring', used + {v}, frames[v := Frame(file, p, 0)], pins)
    ensures frames[v].owner != null <==> v in used
    ensures frames[v].owner != null ==> ring[v].tag == PageID(frames[v].owner.fd, frames[v].pageIndex)
  {
    assert Describes(ring[v], v in used, frames[v], pins[v]);
  }

  /** One more handle: the descriptor is locked if it is the first one. */
  lemma PinKeepsDescribed(ring: Ring, used: set<nat>, frames: seq<Frame>, pins: multiset<nat>, f: nat)
    requires Described(ring, used, frames, pins) && f < |frames| && frames[f].owner != null
    ensures var frame := frames[f].(refCount := frames[f].refCount + 1);
            Described(if frame.refCount == 1 then ring[f := ring[f].(lock := true)] else ring, used,
                      frames[f := frame], pins + multiset{f})
  {
    assert Describes(ring[f], f in used, frames[f], pins[f]);
    forall h: nat | h < |frames| && h != f ensures (pins + multiset{f})[h] == pins[h] {}
  }

  /** One handle less: the descriptor is unlocked if it was the last one. */
  lemma UnpinKeepsDescribed(ring: Ring, used: set<nat>, frames: seq<Frame>, pins: multiset<nat>, f: nat)
    requires Described(ring, used, frames, pins) && f in pins
    ensures f < |frames| && frames[f].refCount > 0
    ensures var frame := frames[f].(refCount := frames[f].refCount - 1);
            Described(if frame.refCount == 0 then ring[f := ring[f].(lock := false)] else ring, used,
                      frames[f := frame], pins - multiset{f})
  {
    assert Describes(ring[f], f in used, frames[f], pins[f]);
    forall h: nat | h < |frames| && h != f ensures (pins - multiset{f})[h] == pins[h] {}
  }

  lemma LockedWhilePinned(ring: Ring, used: set<nat>, frames: seq<Frame>, pins: multiset<nat>, f: nat)
    requires Described(ring, used, frames, pins) && f < |frames|
    ensures f < |ring| && frames[f].refCount == pins[f] && (ring[f].lock <==> f in pins)
  {
    assert Describes(ring[f], f in used, frames[f], pins[f]);
  }

  lemma UsageIsFree(ring: Ring, used: set<nat>, frames: seq<Frame>, pins: multiset<nat>, f: nat)
    requires Described(ring, used, frames, pins) && f < |frames|
    ensures Described(ring[f := ring[f].(usage := ring[f].usage + 1)], used, frames, pins)
  {}

  /** A cached page is in a frame that the file owns: what the lookup on a hit relies on. */
  lemma HitIsOwned(table: map<PageID, nat>, ring: Ring, used: set<nat>, frames: seq<Frame>, pins: multiset<nat>,
                   files: set<File>, file: File, p: nat)
    requires Indexed(table, ring, used) && Described(ring, used, frames, pins)
    requires OwnersOk(files, frames) && FilesOk(files) && file in files && PageID(file.fd, p) in table
    ensures var f := table[PageID(file.fd, p)]; f < |frames| && frames[f].owner == file && frames[f].pageIndex == p
  {
    var f := table[PageID(file.fd, p)];
    assert Describes(ring[f], f in used, frames[f], pins[f]);
  }

  lemma OwnerIsCached(table: map<PageID, nat>, ring: Ring, used: set<nat>, frames: seq<Frame>, pins: multiset<nat>,
                      f: nat)
    requires Indexed(table, ring, used) && Described(ring, used, frames, pins) && f < |frames|
    requires frames[f].owner != null
    ensures var key := PageID(frames[f].owner.fd, frames[f].pageIndex); key in table && table[key] == f
  {
    assert Describes(ring[f], f in used, frames[f], pins[f]);
  }

  lemma PinnedIsOwned(ring: Ring, used: set<nat>, frames: seq<Frame>, pins: multiset<nat>, f: nat)
    requires Described(ring, used, frames, pins) && f in pins
    ensures f < |frames| && frames[f].owner != null
  {
    assert Describes(ring[f], f in used, frames[f], pins[f]);
  }

  // --- Writes and the final flush ---

  /** Bytes written into a used frame are the content of that frame's page and of no other page. */
  lemma WriteChangesOnePage(table: map<PageID, nat>, ring: Ring, used: set<nat>, memory: seq<byte>, f: nat, page: Page,
                            fd: int, pages: seq<Page>, q: nat)
    requires Indexed(table, ring, used) && f in used && |memory| == |ring| * PAGE_SIZE && q < |pages|
    ensures ContentOf(table, Written(memory, FrameStart(f), page), fd, pages, q)
         == if ring[f].tag == PageID(fd, q) then page else ContentOf(table, memory, fd, pages, q)
  {
    hide Written, FrameBytes;
    ReadBack(memory, f, page);
    var id := PageID(fd, q);
    if id in table && table[id] != f {
      OtherFrameUntouched(memory, f, table[id], page);
    }
  }

  /**
    One path open through two descriptors, so that both read the same stored pages: bytes written through one of them
    are what the other one reads if and only if they were that before.
   */
  lemma DescriptorsAgreeIff(table: map<PageID, nat>, ring: Ring, used: set<nat>, memory: seq<byte>, f: nat, page: Page,
                            fd: int, other: int, pages: seq<Page>, q: nat)
    requires Indexed(table, ring, used) && f in used && |memory| == |ring| * PAGE_SIZE && q < |pages|
    requires ring[f].tag == PageID(fd, q) && other != fd
    ensures var after := Written(memory, FrameStart(f), page);
            && ContentOf(table, after, fd, pages, q) == page
            && (ContentOf(table, after, other, pages, q) == page <==> ContentOf(table, memory, other, pages, q) == page)
  {
    hide Written, ContentOf;
    WriteChangesOnePage(table, ring, used, memory, f, page, fd, pages, q);
    WriteChangesOnePage(table, ring, used, memory, f, page, other, pages, q);
  }

  /** A page of a file after the first `i` frames were written back. */
  ghost function FlushedPage(table: map<PageID, nat>, memory: seq<byte>, fd: int, pages: seq<Page>, i: nat,
                             q: nat): Page
    requires q < |pages| && i * PAGE_SIZE <= |memory|
  {
    var key := PageID(fd, q);
    if key in table && table[key] < i then FrameBytes(memory, table[key]) else pages[q]
  }

  /** Writing frame `i` back advances the flush by one frame. */
  lemma FlushStep(table: map<PageID, nat>, ring: Ring, used: set<nat>, frames: seq<Frame>, pins: multiset<nat>,
                  memory: seq<byte>, file: File, pages: seq<Page>, i: nat, q: nat)
    requires Indexed(table, ring, used) && Described(ring, used, frames, pins)
    requires i < |frames| && |memory| == |frames| * PAGE_SIZE && q < |pages|
    ensures FlushedPage(table, memory, file.fd, pages, i + 1, q)
         == if frames[i].owner != null && frames[i].owner.fd == file.fd && frames[i].pageIndex == q
            then FrameBytes(memory, i)
            else FlushedPage(table, memory, file.fd, pages, i, q)
  {
    assert Describes(ring[i], i in used, frames[i], pins[i]);
    var key := PageID(file.fd, q);
    if key in table && table[key] == i {
      assert i in used && ring[i].tag == key;
    }
  }

  class FramePool {
    const memory: array<byte>
    const cache: ClockCache
    var frames: seq<Frame>
    /** The files whose pages may be requested; no two share a descriptor. */
    ghost var files: set<File>
    /** The outstanding page handles. */
    ghost var pins: multiset<nat>

    ghost predicate Valid()
      reads this, cache, files
    {
      && cache.Valid()
      && |frames| == cache.capacity
      && memory.Length == |frames| * PAGE_SIZE
      && NO_TAG !in cache.table
      && FilesOk(files)
      && Described(cache.ring, cache.used, frames, pins)
      && OwnersOk(files, frames)
    }

    /** Some frame has no handle. */
    ghost predicate HasFreeFrame()
      reads this
    {
      exists f: nat :: f < |frames| && pins[f] == 0
    }

    ghost function Content(g: File, q: nat): Page
      requires Valid() && g in files && q < |g.pages|
      reads this, cache, memory, files
    {
      CachedFits(PageID(g.fd, q));
      ContentOf(cache.table, memory[..], g.fd, g.pages, q)
    }

    /** A file as its readers see it. */
    ghost function Contents(g: File): (c: seq<Page>)
      requires Valid() && g in files
      reads this, cache, memory, files
      ensures |c| == |g.pages| && forall q: nat :: q < |c| ==> c[q] == Content(g, q)
    {
      ContentsUpTo(g, |g.pages|)
    }

    ghost function ContentsUpTo(g: File, n: nat): (c: seq<Page>)
      requires Valid() && g in files && n <= |g.pages|
      reads this, cache, memory, files
      ensures |c| == n && forall q: nat :: q < n ==> c[q] == Content(g, q)
    {
      if n == 0 then [] else ContentsUpTo(g, n - 1) + [Content(g, n - 1)]
    }

    lemma CachedFits(key: PageID)
      requires Valid()
      ensures key in cache.table ==> cache.table[key] < |cache.ring|
      ensures key in cache.table ==> FrameStart(cache.table[key]) + PAGE_SIZE <= memory.Length
    {}

    constructor (frameCount: nat)
      requires frameCount > 0
      ensures Valid() && files == {} && pins == multiset{} && |frames| == frameCount && cache.table == map[]
      ensures cache.cursor == 0 && forall f :: 0 <= f < frameCount ==> cache.ring[f] == Descriptor(NO_TAG, 0, false)
      ensures fresh(memory) && fresh(cache)
    {
      cache := new ClockCache(frameCount);
      memory := new byte[frameCount * PAGE_SIZE];
      frames := seq(frameCount, _ => Frame(null, 0, 0));
      files, pins := {}, multiset{};
    }

    /** Makes a file known to the pool. */
    ghost method Register(file: File)
      requires Valid() && file.Valid() && forall g :: g in files && g.fd == file.fd ==> g == file
      modifies this`files
      ensures Valid() && files == old(files) + {file}
      ensures forall g, q: nat :: g in old(files) && q < |g.pages| ==> Content(g, q) == old(Content(g, q))
    {
      files := files + {file};
    }

    /** Writes a used frame back to its file. */
    method DumpFrame(f: nat)
      requires f < |frames| && memory.Length == |frames| * PAGE_SIZE
      requires frames[f].owner != null ==> frames[f].owner.Valid() && frames[f].pageIndex < |frames[f].owner.pages|
      modifies if frames[f].owner == null then {} else {frames[f].owner}
      ensures frames[f].owner != null ==>
                && frames[f].owner.Valid()
                && frames[f].owner.pages == old(frames[f].owner.pages)[frames[f].pageIndex := FrameBytes(memory[..], f)]
    {
      if frames[f].owner != null {
        frames[f].owner.Write(frames[f].pageIndex, memory, FrameStart(f));
      }
    }

    /** Loads a page of a file into a frame. */
    method ReadFrame(file: File, f: nat, p: nat)
      requires f < |frames| && memory.Length == |frames| * PAGE_SIZE && file.Valid() && p < |file.pages|
      modifies this`frames, memory
      ensures frames == old(frames)[f := Frame(file, p, 0)]
      ensures memory[..] == Written(old(memory[..]), FrameStart(f), file.pages[p])
    {
      frames := frames[f := Frame(file, p, 0)];
      file.Read(p, memory, FrameStart(f));
    }

    /** What a file's pages contain, cached or not, is the same as before, page for page. */
    twostate predicate ContentKept()
      requires old(Valid()) && Valid() && files == old(files)
      reads this, cache, memory, files
    {
      forall g :: g in files ==>
        && |g.pages| == old(|g.pages|)
        && forall q: nat :: q < |g.pages| ==> Content(g, q) == old(Content(g, q))
    }

    twostate lemma ContentsKept()
      requires old(Valid()) && Valid() && files == old(files) && ContentKept()
      ensures forall g :: g in files ==> Contents(g) == old(Contents(g))
    {
      hide ContentOf, Indexed, Described;
      forall g | g in files ensures Contents(g) == old(Contents(g)) {
        assert forall q: nat :: q < |g.pages| ==> Contents(g)[q] == old(Contents(g))[q];
      }
    }

    /** Nothing that contents depend on changed. */
    twostate lemma SameBytes()
      requires old(Valid()) && Valid() && files == old(files) && unchanged(memory) && cache.table == old(cache.table)
      requires forall g :: g in files ==> unchanged(g)
      ensures ContentKept()
    {
      hide ContentOf, Indexed, Described, FilesOk, OwnersOk;
      assert memory[..] == old(memory[..]);
    }

    /** A request for a page that is not cached comes to an end if and only if some frame has no handle. */
    lemma LoadEndsIff()
      requires Valid()
      ensures (exists n: nat :: StopsAt(cache.ring, cache.cursor, n)) <==> HasFreeFrame()
    {
      FreeIffUnlocked(cache.ring, cache.used, frames, pins);
      SweepEndsIff(cache.ring, cache.cursor);
    }

    twostate lemma FilesStay()
      requires old(FilesOk(files)) && files == old(files) && forall g :: g in files ==> g.Valid()
      ensures FilesOk(files)
    {}

    twostate lemma OwnersStay(f: nat)
      requires old(OwnersOk(files, frames)) && files == old(files)
      requires f < |frames| == |old(frames)| && frames == old(frames)[f := frames[f]]
      requires frames[f].owner != null && frames[f].owner in files && frames[f].pageIndex < |frames[f].owner.pages|
      requires forall g :: g in files ==> |g.pages| == |old(g.pages)|
      ensures OwnersOk(files, frames)
    {}

    /** Brings a page that is not cached into the frame the cache chooses. */
    method Load(file: File, p: nat) returns (f: nat)
      requires Valid() && file in files && p < |file.pages|
      requires PageID(file.fd, p) !in cache.table && PageID(file.fd, p) != NO_TAG
      requires HasFreeFrame()
      modifies this`frames, cache, memory, files
      ensures Valid() && f < |frames| == |old(frames)|
      ensures PageID(file.fd, p) in cache.table && cache.table[PageID(file.fd, p)] == f
      ensures pins[f] == 0 && forall h: nat :: h < |frames| && h != f ==> frames[h] == old(frames)[h]
      ensures ContentKept()
      ensures TakenFor(old(cache.ring), old(cache.cursor), PageID(file.fd, p), f, false, cache.ring, cache.cursor)
      ensures cache.table == Reindexed(old(cache.table), old(cache.ring)[f].tag, PageID(file.fd, p), f)
    {
      hide IsVictim, Swept, Described, Indexed, ContentOf, Written;
      FreeIsUnlocked(cache.ring, cache.used, frames, pins);
      ghost var m, advances;
      f, m, advances := cache.Put(PageID(file.fd, p));
      LoadKeepsDescribed(old(cache.ring), old(cache.cursor), old(cache.used), frames, pins, f, m, cache.ring, file, p);
      DumpFrame(f);
      ReadFrame(file, f, p);
      FilesStay();
      OwnersStay(f);
      assert Valid();
      hide Valid;
      forall g, q: nat | g in files && q < |g.pages|
        ensures |g.pages| == |old(g.pages)| && Content(g, q) == old(Content(g, q))
      {
        ReplaceKeepsContent(old(cache.table), old(cache.ring), old(cache.used), f, PageID(file.fd, p),
                            old(memory[..]), file.pages[p], g.fd, old(g.pages), g.pages, q);
      }
    }

    /** Every frame with a handle still holds its page. */
    twostate predicate PinnedKept()
      reads this
    {
      forall h: nat :: h in old(pins) && h < |old(frames)| ==>
        h < |frames| && frames[h].owner == old(frames)[h].owner && frames[h].pageIndex == old(frames)[h].pageIndex
    }

    /** Counts one more handle on a frame. */
    method Pin(f: nat)
      requires Valid() && f < |frames| && frames[f].owner != null
      modifies this`frames, this`pins, cache`ring
      ensures Valid() && pins == old(pins) + multiset{f}
      ensures cache.ring == old(cache.ring)[f := old(cache.ring)[f].(lock := true)]
      ensures frames == old(frames)[f := frames[f]] && frames[f].owner == old(frames)[f].owner
      ensures frames[f].pageIndex == old(frames)[f].pageIndex
      ensures ContentKept()
    {
      hide Indexed, Described, FilesOk, OwnersOk, ContentKept;
      PinKeepsDescribed(cache.ring, cache.used, frames, pins, f);
      LockedWhilePinned(cache.ring, cache.used, frames, pins, f);
      SameOwners(files, frames, f, frames[f].refCount + 1);
      frames := frames[f := frames[f].(refCount := frames[f].refCount + 1)];
      pins := pins + multiset{f};
      if frames[f].refCount == 1 {
        cache.Lock(f);
      }
      SameBytes();
    }

    /**
      Hands out a frame that holds the content of the page. Whichever page had to make room, no page's content
      changes, and no frame with a handle is taken.
     */
    method AcquireFrame(file: File, p: nat) returns (f: nat)
      requires Valid() && file in files && p < |file.pages| && PageID(file.fd, p) != NO_TAG
      requires PageID(file.fd, p) in cache.table || HasFreeFrame()
      modifies this`frames, this`pins, cache, memory, files
      ensures Valid() && f < |frames| && frames[f].owner == file && frames[f].pageIndex == p
      ensures PageID(file.fd, p) in cache.table && cache.table[PageID(file.fd, p)] == f
      ensures pins == old(pins) + multiset{f}
      ensures |frames| == |old(frames)| && PinnedKept()
      ensures FrameBytes(memory[..], f) == old(Content(file, p))
      ensures if PageID(file.fd, p) in old(cache.table) then
                && cache.table == old(cache.table) && cache.cursor == old(cache.cursor)
                && cache.ring == Hit(old(cache.ring), f)[f := Hit(old(cache.ring), f)[f].(lock := true)]
              else
                && TakenFor(old(cache.ring), old(cache.cursor), PageID(file.fd, p), f, true, cache.ring, cache.cursor)
                && cache.table == Reindexed(old(cache.table), old(cache.ring)[f].tag, PageID(file.fd, p), f)
      ensures f < |old(cache.ring)| == |cache.ring| && (old(cache.ring)[f].lock <==> f in old(pins))
      ensures forall g :: g in files ==> Contents(g) == old(Contents(g))
    {
      hide Indexed, Described, OwnersOk, FilesOk, TakenFor;
      ghost var content := Content(file, p);
      forall g: nat | g < |frames| ensures g < |cache.ring| && (cache.ring[g].lock <==> g in pins) {
        LockedWhilePinned(cache.ring, cache.used, frames, pins, g);
      }
      CachedFits(PageID(file.fd, p));
      var index, found := cache.Get(PageID(file.fd, p));
      if found {
        UsageIsFree(old(cache.ring), cache.used, frames, pins, index);
        f := index;
        assert Valid() && ContentKept();
      } else {
        assert cache.ring == old(cache.ring);
        f := Load(file, p);
      }
      HitIsOwned(cache.table, cache.ring, cache.used, frames, pins, files, file, p);
      assert frames[f].pageIndex == p;
      assert frames[f].owner.fd == file.fd;
      label Found:
      if !found {
        LockTaken(old(cache.ring), old(cache.cursor), PageID(file.fd, p), f, false, cache.ring, cache.cursor, true);
      }
      Pin(f);
      assert Content(file, p) == old@Found(Content(file, p)) == content;
      ContentsKept();
    }

    /** Counts one handle less on a frame. */
    method Unpin(f: nat)
      requires Valid() && f in pins
      modifies this`frames, this`pins, cache`ring
      ensures Valid() && pins == old(pins) - multiset{f} && f < |frames|
      ensures cache.ring == old(cache.ring)[f := old(cache.ring)[f].(lock := f in pins)]
      ensures frames == old(frames)[f := frames[f]] && frames[f].owner == old(frames)[f].owner
      ensures frames[f].pageIndex == old(frames)[f].pageIndex
      ensures ContentKept()
    {
      hide Indexed, Described, FilesOk, OwnersOk, ContentKept;
      UnpinKeepsDescribed(cache.ring, cache.used, frames, pins, f);
      LockedWhilePinned(cache.ring, cache.used, frames, pins, f);
      SameOwners(files, frames, f, frames[f].refCount - 1);
      frames := frames[f := frames[f].(refCount := frames[f].refCount - 1)];
      pins := pins - multiset{f};
      if frames[f].refCount == 0 {
        cache.Unlock(f);
      }
      SameBytes();
    }

    /** Gives a handle back. No page's content changes. */
    method ReleaseFrame(f: nat)
      requires Valid() && f in pins
      modifies this`frames, this`pins, cache
      ensures Valid() && pins == old(pins) - multiset{f}
      ensures cache.table == old(cache.table) && cache.cursor == old(cache.cursor) && f < |frames|
      ensures cache.ring == old(cache.ring)[f := old(cache.ring)[f].(lock := f in pins)]
      ensures |frames| == |old(frames)| && PinnedKept()
      ensures forall g :: g in files ==> Contents(g) == old(Contents(g))
    {
      hide ContentKept, Contents, Indexed, Described, FilesOk, OwnersOk;
      Unpin(f);
      ContentsKept();
    }

    /** A page just added to a file is not cached, so it reads as zeros; all other pages are as before. */
    twostate lemma PageAdded(file: File)
      requires old(Valid()) && file in files
      requires unchanged(this) && unchanged(cache) && unchanged(memory)
      requires file.Valid() && file.pages == old(file.pages) + [ZERO_PAGE]
      requires forall g :: g in files && g != file ==> g.size == old(g.size) && g.pages == old(g.pages)
      ensures Valid()
      ensures forall g :: g in files ==> Contents(g) == old(Contents(g)) + if g == file then [ZERO_PAGE] else []
    {
      hide Indexed, Described;
      var p := |old(file.pages)|;
      assert PageID(file.fd, p) !in cache.table by {
        if PageID(file.fd, p) in cache.table {
          HitIsOwned(cache.table, cache.ring, cache.used, frames, pins, files, file, p);
          assert false;
        }
      }
      forall g | g in files
        ensures Contents(g) == old(Contents(g)) + if g == file then [ZERO_PAGE] else []
      {
        assert memory[..] == old(memory[..]);
        forall q: nat | q < |old(g.pages)| ensures Content(g, q) == old(Content(g, q)) {
          assert g.pages[q] == old(g.pages)[q];
        }
        var before := old(Contents(g));
        assert forall q: nat :: q < |before| ==> Contents(g)[q] == before[q];
        if g == file {
          assert Content(g, |before|) == file.pages[|before|] == ZERO_PAGE;
          assert Contents(g) == before + [ZERO_PAGE];
        } else {
          assert Contents(g) == before;
        }
      }
    }

    /** A handle gives access to the content of its page. */
    lemma HandleShowsContent(f: nat)
      requires Valid() && f in pins
      ensures f < |frames| && frames[f].owner != null && frames[f].owner in files
      ensures frames[f].pageIndex < |frames[f].owner.pages| && FrameStart(f) + PAGE_SIZE <= memory.Length
      ensures Contents(frames[f].owner)[frames[f].pageIndex] == FrameBytes(memory[..], f)
    {
      hide Indexed, Described;
      PinnedIsOwned(cache.ring, cache.used, frames, pins, f);
      OwnerIsCached(cache.table, cache.ring, cache.used, frames, pins, f);
    }

    /** Bytes written through a handle change the page of that handle and nothing else. */
    twostate lemma WriteThroughHandle(f: nat)
      requires old(Valid()) && f in pins && f < |frames| && unchanged(this) && unchanged(cache)
      requires forall g :: g in files ==> g.size == old(g.size) && g.pages == old(g.pages)
      requires memory[..] == Written(old(memory[..]), FrameStart(f), FrameBytes(memory[..], f))
      ensures Valid() && frames[f].owner != null && frames[f].owner in files
      ensures frames[f].pageIndex < |frames[f].owner.pages|
      ensures forall g :: g in files ==>
        Contents(g) == if g == frames[f].owner then old(Contents(g))[frames[f].pageIndex := FrameBytes(memory[..], f)]
                       else old(Contents(g))
    {
      hide ContentOf, Written, Indexed;
      var page := FrameBytes(memory[..], f);
      PinnedIsOwned(cache.ring, cache.used, frames, pins, f);
      assert Describes(cache.ring[f], f in cache.used, frames[f], pins[f]);
      forall g, q: nat | g in files && q < |g.pages|
        ensures Content(g, q) == if g == frames[f].owner && q == frames[f].pageIndex then page else old(Content(g, q))
      {
        WriteChangesOnePage(cache.table, cache.ring, cache.used, old(memory[..]), f, page, g.fd, g.pages, q);
      }
    }

    /** The destructor: afterwards every file holds the content of all its pages. */
    method Flush()
      requires Valid()
      modifies files
      ensures files == old(files)
      ensures forall g :: g in files ==> |g.pages| == |old(g.pages)|
      ensures forall g, q: nat :: g in files && q < |g.pages| ==> g.pages[q] == old(Content(g, q))
    {
      hide FlushedPage, Indexed, Described;
      forall g, q: nat | g in files && q < |g.pages|
        ensures FlushedPage(cache.table, memory[..], g.fd, g.pages, 0, q) == g.pages[q]
      {
        FlushEnds(cache.table, cache.ring, cache.used, memory[..], g.fd, g.pages, q);
      }
      for i := 0 to |frames|
        invariant Valid()
        invariant forall g :: g in files ==> |g.pages| == |old(g.pages)|
        invariant forall g, q: nat :: g in files && q < |g.pages| ==>
          g.pages[q] == FlushedPage(cache.table, memory[..], g.fd, old(g.pages), i, q)
      {
        label Before:
        DumpFrame(i);
        forall g, q: nat | g in files && q < |g.pages|
          ensures g.pages[q] == FlushedPage(cache.table, memory[..], g.fd, old(g.pages), i + 1, q)
        {
          FlushStep(cache.table, cache.ring, cache.used, frames, pins, memory[..], g, old(g.pages), i, q);
          assert frames[i].owner != null && frames[i].owner.fd == g.fd ==> frames[i].owner == g;
          assert g.pages == if frames[i].owner == g
                            then old@Before(g.pages)[frames[i].pageIndex := FrameBytes(memory[..], i)]
                            else old@Before(g.pages);
          assert old@Before(g.pages)[q] == FlushedPage(cache.table, memory[..], g.fd, old(g.pages), i, q);
        }
      }
      forall g, q: nat | g in files && q < |g.pages|
        ensures g.pages[q] == old(Content(g, q))
      {
        FlushEnds(cache.table, cache.ring, cache.used, memory[..], g.fd, old(g.pages), q);
      }
    }
  }

  lemma FlushEnds(table: map<PageID, nat>, ring: Ring, used: set<nat>, memory: seq<byte>, fd: int, pages: seq<Page>,
                  q: nat)
    requires Indexed(table, ring, used) && |memory| == |ring| * PAGE_SIZE && q < |pages|
    ensures FlushedPage(table, memory, fd, pages, 0, q) == pages[q]
    ensures FlushedPage(table, memory, fd, pages, |ring|, q) == ContentOf(table, memory, fd, pages, q)
  {}
}
