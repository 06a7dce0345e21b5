/** Tables: rows in the slots of the pages of a file, reached through a buffer pool. */
module Tables {
  import opened Codec
  import opened FixedPages
  import opened ClockEviction
  import opened BufferPool

  datatype RowID = RowID(page: nat, row: nat)

  /** The rows in a file's pages. */
  ghost function RowsIn(schema: Schema, pages: seq<Page>): map<RowID, Row>
    requires LengthsSuffice(schema)
  {
    map p: nat, i: nat | p < |pages| && i in RowsOf(schema, pages[p]) :: RowID(p, i) := RowsOf(schema, pages[p])[i]
  }

  lemma RowAt(schema: Schema, pages: seq<Page>, id: RowID)
    requires LengthsSuffice(schema)
    ensures id in RowsIn(schema, pages) <==> id.page < |pages| && id.row in RowsOf(schema, pages[id.page])
    ensures id in RowsIn(schema, pages) ==> RowsIn(schema, pages)[id] == RowsOf(schema, pages[id.page])[id.row]
  {}

  lemma SameRows(a: map<RowID, Row>, b: map<RowID, Row>)
    requires forall id :: (id in a <==> id in b) && (id in a ==> a[id] == b[id])
    ensures a == b
  {}

  /** Row ids in the order in which slots are tried. */
  predicate Before(a: RowID, b: RowID) {
    a.page < b.page || (a.page == b.page && a.row < b.row)
  }

  ghost predicate Full(schema: Schema, page: Page) {
    forall i: nat :: i < Slots(schema) ==> Occupied(schema, page, i)
  }

  ghost predicate AllFull(schema: Schema, pages: seq<Page>, n: nat) {
    n <= |pages| && forall p: nat :: p < n ==> Full(schema, pages[p])
  }

  lemma OnePageChanged(schema: Schema, pages: seq<Page>, p: nat, i: nat, row: Row, page: Page)
    requires LengthsSuffice(schema) && p < |pages|
    requires i !in RowsOf(schema, pages[p]) && RowsOf(schema, page) == RowsOf(schema, pages[p])[i := row]
    ensures RowID(p, i) !in RowsIn(schema, pages)
    ensures RowsIn(schema, pages[p := page]) == RowsIn(schema, pages)[RowID(p, i) := row]
  {
    hide RowsOf, RowsIn;
    var after, before := RowsIn(schema, pages[p := page]), RowsIn(schema, pages);
    RowAt(schema, pages, RowID(p, i));
    forall id | true
      ensures (id in after <==> id in before[RowID(p, i) := row])
      ensures id in after ==> after[id] == before[RowID(p, i) := row][id]
    {
      RowAt(schema, pages, id);
      RowAt(schema, pages[p := page], id);
    }
    SameRows(after, before[RowID(p, i) := row]);
  }

  lemma EmptyPageAddsNoRow(schema: Schema, pages: seq<Page>, page: Page)
    requires LengthsSuffice(schema) && RowsOf(schema, page) == map[]
    ensures RowsIn(schema, pages + [page]) == RowsIn(schema, pages)
  {
    hide RowsOf, RowsIn;
    var after, before := RowsIn(schema, pages + [page]), RowsIn(schema, pages);
    forall id | true
      ensures (id in after <==> id in before) && (id in after ==> after[id] == before[id])
    {
      RowAt(schema, pages, id);
      RowAt(schema, pages + [page], id);
      assert id.page < |pages| ==> (pages + [page])[id.page] == pages[id.page];
    }
    SameRows(after, before);
  }

  lemma ZeroPageHasNoRow(schema: Schema, pages: seq<Page>)
    requires LengthsSuffice(schema)
    ensures RowsIn(schema, pages + [ZERO_PAGE]) == RowsIn(schema, pages)
  {
    hide RowsIn, Occupied;
    ZeroPageIsEmpty(schema);
    assert RowsOf(schema, ZERO_PAGE) == map[];
    EmptyPageAddsNoRow(schema, pages, ZERO_PAGE);
  }

  lemma FullGrows(schema: Schema, pages: seq<Page>, page: Page, n: nat)
    requires AllFull(schema, pages, n)
    ensures AllFull(schema, pages + [page], n)
  {}

  lemma FullNext(schema: Schema, pages: seq<Page>, n: nat)
    requires AllFull(schema, pages, n) && n < |pages| && Full(schema, pages[n])
    ensures AllFull(schema, pages, n + 1)
  {}

  lemma FullElsewhere(schema: Schema, pages: seq<Page>, pages': seq<Page>, n: nat)
    requires AllFull(schema, pages, n) && n < |pages| == |pages'|
    requires forall q: nat :: q < |pages| && q != n ==> pages'[q] == pages[q]
    ensures AllFull(schema, pages', n)
  {}

  lemma ZeroPageFullIff(schema: Schema)
    ensures Full(schema, ZERO_PAGE) <==> Slots(schema) == 0
  {
    ZeroPageIsEmpty(schema);
    if Slots(schema) > 0 {
      assert !Occupied(schema, ZERO_PAGE, 0);
    }
  }

  lemma FreeSlotMeansRoom(schema: Schema, page: Page, i: nat)
    requires LengthsSuffice(schema) && i < Slots(schema) && i !in RowsOf(schema, page)
    ensures !Full(schema, page)
  {
    assert !Occupied(schema, page, i);
  }

  /** The slots tried before a free one are all taken. */
  lemma EarlierAreTaken(schema: Schema, pages: seq<Page>, p: nat, i: nat)
    requires LengthsSuffice(schema) && p < |pages| && i < Slots(schema)
    requires AllFull(schema, pages, p) && forall j: nat :: j < i ==> Occupied(schema, pages[p], j)
    ensures forall id :: Before(id, RowID(p, i)) && id.row < Slots(schema) ==> id in RowsIn(schema, pages)
  {}

  // --- How long the insert loop runs ---

  /** The pages after a turn reaches page `at`: it is allocated if the file ends there. */
  function Reaching(pages: seq<Page>, at: nat): (r: seq<Page>)
    requires at <= |pages|
    ensures at < |r|
  {
    if at == |pages| then pages + [ZERO_PAGE] else pages
  }

  /** The pages after a row is inserted under an id: in the last one, a new one, or one before. */
  function WithInserted(schema: Schema, pages: seq<Page>, id: RowID, row: Row): seq<Page>
    requires id.page <= |pages| && id.row < Slots(schema) && LengthsSuffice(schema) && Conforms(row, schema)
  {
    var reached := Reaching(pages, id.page);
    reached[id.page := Inserted(schema, reached[id.page], id.row, row)]
  }

  /** The pages after `k` turns, starting at page `at`, of the insert loop that found no free slot. */
  function InsertTurns(pages: seq<Page>, at: nat, k: nat): (r: seq<Page>)
    requires at <= |pages|
    ensures |r| == if at + k <= |pages| then |pages| else at + k
  {
    if k == 0 then pages else Reaching(InsertTurns(pages, at, k - 1), at + k - 1)
  }

  /** The turn after `k` others finds a free slot, which ends the loop. */
  ghost predicate FindsSlot(schema: Schema, pages: seq<Page>, at: nat, k: nat)
    requires at <= |pages|
  {
    !Full(schema, InsertTurns(pages, at, k + 1)[at + k])
  }

  lemma FirstTurn(pages: seq<Page>, at: nat)
    requires at <= |pages|
    ensures InsertTurns(pages, at, 0) == pages
  {}

  /** What a turn looks at, and where it leaves the pages. */
  lemma NextTurn(schema: Schema, pages: seq<Page>, at: nat, k: nat)
    requires at + k <= |pages| && InsertTurns(pages, at, k) == pages
    ensures InsertTurns(pages, at, k + 1) == Reaching(pages, at + k)
    ensures FindsSlot(schema, pages, at, k) <==> !Full(schema, Reaching(pages, at + k)[at + k])
  {}

  /** Turns that find no slot insert nothing. */
  lemma {:induction false} TurnsAddNoRow(schema: Schema, pages: seq<Page>, at: nat, k: nat)
    requires LengthsSuffice(schema) && at <= |pages|
    ensures RowsIn(schema, InsertTurns(pages, at, k)) == RowsIn(schema, pages)
  {
    hide RowsIn;
    if k == 0 {
    } else {
      TurnsAddNoRow(schema, pages, at, k - 1);
      ZeroPageHasNoRow(schema, InsertTurns(pages, at, k - 1));
    }
  }

  /**
    The insert loop ends if and only if a slot fits into a page. Without one, `k` turns leave a file of at least
    `at + k` pages and the rows as they were, for every `k`.
   */
  lemma InsertEndsIff(schema: Schema, pages: seq<Page>, at: nat)
    requires at <= |pages|
    ensures (exists k: nat :: FindsSlot(schema, pages, at, k)) <==> Slots(schema) > 0
  {
    hide Full;
    ZeroPageFullIff(schema);
    if Slots(schema) > 0 {
      assert FindsSlot(schema, pages, at, |pages| - at);
    } else {
      forall k: nat | true ensures !FindsSlot(schema, pages, at, k) {
        NoSlotIsFull(schema, InsertTurns(pages, at, k + 1)[at + k]);
      }
    }
  }

  lemma {:induction false} TurnsWithin(pages: seq<Page>, at: nat, k: nat)
    requires at + k <= |pages|
    ensures InsertTurns(pages, at, k) == pages
  {
    if k == 0 {
    } else {
      TurnsWithin(pages, at, k - 1);
    }
  }

  lemma NoSlotIsFull(schema: Schema, page: Page)
    requires Slots(schema) == 0
    ensures Full(schema, page)
  {}

  class Table {
    const pool: FramePool
    const file: File
    const schema: Schema
    var currentPage: nat

    /** What holds in and between the operations of a table. */
    ghost predicate Ready()
      reads pool, pool.cache, pool.files
    {
      pool.Valid() && file in pool.files && LengthsSuffice(schema)
    }

    ghost predicate Valid()
      reads this, pool, pool.cache, pool.memory, pool.files
    {
      Ready() && currentPage <= |file.pages| && AllFull(schema, pool.Contents(file), currentPage)
    }

    /** The rows of the table by their ids. */
    ghost function Rows(): map<RowID, Row>
      requires Ready()
      reads this, pool, pool.cache, pool.memory, pool.files
    {
      RowsIn(schema, pool.Contents(file))
    }

    /** Exactly the first `n` slots are taken. */
    ghost predicate DenselyFilled(n: nat)
      requires Ready() && Slots(schema) > 0
      reads this, pool, pool.cache, pool.memory, pool.files
    {
      Dense(Rows(), |file.pages|, Slots(schema), n)
    }

    ghost predicate Cached(p: nat)
      reads pool, pool.cache
    {
      PageID(file.fd, p) in pool.cache.table
    }

    /** Page `p` has room, and every page the insert loop tries before it and `p` itself are cached. */
    ghost predicate RoomAt(p: nat)
      requires Ready()
      reads this, pool, pool.cache, pool.memory, pool.files
    {
      && currentPage <= p < |file.pages| && !Full(schema, pool.Contents(file)[p])
      && forall q: nat :: currentPage <= q <= p ==> Cached(q)
    }

    /** The insert loop never has to load a page while every frame has a handle. */
    ghost predicate CanInsert()
      requires Ready()
      reads this, pool, pool.cache, pool.memory, pool.files
    {
      pool.HasFreeFrame() || exists p: nat :: RoomAt(p)
    }

    /** A request for page `q` comes to an end: it is cached, or the sweep for a frame stops. */
    ghost predicate Served(q: nat)
      requires pool.Valid()
      reads pool, pool.cache, pool.files
    {
      Cached(q) || exists n: nat :: StopsAt(pool.cache.ring, pool.cache.cursor, n)
    }

    /**
      Some turn of the insert loop finds a slot, and no request up to then fails to come to an end. It is enough to look
      at the frames of the first turn: turns that find no slot keep every handle, and while all frames have one also the
      cached pages.
     */
    ghost predicate InsertReturns()
      requires Valid()
      reads this, pool, pool.cache, pool.memory, pool.files
    {
      exists k: nat :: && FindsSlot(schema, pool.Contents(file), currentPage, k)
                       && forall q: nat :: currentPage <= q <= currentPage + k ==> Served(q)
    }

    /** The insert returns exactly when a slot fits into a page and it never waits for a frame. */
    lemma InsertReturnsIff()
      requires Valid()
      ensures InsertReturns() <==> Slots(schema) > 0 && CanInsert()
    {
      hide Slots, Full, AllFull, FindsSlot, InsertTurns, FramePool.Contents, FramePool.Valid, StopsAt;
      ContentsMatch();
      pool.LoadEndsIff();
      InsertEndsIff(schema, pool.Contents(file), currentPage);
      if InsertReturns() && !pool.HasFreeFrame() {
        var k: nat :| && FindsSlot(schema, pool.Contents(file), currentPage, k)
                      && forall q: nat :: currentPage <= q <= currentPage + k ==> Served(q);
        forall q: nat | currentPage <= q <= currentPage + k ensures Cached(q) {
          assert Served(q);
        }
        CachedInFile(currentPage + k);
        FindsWithin(k);
        assert RoomAt(currentPage + k);
      }
      if Slots(schema) > 0 && !pool.HasFreeFrame() && CanInsert() {
        var p: nat :| RoomAt(p);
        FindsWithin(p - currentPage);
      }
    }

    lemma ContentsMatch()
      requires Ready()
      ensures |pool.Contents(file)| == |file.pages|
    {}

    lemma CachedInFile(p: nat)
      requires Ready() && Cached(p)
      ensures p < |file.pages|
    {
      HitIsOwned(pool.cache.table, pool.cache.ring, pool.cache.used, pool.frames, pool.pins, pool.files, file, p);
    }

    lemma FindsWithin(k: nat)
      requires Ready() && currentPage + k < |file.pages|
      ensures FindsSlot(schema, pool.Contents(file), currentPage, k)
         <==> !Full(schema, pool.Contents(file)[currentPage + k])
    {
      hide Full;
      ContentsMatch();
      TurnsWithin(pool.Contents(file), currentPage, k + 1);
    }

    constructor (pool: FramePool, file: File, schema: Schema)
      requires pool.Valid() && file in pool.files && LengthsSuffice(schema)
      ensures Valid() && this.pool == pool && this.file == file && this.schema == schema && currentPage == 0
    {
      this.pool, this.file, this.schema, currentPage := pool, file, schema, 0;
    }

    /** Inserts into the page that a handle gives access to. */
    method InsertInFrame(f: nat, row: Row) returns (ok: bool, i: nat, ghost page: Page)
      requires Ready() && f in pool.pins && f < |pool.frames| && pool.frames[f].owner == file && Conforms(row, schema)
      modifies pool.memory
      ensures Ready()
      ensures var p := pool.frames[f].pageIndex;
        && p < |file.pages|
        && (forall g :: g in pool.files ==>
              pool.Contents(g) == if g == file then old(pool.Contents(g))[p := page] else old(pool.Contents(g)))
        && (if ok then
              && i < Slots(schema)
              && i !in RowsOf(schema, old(pool.Contents(file))[p])
              && RowsOf(schema, page) == RowsOf(schema, old(pool.Contents(file))[p])[i := row]
              && page == Inserted(schema, old(pool.Contents(file))[p], i, row)
            else page == old(pool.Contents(file))[p])
        && forall j: nat :: j < (if ok then i else Slots(schema)) ==> Occupied(schema, old(pool.Contents(file))[p], j)
    {
      hide Conforms, Occupied, RowsOf, Described, Indexed, ContentOf;
      pool.HandleShowsContent(f);
      var tablePage := new FixedTablePage(pool.memory, FrameStart(f), schema);
      assert tablePage.Bytes() == pool.Contents(file)[pool.frames[f].pageIndex];
      ok, i := tablePage.InsertRow(row);
      page := tablePage.Bytes();
      OnlyHere(old(pool.memory[..]), pool.memory[..], FrameStart(f));
      assert page == FrameBytes(pool.memory[..], f);
      pool.WriteThroughHandle(f);
    }

    /** One turn of the insert loop: the page is fetched, tried and released. */
    method TryInsert(p: nat, row: Row) returns (ok: bool, i: nat)
      requires Ready() && p < |file.pages| && Conforms(row, schema)
      requires PageID(file.fd, p) != NO_TAG && (Cached(p) || pool.HasFreeFrame())
      modifies pool`frames, pool`pins, pool.cache, pool.memory, pool.files
      ensures Ready() && pool.files == old(pool.files) && pool.pins == old(pool.pins)
      ensures |pool.frames| == |old(pool.frames)|
      ensures forall g :: g in pool.files && (g != file || !ok) ==> pool.Contents(g) == old(pool.Contents(g))
      ensures old(Cached(p)) ==> pool.cache.table == old(pool.cache.table)
      ensures Requested(old(pool.cache.table), old(pool.cache.ring), old(pool.cache.cursor), PageID(file.fd, p),
                        pool.cache.table, pool.cache.ring, pool.cache.cursor)
      ensures ok <==> !Full(schema, old(pool.Contents(file))[p])
      ensures ok ==>
        && i < Slots(schema)
        && RowID(p, i) !in old(Rows()) && Rows() == old(Rows())[RowID(p, i) := row]
        && (forall j: nat :: j < i ==> Occupied(schema, old(pool.Contents(file))[p], j))
        && pool.Contents(file)
           == old(pool.Contents(file))[p := Inserted(schema, old(pool.Contents(file))[p], i, row)]
    {
      hide Conforms, Occupied, RowsOf, RowsIn, AllFull, Described, Indexed, FilesOk, OwnersOk, FramePool.Contents;
      hide ContentOf, FrameBytes, TakenFor, Requested;
      var f := pool.AcquireFrame(file, p);
      ghost var mid := pool.cache.ring;
      ghost var page;
      ok, i, page := InsertInFrame(f, row);
      pool.ReleaseFrame(f);
      RequestDone(old(pool.cache.table), old(pool.cache.ring), old(pool.cache.cursor), PageID(file.fd, p), f,
                  pool.cache.table, mid, pool.cache.cursor);
      if ok {
        FreeSlotMeansRoom(schema, old(pool.Contents(file))[p], i);
        OnePageChanged(schema, old(pool.Contents(file)), p, i, row, page);
      } else {
        assert old(pool.Contents(file))[p := page] == old(pool.Contents(file));
      }
    }

    /**
      One turn of the insert loop: a page is added if the file ends at the current one, and the row goes into the first
      free slot of that page. If there is none, the next page becomes the current one and nothing is inserted.
     */
    method TakeTurn(row: Row) returns (ok: bool, i: nat)
      requires Valid() && Conforms(row, schema) && PageID(file.fd, currentPage) != NO_TAG
      requires pool.HasFreeFrame() || (currentPage < |file.pages| && Cached(currentPage))
      modifies this`currentPage, pool`frames, pool`pins, pool.cache, pool.memory, pool.files
      ensures Valid() && pool.files == old(pool.files) && pool.pins == old(pool.pins)
      ensures |pool.frames| == |old(pool.frames)|
      ensures !old(pool.HasFreeFrame()) ==> pool.cache.table == old(pool.cache.table)
      ensures forall g :: g in pool.files && g != file ==> pool.Contents(g) == old(pool.Contents(g))
      ensures |file.pages| == |Reaching(old(pool.Contents(file)), old(currentPage))|
      ensures ok <==> !Full(schema, Reaching(old(pool.Contents(file)), old(currentPage))[old(currentPage)])
      ensures !ok ==>
        && currentPage == old(currentPage) + 1
        && pool.Contents(file) == Reaching(old(pool.Contents(file)), old(currentPage))
      ensures ok ==>
        && currentPage == old(currentPage) && i < Slots(schema)
        && RowID(currentPage, i) !in old(Rows()) && Rows() == old(Rows())[RowID(currentPage, i) := row]
        && (forall id :: Before(id, RowID(currentPage, i)) && id.row < Slots(schema) ==> id in old(Rows()))
        && pool.Contents(file) == WithInserted(schema, old(pool.Contents(file)), RowID(currentPage, i), row)
    {
      hide Conforms, Occupied, AllFull, Full, RowsOf, RowsIn, FramePool.Contents, OwnersOk, FilesOk, Described, Indexed;
      hide Requested, Inserted;
      EndOfFile();
      if currentPage == file.PageCount() {
        AddPage();
      }
      ghost var before := pool.Contents(file);
      ok, i := TryInsert(currentPage, row);
      if ok {
        EarlierAreTaken(schema, before, currentPage, i);
        FullElsewhere(schema, before, pool.Contents(file), currentPage);
      } else {
        FullNext(schema, before, currentPage);
        currentPage := currentPage + 1;
      }
    }

    lemma EndOfFile()
      requires Ready()
      ensures file.Valid() && |pool.Contents(file)| == |file.pages| && file.PageCount() == |file.pages|
    {}

    /**
      Inserts a row under an id that no row had and changes no other row of this table or page of another file. The id
      is the first free one; the file grows only when its last page is full. The number of turns is exactly how long
      the loop runs on these pages.
     */
    method InsertRow(row: Row) returns (id: RowID)
      requires Valid() && Conforms(row, schema) && Slots(schema) > 0 && CanInsert()
      requires PageID(file.fd, currentPage) != NO_TAG
      modifies this`currentPage, pool`frames, pool`pins, pool.cache, pool.memory, pool.files
      ensures Valid() && pool.files == old(pool.files) && pool.pins == old(pool.pins)
      ensures |pool.frames| == |old(pool.frames)|
      ensures id !in old(Rows()) && Rows() == old(Rows())[id := row]
      ensures id.row < Slots(schema) && old(currentPage) <= id.page == currentPage
      ensures forall other :: Before(other, id) && other.row < Slots(schema) ==> other in old(Rows())
      ensures |file.pages| == if id.page < |old(file.pages)| then |old(file.pages)| else id.page + 1
      ensures forall g :: g in pool.files && g != file ==> pool.Contents(g) == old(pool.Contents(g))
      ensures id.page <= |old(file.pages)| == |old(pool.Contents(file))|
      ensures pool.Contents(file) == WithInserted(schema, old(pool.Contents(file)), id, row)
      ensures FindsSlot(schema, old(pool.Contents(file)), old(currentPage), id.page - old(currentPage))
      ensures forall k: nat :: k < id.page - old(currentPage) ==>
        !FindsSlot(schema, old(pool.Contents(file)), old(currentPage), k)
    {
      hide Conforms, AllFull, Full, RowsIn, FramePool.Contents, FindsSlot, InsertTurns, FramePool.Valid;
      hide WithInserted, Inserted;
      ghost var start, at, free := pool.Contents(file), currentPage, pool.HasFreeFrame();
      ghost var room: nat, turns: nat := |file.pages|, 0;
      if !free {
        room :| RoomAt(room);
      }
      EndOfFile();
      FirstTurn(start, at);
      while true
        invariant Valid() && |file.pages| == |start| && currentPage == at + turns <= |start|
        invariant pool.files == old(pool.files) && pool.pins == old(pool.pins) && |pool.frames| == |old(pool.frames)|
        invariant forall g :: g in pool.files ==> pool.Contents(g) == old(pool.Contents(g))
        invariant !free ==> pool.cache.table == old(pool.cache.table) && currentPage <= room
        invariant InsertTurns(start, at, turns) == start
        invariant forall k: nat :: k < turns ==> !FindsSlot(schema, start, at, k)
        decreases |start| - currentPage
      {
        ghost var p := currentPage;
        if free {
          FreeAgain();
        } else {
          assert old(Cached(p));
        }
        NextTurn(schema, start, at, turns);
        ZeroPageFullIff(schema);
        var ok, i := TakeTurn(row);
        if ok {
          return RowID(currentPage, i);
        }
        turns := turns + 1;
      }
    }

    /** With the same handles outstanding there is a free frame again. */
    twostate lemma FreeAgain()
      requires old(pool.HasFreeFrame()) && pool.pins == old(pool.pins) && |pool.frames| == |old(pool.frames)|
      ensures pool.HasFreeFrame()
    {
      var f: nat :| f < |old(pool.frames)| && old(pool.pins)[f] == 0;
      assert pool.pins[f] == 0;
    }

    /** Reads a slot of the page that a handle gives access to. */
    method ReadInFrame(f: nat, i: nat) returns (row: Row)
      requires Ready() && f in pool.pins && f < |pool.frames| && pool.frames[f].owner == file && i < Slots(schema)
      ensures pool.frames[f].pageIndex < |file.pages|
      ensures var page := pool.Contents(file)[pool.frames[f].pageIndex];
        row == if i in RowsOf(schema, page) then RowsOf(schema, page)[i] else []
    {
      hide RowsOf, Described, Indexed, ContentOf;
      pool.HandleShowsContent(f);
      var tablePage := new FixedTablePage(pool.memory, FrameStart(f), schema);
      assert tablePage.Bytes() == pool.Contents(file)[pool.frames[f].pageIndex];
      row := tablePage.GetRow(i);
    }

    /** Gives the row inserted under an id of this table, and an empty row if nothing was inserted there. */
    method GetRow(id: RowID) returns (row: Row)
      requires Valid() && id.page < |file.pages| && id.row < Slots(schema)
      requires PageID(file.fd, id.page) != NO_TAG && (Cached(id.page) || pool.HasFreeFrame())
      modifies pool`frames, pool`pins, pool.cache, pool.memory, pool.files
      ensures Valid() && pool.files == old(pool.files) && pool.pins == old(pool.pins)
      ensures |pool.frames| == |old(pool.frames)|
      ensures forall g :: g in pool.files ==> pool.Contents(g) == old(pool.Contents(g))
      ensures row == if id in old(Rows()) then old(Rows())[id] else []
      ensures Requested(old(pool.cache.table), old(pool.cache.ring), old(pool.cache.cursor), PageID(file.fd, id.page),
                        pool.cache.table, pool.cache.ring, pool.cache.cursor)
    {
      hide Occupied, AllFull, Full, RowsOf, RowsIn, Described, Indexed, FilesOk, OwnersOk, FramePool.Contents;
      hide ContentOf, FrameBytes, TakenFor, Requested;
      RowAt(schema, pool.Contents(file), id);
      var f := pool.AcquireFrame(file, id.page);
      ghost var mid := pool.cache.ring;
      row := ReadInFrame(f, id.row);
      pool.ReleaseFrame(f);
      RequestDone(old(pool.cache.table), old(pool.cache.ring), old(pool.cache.cursor), PageID(file.fd, id.page), f,
                  pool.cache.table, mid, pool.cache.cursor);
    }

    /** Whatever else happens to the pool, a table whose file reads as before is as before. */
    twostate lemma Undisturbed()
      requires old(Valid()) && pool.Valid() && file in pool.files && currentPage == old(currentPage)
      requires pool.Contents(file) == old(pool.Contents(file))
      ensures Valid() && Rows() == old(Rows())
    {}

    lemma EmptyFileIsDense()
      requires Ready() && Slots(schema) > 0 && file.pages == []
      ensures DenselyFilled(0)
    {}

    /** The file grows by a page without rows; the page becomes the current one. */
    method AddPage()
      requires Valid() && currentPage == |file.pages|
      modifies this`currentPage, file
      ensures Valid() && currentPage == old(currentPage)
      ensures Rows() == old(Rows()) && pool.Contents(file) == old(pool.Contents(file)) + [ZERO_PAGE]
      ensures forall g :: g in pool.files && g != file ==> pool.Contents(g) == old(pool.Contents(g))
      ensures Slots(schema) > 0 ==> !Full(schema, ZERO_PAGE)
    {
      hide Occupied, AllFull, Full, RowsOf, RowsIn, ContentOf, Described, Indexed, FramePool.Contents;
      currentPage := file.AllocPage();
      pool.PageAdded(file);
      ZeroPageHasNoRow(schema, old(pool.Contents(file)));
      FullGrows(schema, old(pool.Contents(file)), ZERO_PAGE, currentPage);
      ZeroPageFullIff(schema);
    }
  }

  /** Memory that changed in one page only. */
  lemma OnlyHere(before: seq<byte>, after: seq<byte>, base: nat)
    requires |before| == |after| && base + PAGE_SIZE <= |before|
    requires after[..base] == before[..base] && after[base + PAGE_SIZE..] == before[base + PAGE_SIZE..]
    ensures after == Written(before, base, after[base..base + PAGE_SIZE])
  {}

  // --- Ids on a file that only this table fills ---

  /** The position of a slot in the file. */
  function Position(slots: nat, page: nat, row: nat): nat {
    page * slots + row
  }

  /** Exactly the first `n` slots hold rows, and the file has just the pages they need. */
  ghost predicate Dense(rows: map<RowID, Row>, pageCount: nat, slots: nat, n: nat)
    requires slots > 0
  {
    && (forall id :: id in rows <==> id.row < slots && Position(slots, id.page, id.row) < n)
    && pageCount == (n + slots - 1) / slots
  }

  lemma PageGap(slots: nat, a: nat, b: nat)
    requires a < b
    ensures Position(slots, a, slots) <= Position(slots, b, 0)
  {
    var d: nat := b - a - 1;
    assert b * slots == a * slots + slots + d * slots;
  }

  /** Slots are tried in the order of their positions. */
  lemma OrderIsNumeric(slots: nat, a: RowID, b: RowID)
    requires a.row < slots && b.row < slots
    ensures Before(a, b) <==> Position(slots, a.page, a.row) < Position(slots, b.page, b.row)
    ensures a == b <==> Position(slots, a.page, a.row) == Position(slots, b.page, b.row)
  {
    if a.page < b.page {
      PageGap(slots, a.page, b.page);
    } else if b.page < a.page {
      PageGap(slots, b.page, a.page);
    }
  }

  lemma PositionOf(slots: nat, n: nat)
    requires slots > 0
    ensures Position(slots, n / slots, n % slots) == n && n % slots < slots
  {}

  lemma DivMod(slots: nat, page: nat, row: nat)
    requires row < slots
    ensures Position(slots, page, row) / slots == page && Position(slots, page, row) % slots == row
  {
    var n := Position(slots, page, row);
    PositionOf(slots, n);
    OrderIsNumeric(slots, RowID(page, row), RowID(n / slots, n % slots));
  }

  lemma PagesNeeded(slots: nat, page: nat, row: nat)
    requires row < slots
    ensures (Position(slots, page, row) + slots - 1) / slots == if row == 0 then page else page + 1
    ensures (Position(slots, page, row) + slots) / slots == page + 1
  {
    assert Position(slots, page + 1, row) == Position(slots, page, row) + slots by {
      PageGap(slots, page, page + 1);
      assert (page + 1) * slots == page * slots + slots;
    }
    DivMod(slots, page + 1, row);
    if row == 0 {
      DivMod(slots, page, slots - 1);
    } else {
      assert Position(slots, page + 1, row - 1) == Position(slots, page + 1, row) - 1;
      DivMod(slots, page + 1, row - 1);
    }
  }

  /** What `InsertRow` promises makes the insert after `n` others return (n div S, n mod S). */
  lemma DenseInsert(rows: map<RowID, Row>, pageCount: nat, slots: nat, n: nat, id: RowID, row: Row)
    requires slots > 0 && Dense(rows, pageCount, slots, n)
    requires id !in rows && id.row < slots
    requires forall other :: Before(other, id) && other.row < slots ==> other in rows
    ensures id == RowID(n / slots, n % slots)
    ensures Dense(rows[id := row], if id.page < pageCount then pageCount else id.page + 1, slots, n + 1)
  {
    hide Position, Before;
    var next := RowID(n / slots, n % slots);
    PositionOf(slots, n);
    OrderIsNumeric(slots, next, id);
    assert id == next;
    forall other: RowID | other.row < slots
      ensures other in rows[id := row] <==> Position(slots, other.page, other.row) < n + 1
    {
      OrderIsNumeric(slots, other, id);
    }
    PagesNeeded(slots, id.page, id.row);
  }

  // --- Many inserts, then many reads ---

  ghost predicate Added(before: map<RowID, Row>, after: map<RowID, Row>, ids: seq<RowID>, rows: seq<Row>) {
    && |ids| == |rows|
    && (forall i, j :: 0 <= i < j < |ids| ==> ids[i] != ids[j])
    && (forall i :: 0 <= i < |ids| ==> ids[i] !in before && ids[i] in after && after[ids[i]] == rows[i])
    && (forall id :: id in after ==> id in before || id in ids)
    && forall id :: id in before ==> id in after && after[id] == before[id]
  }

  /** The ids name slots of existing pages. */
  ghost predicate Inside(ids: seq<RowID>, pageCount: nat, slots: nat) {
    forall id :: id in ids ==> id.page < pageCount && id.row < slots
  }

  lemma NoneInside(pageCount: nat, slots: nat)
    ensures Inside([], pageCount, slots)
  {}

  lemma OneMoreInside(ids: seq<RowID>, pageCount: nat, after: nat, slots: nat, id: RowID)
    requires Inside(ids, pageCount, slots) && pageCount <= after && id.page < after && id.row < slots
    ensures Inside(ids + [id], after, slots)
  {}

  lemma NoneAdded(before: map<RowID, Row>, rows: seq<Row>)
    ensures Added(before, before, [], rows[..0])
  {}

  lemma AddedOneMore(before: map<RowID, Row>, after: map<RowID, Row>, ids: seq<RowID>, rows: seq<Row>, id: RowID,
                     row: Row)
    requires Added(before, after, ids, rows) && id !in after
    ensures Added(before, after[id := row], ids + [id], rows + [row])
  {}

  /** The `k`-th of these ids is the slot at position `n + k`. */
  ghost predicate Consecutive(ids: seq<RowID>, slots: nat, n: nat)
    requires slots > 0
  {
    forall k: nat :: k < |ids| ==> ids[k] == RowID((n + k) / slots, (n + k) % slots)
  }

  lemma NoneConsecutive(slots: nat, n: nat)
    requires slots > 0
    ensures Consecutive([], slots, n)
  {}

  lemma ConsecutiveSnoc(ids: seq<RowID>, slots: nat, n: nat)
    requires slots > 0 && Consecutive(ids, slots, n)
    ensures Consecutive(ids + [RowID((n + |ids|) / slots, (n + |ids|) % slots)], slots, n)
  {}

  /**
    The insert loop of the example program: every row gets an id of its own and no other row changes. On a densely
    filled table the ids are consecutive.
   */
  method StoreAll(table: Table, rows: seq<Row>, ghost n: nat) returns (ids: seq<RowID>)
    requires table.Valid() && table.pool.HasFreeFrame()
    requires Slots(table.schema) > 0 && table.file.fd != NO_TAG.fd
    requires forall row :: row in rows ==> Conforms(row, table.schema)
    modifies table, table.pool, table.pool.cache, table.pool.memory, table.pool.files
    ensures table.Valid() && table.pool.HasFreeFrame() && table.pool.files == old(table.pool.files)
    ensures Added(old(table.Rows()), table.Rows(), ids, rows)
    ensures old(table.DenselyFilled(n)) ==> table.DenselyFilled(n + |rows|) && Consecutive(ids, Slots(table.schema), n)
    ensures Inside(ids, |table.file.pages|, Slots(table.schema))
  {
    hide Conforms, Dense, Slots, RowsIn, AllFull, Consecutive, Described, Indexed, OwnersOk, FilesOk, Before, Stride;
    hide FramePool.Contents, FramePool.HasFreeFrame, Added, FindsSlot, Inside, WithInserted;
    ids := [];
    ghost var slots := Slots(table.schema);
    ghost var dense := table.DenselyFilled(n);
    NoneConsecutive(slots, n);
    NoneAdded(table.Rows(), rows);
    NoneInside(|table.file.pages|, slots);
    for i := 0 to |rows|
      invariant table.Valid() && table.pool.files == old(table.pool.files)
      invariant table.pool.pins == old(table.pool.pins) && |table.pool.frames| == |old(table.pool.frames)|
      invariant Added(old(table.Rows()), table.Rows(), ids, rows[..i])
      invariant dense ==> table.DenselyFilled(n + i) && Consecutive(ids, slots, n)
      invariant |ids| == i && Inside(ids, |table.file.pages|, slots)
    {
      assert rows[..i + 1] == rows[..i] + [rows[i]];
      table.FreeAgain();
      ghost var before, pageCount := table.Rows(), |table.file.pages|;
      var id := table.InsertRow(rows[i]);
      AddedOneMore(old(table.Rows()), before, ids, rows[..i], id, rows[i]);
      if dense {
        DenseInsert(before, pageCount, slots, n + i, id, rows[i]);
        ConsecutiveSnoc(ids, slots, n);
      }
      OneMoreInside(ids, pageCount, |table.file.pages|, slots, id);
      ids := ids + [id];
    }
    assert rows[..|rows|] == rows;
    table.FreeAgain();
  }

  /** The read loop of the example program: whatever was evicted meanwhile, every row comes back under its id. */
  method ReadAll(table: Table, ids: seq<RowID>) returns (rows: seq<Row>)
    requires table.Valid() && table.pool.HasFreeFrame() && table.file.fd != NO_TAG.fd
    requires Inside(ids, |table.file.pages|, Slots(table.schema))
    modifies table.pool, table.pool.cache, table.pool.memory, table.pool.files
    ensures table.Valid() && table.Rows() == old(table.Rows())
    ensures |rows| == |ids|
    ensures forall i :: 0 <= i < |ids| && ids[i] in table.Rows() ==> rows[i] == table.Rows()[ids[i]]
  {
    hide Slots, Stride, RowsIn, AllFull, Described, Indexed, OwnersOk, FilesOk, FramePool.Contents;
    rows := [];
    for i := 0 to |ids|
      invariant table.Valid() && table.pool.HasFreeFrame() && table.pool.files == old(table.pool.files)
      invariant table.pool.Contents(table.file) == old(table.pool.Contents(table.file))
      invariant |rows| == i
      invariant forall k :: 0 <= k < i && ids[k] in table.Rows() ==> rows[k] == table.Rows()[ids[k]]
    {
      var row := table.GetRow(ids[i]);
      rows := rows + [row];
    }
  }

  /** Rows come back under the ids their inserts returned. */
  method StoreAndReadBack(table: Table, rows: seq<Row>) returns (ids: seq<RowID>, answers: seq<Row>)
    requires table.Valid() && table.pool.HasFreeFrame()
    requires Slots(table.schema) > 0 && table.file.fd != NO_TAG.fd
    requires forall row :: row in rows ==> Conforms(row, table.schema)
    modifies table, table.pool, table.pool.cache, table.pool.memory, table.pool.files
    ensures answers == rows && |ids| == |rows|
  {
    hide Conforms, Slots, RowsIn, AllFull, Described, Indexed, OwnersOk, Dense, Consecutive;
    ids := StoreAll(table, rows, 0);
    answers := ReadAll(table, ids);
  }
}
