/** Whole histories of tables: any mix of inserts and gets over a shared pool, and what a later start finds. */
module TableRuns {
  import opened Codec
  import opened FixedPages
  import opened ClockEviction
  import opened BufferPool
  import opened Tables

  /** An operation on one of two tables; `Get` asks for the row that was inserted `n`-th. */
  datatype Op = Insert(first: bool, row: Row) | Get(first: bool, n: nat)

  datatype Answer = Inserted | Found(row: Row) | Unknown

  function Lookup(rows: seq<Row>, n: nat): Answer {
    if n < |rows| then Found(rows[n]) else Unknown
  }

  /** What two plain lists of rows answer. */
  function Answers(ops: seq<Op>, a: seq<Row>, b: seq<Row>): seq<Answer> {
    if ops == [] then []
    else
      match ops[0]
      case Insert(first, row) =>
        [Inserted] + Answers(ops[1..], if first then a + [row] else a, if first then b else b + [row])
      case Get(first, n) =>
        [Lookup(if first then a else b, n)] + Answers(ops[1..], a, b)
  }

  /** Everything an insert or get on a table needs. */
  ghost predicate Usable(t: Table)
    reads t, t.pool, t.pool.cache, t.pool.memory, t.pool.files
  {
    t.Valid() && t.pool.HasFreeFrame() && Slots(t.schema) > 0 && t.file.fd != NO_TAG.fd
  }

  /** The table has the rows under the ids. */
  ghost predicate Holds(t: Table, ids: seq<RowID>, rows: seq<Row>)
    requires t.Valid()
    reads t, t.pool, t.pool.cache, t.pool.memory, t.pool.files
  {
    && |ids| == |rows|
    && forall k :: 0 <= k < |ids| ==> ids[k] in t.Rows() && t.Rows()[ids[k]] == rows[k]
  }

  /** Two tables of different files in one pool. */
  ghost predicate Sharing(t: Table, u: Table)
  {
    t != u && t.pool == u.pool && t.file != u.file
  }

  /** Both tables can be used and have the rows inserted so far. */
  ghost predicate Serving(t: Table, u: Table, ids: seq<RowID>, others: seq<RowID>, rows: seq<Row>, otherRows: seq<Row>)
    reads t, t.pool, t.pool.cache, t.pool.memory, t.pool.files
    reads u, u.pool, u.pool.cache, u.pool.memory, u.pool.files
  {
    Sharing(t, u) && Usable(t) && Usable(u) && Holds(t, ids, rows) && Holds(u, others, otherRows)
  }

  method InsertOne(t: Table, u: Table, row: Row, ids: seq<RowID>, others: seq<RowID>, ghost rows: seq<Row>,
                   ghost otherRows: seq<Row>)
    returns (after: seq<RowID>)
    requires Serving(t, u, ids, others, rows, otherRows)
    requires Conforms(row, t.schema)
    modifies t`currentPage, t.pool`frames, t.pool`pins, t.pool.cache, t.pool.memory, t.pool.files
    ensures Serving(t, u, after, others, rows + [row], otherRows)
    ensures Serving(u, t, others, after, otherRows, rows + [row])
    ensures t.pool.files == old(t.pool.files)
  {
    hide Conforms, RowsIn, AllFull, Slots, FramePool.Contents, WithInserted, FindsSlot;
    var id := t.InsertRow(row);
    u.Undisturbed();
    t.FreeAgain();
    after := ids + [id];
  }

  method GetOne(t: Table, u: Table, n: nat, ids: seq<RowID>, others: seq<RowID>, ghost rows: seq<Row>,
                ghost otherRows: seq<Row>)
    returns (answer: Answer)
    requires Serving(t, u, ids, others, rows, otherRows)
    modifies t.pool`frames, t.pool`pins, t.pool.cache, t.pool.memory, t.pool.files
    ensures Serving(t, u, ids, others, rows, otherRows) && Serving(u, t, others, ids, otherRows, rows)
    ensures t.pool.files == old(t.pool.files) && answer == Lookup(rows, n)
  {
    hide RowsIn, AllFull, Slots, FramePool.Contents, Requested;
    if n >= |ids| {
      return Unknown;
    }
    RowInFile(t, ids[n]);
    var row := t.GetRow(ids[n]);
    u.Undisturbed();
    t.Undisturbed();
    t.FreeAgain();
    answer := Found(row);
  }

  /** One operation, on whichever table it is for. */
  method AnswerOne(t: Table, u: Table, op: Op, ids: seq<RowID>, others: seq<RowID>, ghost rows: seq<Row>,
                   ghost otherRows: seq<Row>)
    returns (answer: Answer, newIds: seq<RowID>, newOthers: seq<RowID>)
    requires Serving(t, u, ids, others, rows, otherRows) && Serving(u, t, others, ids, otherRows, rows)
    requires op.Insert? ==> Conforms(op.row, (if op.first then t else u).schema)
    modifies t, u, t.pool, t.pool.cache, t.pool.memory, t.pool.files
    ensures t.pool.files == old(t.pool.files)
    ensures var newRows := if op.Insert? && op.first then rows + [op.row] else rows;
            var newOtherRows := if op.Insert? && !op.first then otherRows + [op.row] else otherRows;
            && Serving(t, u, newIds, newOthers, newRows, newOtherRows)
            && Serving(u, t, newOthers, newIds, newOtherRows, newRows)
    ensures answer == if op.Insert? then Inserted else Lookup(if op.first then rows else otherRows, op.n)
  {
    assert t.pool == u.pool;
    hide Serving, Usable, Holds, Conforms;
    newIds, newOthers := ids, others;
    match op {
      case Insert(first, row) =>
        if first {
          newIds := InsertOne(t, u, row, ids, others, rows, otherRows);
        } else {
          newOthers := InsertOne(u, t, row, others, ids, otherRows, rows);
        }
        answer := Inserted;
      case Get(first, n) =>
        if first {
          answer := GetOne(t, u, n, ids, others, rows, otherRows);
        } else {
          answer := GetOne(u, t, n, others, ids, otherRows, rows);
        }
    }
  }

  lemma RowInFile(t: Table, id: RowID)
    requires t.Valid() && id in t.Rows()
    ensures id.page < |t.file.pages| && id.row < Slots(t.schema)
  {
    RowAt(t.schema, t.pool.Contents(t.file), id);
  }

  /**
    For every list of inserts and gets on two tables that share a pool, however small, the answers are those of two
    plain lists: whatever is evicted in between, every get gives exactly the row inserted under its id.
   */
  method Replay(t: Table, u: Table, ops: seq<Op>) returns (answers: seq<Answer>)
    requires Sharing(t, u) && Usable(t) && Usable(u)
    requires forall op :: op in ops && op.Insert? ==> Conforms(op.row, (if op.first then t else u).schema)
    modifies t, u, t.pool, t.pool.cache, t.pool.memory, t.pool.files
    ensures answers == Answers(ops, [], []) && Usable(t) && Usable(u) && t.pool.files == old(t.pool.files)
  {
    hide Serving, Usable, Holds, Conforms, Answers, Foreseen, Lookup;
    answers := [];
    var ids: seq<RowID>, others: seq<RowID> := [], [];
    ghost var rows: seq<Row>, otherRows: seq<Row> := [], [];
    StartServing(t, u);
    for i := 0 to |ops|
      invariant Serving(t, u, ids, others, rows, otherRows) && Serving(u, t, others, ids, otherRows, rows)
      invariant t.pool.files == old(t.pool.files)
      invariant Foreseen(ops, i, answers, rows, otherRows) == Foreseen(ops, 0, [], [], [])
    {
      NextAnswer(ops, i, answers, rows, otherRows);
      var answer;
      answer, ids, others := AnswerOne(t, u, ops[i], ids, others, rows, otherRows);
      answers := answers + [answer];
      if ops[i].Insert? {
        if ops[i].first {
          rows := rows + [ops[i].row];
        } else {
          otherRows := otherRows + [ops[i].row];
        }
      }
    }
    AllAnswered(ops, answers, rows, otherRows);
    StillUsable(t, u, ids, others, rows, otherRows);
  }

  lemma StartServing(t: Table, u: Table)
    requires Sharing(t, u) && Usable(t) && Usable(u)
    ensures Serving(t, u, [], [], [], []) && Serving(u, t, [], [], [], [])
  {}

  lemma StillUsable(t: Table, u: Table, ids: seq<RowID>, others: seq<RowID>, rows: seq<Row>, otherRows: seq<Row>)
    requires Serving(t, u, ids, others, rows, otherRows)
    ensures Usable(t) && Usable(u)
  {}

  /** The answers given so far and those two plain lists would give to the other operations. */
  function Foreseen(ops: seq<Op>, i: nat, answers: seq<Answer>, a: seq<Row>, b: seq<Row>): seq<Answer>
    requires i <= |ops|
  {
    answers + Answers(ops[i..], a, b)
  }

  lemma NextAnswer(ops: seq<Op>, i: nat, answers: seq<Answer>, a: seq<Row>, b: seq<Row>)
    requires i < |ops|
    ensures var op := ops[i];
            Foreseen(ops, i, answers, a, b) ==
              Foreseen(ops, i + 1,
                       answers + [if op.Insert? then Inserted else Lookup(if op.first then a else b, op.n)],
                       if op.Insert? && op.first then a + [op.row] else a,
                       if op.Insert? && !op.first then b + [op.row] else b)
  {
    assert ops[i..][0] == ops[i] && ops[i..][1..] == ops[i + 1..];
  }

  lemma AllAnswered(ops: seq<Op>, answers: seq<Answer>, a: seq<Row>, b: seq<Row>)
    ensures Foreseen(ops, |ops|, answers, a, b) == answers
    ensures Foreseen(ops, 0, [], [], []) == Answers(ops, [], [])
  {
    assert ops[0..] == ops;
  }

  // --- Durability ---

  /** A file none of whose pages is cached reads as it is stored. */
  lemma UncachedReadsFile(pool: FramePool, file: File)
    requires pool.Valid() && file in pool.files && pool.cache.table == map[]
    ensures pool.Contents(file) == file.pages
  {}

  /**
    The pool is destroyed and the file opened again, under any descriptor and by a pool of any size: the new table has
    the rows of the old one.
   */
  method Restart(t: Table, fd: int, frameCount: nat) returns (after: Table)
    requires t.Valid() && frameCount > 0
    modifies t.pool.files
    ensures after.Valid() && after.Rows() == old(t.Rows()) && after.pool.HasFreeFrame()
    ensures after.schema == t.schema && after.file.fd == fd && after.currentPage == 0
    ensures fresh(after) && fresh(after.pool) && fresh(after.pool.cache) && fresh(after.pool.memory)
    ensures fresh(after.file) && after.pool.files == {after.file}
  {
    hide RowsIn, Described, Indexed, ContentOf, FramePool.Contents, FramePool.Content, AllFull, OwnersOk;
    ghost var contents := t.pool.Contents(t.file);
    t.pool.Flush();
    assert t.file.pages == contents;
    var file := new File.Open(fd, t.file.pages);
    var pool := new FramePool(frameCount);
    pool.Register(file);
    UncachedReadsFile(pool, file);
    assert pool.pins[0] == 0;
    after := new Table(pool, file, t.schema);
  }

  /** Rows stored before a restart are read back after it, under the ids that their inserts returned. */
  method StoreRestartRead(table: Table, rows: seq<Row>, fd: int, frameCount: nat) returns (answers: seq<Row>)
    requires table.Valid() && table.pool.HasFreeFrame()
    requires Slots(table.schema) > 0 && table.file.fd != NO_TAG.fd && fd != NO_TAG.fd && frameCount > 0
    requires forall row :: row in rows ==> Conforms(row, table.schema)
    modifies table, table.pool, table.pool.cache, table.pool.memory, table.pool.files
    ensures answers == rows
  {
    hide Conforms, Slots, RowsIn, AllFull, Described, Indexed, OwnersOk, Dense, Consecutive, Inside;
    var ids := StoreAll(table, rows, 0);
    var again := Restart(table, fd, frameCount);
    IdsStayInside(again, ids);
    answers := ReadAll(again, ids);
  }

  /** The ids of a table's rows name slots of its file. */
  lemma IdsStayInside(t: Table, ids: seq<RowID>)
    requires t.Valid() && forall id :: id in ids ==> id in t.Rows()
    ensures Inside(ids, |t.file.pages|, Slots(t.schema))
  {
    forall id | id in ids ensures id.page < |t.file.pages| && id.row < Slots(t.schema) {
      RowInFile(t, id);
    }
  }
}
