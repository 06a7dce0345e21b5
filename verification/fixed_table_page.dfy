/** Pages of fixed-size slots: one header byte, then the bytes of a row. */
module FixedPages {
  import opened Codec

  const PAGE_SIZE: nat := 4096

  type Page = p: seq<byte> | |p| == PAGE_SIZE witness seq(PAGE_SIZE, _ => 0)

  function Zeros(n: nat): (r: seq<byte>)
    ensures |r| == n && forall k :: 0 <= k < n ==> r[k] == 0
  {
    seq(n, _ => 0)
  }

  const ZERO_PAGE: Page := Zeros(PAGE_SIZE)

  function Stride(schema: Schema): (s: nat)
    ensures s > 0
  {
    1 + RowSpace(schema)
  }

  /** `max_row_index`. */
  function Slots(schema: Schema): nat {
    PAGE_SIZE / Stride(schema)
  }

  /** The declared lengths leave room for the values. */
  predicate LengthsSuffice(schema: Schema) {
    RowWidth(schema) <= RowSpace(schema)
  }

  function SlotStart(schema: Schema, i: nat): nat {
    i * Stride(schema)
  }

  lemma SlotInside(schema: Schema, i: nat)
    requires i < Slots(schema)
    ensures SlotStart(schema, i) + Stride(schema) <= PAGE_SIZE
  {
    var s := Stride(schema);
    assert (i + 1) * s <= Slots(schema) * s;
  }

  /** Exactly the slots below the maximal index lie in the page. */
  lemma SlotInsideIff(schema: Schema, i: nat)
    ensures i < Slots(schema) <==> SlotStart(schema, i) + Stride(schema) <= PAGE_SIZE
  {
    if i < Slots(schema) {
      SlotInside(schema, i);
    } else {
      var s := Stride(schema);
      assert PAGE_SIZE < (Slots(schema) + 1) * s <= (i + 1) * s;
    }
  }

  lemma SlotsDisjoint(schema: Schema, i: nat, j: nat)
    requires i < j
    ensures SlotStart(schema, i) + Stride(schema) <= SlotStart(schema, j)
  {
    var s := Stride(schema);
    assert (i + 1) * s <= j * s;
  }

  predicate Occupied(schema: Schema, page: Page, i: nat)
    requires i < Slots(schema)
  {
    SlotInside(schema, i);
    page[SlotStart(schema, i)] != 0
  }

  function SlotBytes(schema: Schema, page: Page, i: nat): (r: seq<byte>)
    requires i < Slots(schema)
    ensures |r| == Stride(schema)
  {
    SlotInside(schema, i);
    page[SlotStart(schema, i)..SlotStart(schema, i) + Stride(schema)]
  }

  function SlotRow(schema: Schema, page: Page, i: nat): Row
    requires i < Slots(schema) && LengthsSuffice(schema)
  {
    Decode(schema, SlotBytes(schema, page, i)[1..])
  }

  /** The rows a page holds, by slot. */
  ghost function RowsOf(schema: Schema, page: Page): map<nat, Row>
    requires LengthsSuffice(schema)
  {
    map i: nat | i < Slots(schema) && Occupied(schema, page, i) :: SlotRow(schema, page, i)
  }

  /** The page after a row is written at slot `i`: header first, then the row's bytes. */
  function PutSlot(schema: Schema, page: Page, i: nat, row: Row): Page
    requires SlotStart(schema, i) + 1 + |Encode(row)| <= PAGE_SIZE
  {
    Written(page, SlotStart(schema, i), [1] + Encode(row))
  }

  // --- Isolation ---

  lemma WrittenElsewhere(oldBytes: seq<byte>, at: nat, bytes: seq<byte>, lo: nat, hi: nat)
    requires at + |bytes| <= |oldBytes| && lo <= hi <= |oldBytes|
    requires hi <= at || at + |bytes| <= lo
    ensures Written(oldBytes, at, bytes)[lo..hi] == oldBytes[lo..hi]
  {}

  lemma WrittenAt(oldBytes: seq<byte>, at: nat, bytes: seq<byte>, k: nat)
    requires at + |bytes| <= |oldBytes| && k < |bytes|
    ensures Written(oldBytes, at, bytes)[at + k] == bytes[k]
  {}

  lemma WrittenHere(oldBytes: seq<byte>, at: nat, bytes: seq<byte>, hi: nat)
    requires at + |bytes| <= hi <= |oldBytes|
    ensures Written(oldBytes, at, bytes)[at..hi] == bytes + oldBytes[at + |bytes|..hi]
  {}

  /** Inserting at one slot leaves every byte of every other slot as it was. */
  lemma PutSlotIsolated(schema: Schema, page: Page, i: nat, j: nat, row: Row)
    requires i < Slots(schema) && j < Slots(schema) && i != j
    requires |Encode(row)| <= RowSpace(schema)
    ensures SlotStart(schema, i) + 1 + |Encode(row)| <= PAGE_SIZE
    ensures SlotBytes(schema, PutSlot(schema, page, i, row), j) == SlotBytes(schema, page, j)
  {
    SlotInside(schema, i);
    SlotInside(schema, j);
    if i < j { SlotsDisjoint(schema, i, j); } else { SlotsDisjoint(schema, j, i); }
    WrittenElsewhere(page, SlotStart(schema, i), [1] + Encode(row), SlotStart(schema, j), SlotStart(schema,
                     j) + Stride(schema));
  }

  lemma PutSlotReadsBack(schema: Schema, page: Page, i: nat, row: Row)
    requires i < Slots(schema) && LengthsSuffice(schema) && Conforms(row, schema)
    ensures |Encode(row)| == RowWidth(schema) && SlotStart(schema, i) + 1 + |Encode(row)| <= PAGE_SIZE
    ensures Occupied(schema, PutSlot(schema, page, i, row), i)
    ensures SlotRow(schema, PutSlot(schema, page, i, row), i) == row
  {
    hide Encode, Decode, Conforms, RowWidth, RowSpace, Written;
    SlotInside(schema, i);
    ConformingRoundTrip(schema, row, []);
    var at := SlotStart(schema, i);
    hide SlotStart;
    var bytes := [1] + Encode(row);
    var rest := page[at + |bytes|..at + Stride(schema)];
    WrittenHere(page, at, bytes, at + Stride(schema));
    assert SlotBytes(schema, PutSlot(schema, page, i, row), i)[1..] == Encode(row) + rest;
    assert SlotBytes(schema, PutSlot(schema, page, i, row), i)[0] == 1;
    ConformingRoundTrip(schema, row, rest);
  }

  lemma OccupiedIsHeader(schema: Schema, page: Page, i: nat)
    requires i < Slots(schema)
    ensures Occupied(schema, page, i) <==> SlotBytes(schema, page, i)[0] != 0
  {
    SlotInside(schema, i);
  }

  /** Inserting at a slot adds exactly that row to what the page holds. */
  lemma PutSlotAddsRow(schema: Schema, page: Page, i: nat, row: Row)
    requires i < Slots(schema) && LengthsSuffice(schema) && Conforms(row, schema)
    ensures SlotStart(schema, i) + 1 + |Encode(row)| <= PAGE_SIZE
    ensures RowsOf(schema, PutSlot(schema, page, i, row)) == RowsOf(schema, page)[i := row]
  {
    PutSlotReadsBack(schema, page, i, row);
    var after := PutSlot(schema, page, i, row);
    forall j: nat | j < Slots(schema) && j != i
      ensures Occupied(schema, after, j) == Occupied(schema, page, j)
      ensures SlotRow(schema, after, j) == SlotRow(schema, page, j)
    {
      PutSlotIsolated(schema, page, i, j, row);
      OccupiedIsHeader(schema, page, j);
      OccupiedIsHeader(schema, after, j);
    }
  }

  /** The page after an insert at slot `i`. */
  function Inserted(schema: Schema, page: Page, i: nat, row: Row): Page
    requires i < Slots(schema) && LengthsSuffice(schema) && Conforms(row, schema)
  {
    PutSlotReadsBack(schema, page, i, row);
    PutSlot(schema, page, i, row)
  }

  /**
    Where an insert writes: slot `i` starts at byte i * (1 + the sum of the declared lengths), with the header 1 and
    then the bytes of the row. No other byte changes.
   */
  lemma InsertedBytes(schema: Schema, page: Page, i: nat, row: Row)
    requires i < Slots(schema) && LengthsSuffice(schema) && Conforms(row, schema)
    ensures var at, n, after := i * (1 + RowSpace(schema)), |Encode(row)|, Inserted(schema, page, i, row);
            && at + 1 + n <= PAGE_SIZE
            && after[at] == 1 && after[at + 1..at + 1 + n] == Encode(row)
            && forall b: nat :: b < at || at + 1 + n <= b < PAGE_SIZE ==> after[b] == page[b]
  {
    hide Encode, Conforms, RowSpace, RowWidth;
    PutSlotReadsBack(schema, page, i, row);
    WrittenBytes(page, SlotStart(schema, i), Encode(row));
  }

  lemma WrittenBytes(page: seq<byte>, at: nat, bytes: seq<byte>)
    requires at + 1 + |bytes| <= |page|
    ensures var after := Written(page, at, [1] + bytes);
            && after[at] == 1 && after[at + 1..at + 1 + |bytes|] == bytes
            && forall b: nat :: b < at || at + 1 + |bytes| <= b < |page| ==> after[b] == page[b]
  {}

  /** Where a slot is read: its header and its row are at the same bytes. */
  lemma SlotAt(schema: Schema, page: Page, i: nat)
    requires i < Slots(schema) && LengthsSuffice(schema)
    ensures var at, space := i * (1 + RowSpace(schema)), RowSpace(schema);
            && at + 1 + space <= PAGE_SIZE
            && (Occupied(schema, page, i) <==> page[at] != 0)
            && SlotRow(schema, page, i) == Decode(schema, page[at + 1..at + 1 + space])
  {
    hide Decode, RowSpace, RowWidth;
    SlotInside(schema, i);
    var at := SlotStart(schema, i);
    assert page[at..at + Stride(schema)][1..] == page[at + 1..at + Stride(schema)];
  }

  lemma ZeroPageIsEmpty(schema: Schema)
    ensures forall i: nat :: i < Slots(schema) ==> !Occupied(schema, ZERO_PAGE, i)
  {
    forall i: nat | i < Slots(schema) ensures !Occupied(schema, ZERO_PAGE, i) {
      SlotInside(schema, i);
    }
  }

  // --- When declared lengths are too short ---

  /** A row of the schema's types none of whose bytes is 0. */
  function FullRow(schema: Schema): (row: Row)
    ensures Conforms(row, schema)
  {
    if schema == [] then []
    else [if schema[0].kind.Boolean? then Bool(true) else Number(0x0101_0101_0101_0101)] + FullRow(schema[1..])
  }

  lemma {:induction false} OnesOnly(n: nat, width: nat)
    requires n == Ones(width)
    ensures forall k :: 0 <= k < width ==> LittleEndian(n, width)[k] == 1
  {
    if width == 0 {
    } else {
      OnesOnly(n / 256, width - 1);
    }
  }

  /** The number whose `width` bytes are all 1. */
  function Ones(width: nat): nat {
    if width == 0 then 0 else 1 + 256 * Ones(width - 1)
  }

  lemma FullValueBytes(schema: Schema)
    requires schema != []
    ensures FullRow(schema) != [] && forall k :: 0 <= k < |EncodeValue(FullRow(schema)[0])| ==>
              EncodeValue(FullRow(schema)[0])[k] != 0
  {
    assert Ones(4) == 0x0101_0101;
    assert Ones(8) == 0x0101_0101_0101_0101;
    OnesOnly(0x0101_0101_0101_0101, 8);
  }

  lemma {:induction false} FullRowBytes(schema: Schema)
    ensures forall k :: 0 <= k < |Encode(FullRow(schema))| ==> Encode(FullRow(schema))[k] != 0
  {
    if schema == [] {
    } else {
      FullValueBytes(schema);
      FullRowBytes(schema[1..]);
      assert FullRow(schema)[1..] == FullRow(schema[1..]);
    }
  }

  /** Inserting the row at slot `i`, whose successor is free, leaves the successor free. */
  ghost predicate SparesNext(schema: Schema, page: Page, i: nat, row: Row)
    requires i + 1 < Slots(schema) && SlotStart(schema, i) + 1 + RowWidth(schema) <= PAGE_SIZE
  {
    Conforms(row, schema) ==>
      |Encode(row)| == RowWidth(schema) && !Occupied(schema, PutSlot(schema, page, i, row), i + 1)
  }

  /**
    On any page, the one just allocated included, inserting at a slot never makes the free slot behind it look taken
    exactly when the declared lengths leave room for the values.
   */
  lemma IsolationIff(schema: Schema, page: Page, i: nat)
    requires i + 1 < Slots(schema) && SlotStart(schema, i) + 1 + RowWidth(schema) <= PAGE_SIZE
    requires !Occupied(schema, page, i + 1)
    ensures LengthsSuffice(schema) <==> forall row :: SparesNext(schema, page, i, row)
  {
    if LengthsSuffice(schema) {
      forall row ensures SparesNext(schema, page, i, row) {
        if Conforms(row, schema) {
          ConformingRoundTrip(schema, row, []);
          PutSlotIsolated(schema, page, i, i + 1, row);
          OccupiedIsHeader(schema, page, i + 1);
          OccupiedIsHeader(schema, PutSlot(schema, page, i, row), i + 1);
        }
      }
    } else {
      ShortLengthsDamage(schema, page, i);
    }
  }

  /** With short lengths a full row reaches into the next slot and marks it as taken. */
  lemma ShortLengthsDamage(schema: Schema, page: Page, i: nat)
    requires i + 1 < Slots(schema) && SlotStart(schema, i) + 1 + RowWidth(schema) <= PAGE_SIZE
    requires !LengthsSuffice(schema)
    ensures !SparesNext(schema, page, i, FullRow(schema))
  {
    hide Encode, Conforms, RowWidth, RowSpace, SlotStart, Written;
    var row := FullRow(schema);
    ConformingRoundTrip(schema, row, []);
    FullRowBytes(schema);
    SlotInside(schema, i + 1);
    NextSlotStart(schema, i);
    WrittenAt(page, SlotStart(schema, i), [1] + Encode(row), Stride(schema));
    assert ([1] + Encode(row))[Stride(schema)] == Encode(row)[Stride(schema) - 1];
  }

  lemma NextSlotStart(schema: Schema, i: nat)
    ensures SlotStart(schema, i + 1) == SlotStart(schema, i) + Stride(schema)
  {}

  /** A row of the schema's types all of whose bytes are 0. */
  function ZeroRow(schema: Schema): (row: Row)
    ensures Conforms(row, schema)
  {
    if schema == [] then []
    else [if schema[0].kind.Boolean? then Bool(false) else Number(0)] + ZeroRow(schema[1..])
  }

  lemma {:induction false} ZerosOnly(width: nat)
    ensures forall k :: 0 <= k < width ==> LittleEndian(0, width)[k] == 0
  {
    if width == 0 {
    } else {
      ZerosOnly(width - 1);
    }
  }

  lemma {:induction false} ZeroRowBytes(schema: Schema)
    ensures forall k :: 0 <= k < |Encode(ZeroRow(schema))| ==> Encode(ZeroRow(schema))[k] == 0
  {
    if schema == [] {
    } else {
      ZerosOnly(8);
      ZeroRowBytes(schema[1..]);
      assert ZeroRow(schema)[1..] == ZeroRow(schema[1..]);
    }
  }

  lemma {:induction false} ZeroNumberBytes(bytes: seq<byte>)
    requires FromLittleEndian(bytes) == 0
    ensures forall k :: 0 <= k < |bytes| ==> bytes[k] == 0
  {
    if bytes == [] {
    } else {
      ZeroNumberBytes(bytes[1..]);
    }
  }

  lemma ZeroValueBytes(kind: Type, bytes: seq<byte>)
    requires |bytes| == Width(kind)
    requires DecodeValue(kind, bytes) == if kind.Boolean? then Bool(false) else Number(0)
    ensures forall k :: 0 <= k < |bytes| ==> bytes[k] == 0
  {
    if kind.UInt64? {
      ZeroNumberBytes(bytes);
    }
  }

  /** Only zero bytes are read as the row of zeros. */
  lemma {:induction false} ReadAsZeros(schema: Schema, bytes: seq<byte>)
    requires |bytes| >= RowWidth(schema) && Decode(schema, bytes) == ZeroRow(schema)
    ensures forall k :: 0 <= k < RowWidth(schema) ==> bytes[k] == 0
  {
    if schema == [] {
    } else {
      var w := Width(schema[0].kind);
      ZeroValueBytes(schema[0].kind, bytes[..w]);
      assert Decode(schema, bytes)[1..] == Decode(schema[1..], bytes[w..]);
      assert ZeroRow(schema)[1..] == ZeroRow(schema[1..]);
      ReadAsZeros(schema[1..], bytes[w..]);
      forall k | 0 <= k < RowWidth(schema) ensures bytes[k] == 0 {
        assert bytes[k] == if k < w then bytes[..w][k] else bytes[w..][k - w];
      }
    }
  }

  /** Two inserts, the second one into the slot behind the first one's if it is still free, leave the first readable. */
  ghost predicate StaysReadable(schema: Schema, page: Page, i: nat, first: Row, second: Row)
    requires i + 1 < Slots(schema) && SlotStart(schema, i + 1) + 1 + RowWidth(schema) <= PAGE_SIZE
  {
    NextSlotStart(schema, i);
    Conforms(first, schema) && Conforms(second, schema) ==>
      && |Encode(first)| == |Encode(second)| == RowWidth(schema)
      && var once := PutSlot(schema, page, i, first);
         !Occupied(schema, once, i + 1) ==>
           Decode(schema, PutSlot(schema, once, i + 1, second)[SlotStart(schema, i) + 1..]) == first
  }

  /**
    On any page, the one just allocated included, what is inserted into the free slot behind a row leaves that row
    readable, for all rows, exactly when the declared lengths leave room for the values.
   */
  lemma RowsReadableIff(schema: Schema, page: Page, i: nat)
    requires i + 1 < Slots(schema) && SlotStart(schema, i + 1) + 1 + RowWidth(schema) <= PAGE_SIZE
    ensures LengthsSuffice(schema) <==> forall first, second :: StaysReadable(schema, page, i, first, second)
  {
    if LengthsSuffice(schema) {
      forall first, second ensures StaysReadable(schema, page, i, first, second) {
        if Conforms(first, schema) && Conforms(second, schema) {
          EnoughLengthsKeep(schema, page, i, first, second);
        }
      }
    } else {
      ShortLengthsLose(schema, page, i);
    }
  }

  lemma BehindHeader(page: seq<byte>, at: nat, stride: nat, n: nat)
    requires 1 + n <= stride && at + stride <= |page|
    ensures page[at + 1..][..n] == page[at..at + stride][1..][..n]
  {}

  lemma EnoughLengthsKeep(schema: Schema, page: Page, i: nat, first: Row, second: Row)
    requires i + 1 < Slots(schema) && SlotStart(schema, i + 1) + 1 + RowWidth(schema) <= PAGE_SIZE
    requires LengthsSuffice(schema) && Conforms(first, schema) && Conforms(second, schema)
    ensures StaysReadable(schema, page, i, first, second)
  {
    hide Encode, Decode, Conforms, Written, PutSlot, RowSpace, RowWidth, Occupied;
    PutSlotReadsBack(schema, page, i, first);
    ConformingRoundTrip(schema, second, []);
    var once := PutSlot(schema, page, i, first);
    PutSlotReadsBack(schema, once, i + 1, second);
    PutSlotIsolated(schema, once, i + 1, i, second);
    var twice := PutSlot(schema, once, i + 1, second);
    SlotInside(schema, i);
    NextSlotStart(schema, i);
    var at, n := SlotStart(schema, i), RowWidth(schema);
    hide SlotStart;
    BehindHeader(twice, at, Stride(schema), n);
    DecodeReadsPrefix(schema, twice[at + 1..], SlotBytes(schema, twice, i)[1..]);
  }

  /** With short lengths the row of zeros leaves the next slot free, and the insert there writes into it. */
  lemma ShortLengthsLose(schema: Schema, page: Page, i: nat)
    requires i + 1 < Slots(schema) && SlotStart(schema, i + 1) + 1 + RowWidth(schema) <= PAGE_SIZE
    requires !LengthsSuffice(schema)
    ensures !StaysReadable(schema, page, i, ZeroRow(schema), ZeroRow(schema))
  {
    hide Encode, Decode, Conforms, RowWidth, RowSpace, SlotStart, Written;
    var row, at, next := ZeroRow(schema), SlotStart(schema, i), SlotStart(schema, i + 1);
    ConformingRoundTrip(schema, row, []);
    ZeroRowBytes(schema);
    SlotInside(schema, i + 1);
    NextSlotStart(schema, i);
    var bytes := [1] + Encode(row);
    var once := PutSlot(schema, page, i, row);
    WrittenAt(page, at, bytes, Stride(schema));
    assert bytes[Stride(schema)] == Encode(row)[Stride(schema) - 1] == 0;
    WrittenAt(once, next, bytes, 0);
    var twice := PutSlot(schema, once, i + 1, row);
    assert twice[at + 1..][Stride(schema) - 1] == twice[next] == 1;
    if Decode(schema, twice[at + 1..]) == row {
      ReadAsZeros(schema, twice[at + 1..]);
      assert false;
    }
  }

  /** The space per row is 0, which the program refuses, exactly if every declared length is. */
  lemma {:induction false} NoSpaceIff(schema: Schema)
    ensures RowSpace(schema) == 0 <==> forall i :: 0 <= i < |schema| ==> schema[i].length == 0
    ensures LengthsSuffice(schema) ==> (RowSpace(schema) == 0 <==> schema == [])
  {
    if schema == [] {
    } else {
      var front := schema[..|schema| - 1];
      NoSpaceIff(front);
      assert forall i :: 0 <= i < |front| ==> schema[i] == front[i];
    }
  }

  // --- The example program ---

  const EXAMPLE_SCHEMA: Schema := [Column("id", UInt64, 4), Column("status", Boolean, 1), Column("number", UInt64, 4)]

  lemma ExampleSpaces()
    ensures RowSpace(EXAMPLE_SCHEMA) == 9 && RowWidth(EXAMPLE_SCHEMA) == 17 && Slots(EXAMPLE_SCHEMA) == 409
  {
    assert RowSpace([]) == 0 && RowWidth([]) == 0;
    hide RowSpace, RowWidth;
    var a, b, c := EXAMPLE_SCHEMA[0], EXAMPLE_SCHEMA[1], EXAMPLE_SCHEMA[2];
    assert EXAMPLE_SCHEMA == [] + [a] + [b] + [c];
    SpaceSnoc([], a);
    SpaceSnoc([] + [a], b);
    SpaceSnoc([] + [a] + [b], c);
    assert EXAMPLE_SCHEMA[1..] == [b, c] && [b, c][1..] == [c] && [c][1..] == [];
    WidthStep([c]);
    WidthStep([b, c]);
    WidthStep(EXAMPLE_SCHEMA);
  }

  lemma SpaceSnoc(schema: Schema, column: Column)
    ensures RowSpace(schema + [column]) == RowSpace(schema) + column.length
  {
    assert (schema + [column])[..|schema|] == schema;
  }

  /**
    The schema of the example program declares length 4 for 8-byte columns. On a page just allocated the first insert
    of a row of the schema's types can take the second slot as well.
   */
  lemma ExampleSchemaOverlaps()
    ensures var row := [Number(0x0101_0101_0101_0101), Bool(true), Number(0x0101_0101_0101_0101)];
            && Slots(EXAMPLE_SCHEMA) == 409 && Conforms(row, EXAMPLE_SCHEMA)
            && |Encode(row)| == 17 && SlotStart(EXAMPLE_SCHEMA, 0) + 1 + |Encode(row)| <= PAGE_SIZE
            && Occupied(EXAMPLE_SCHEMA, PutSlot(EXAMPLE_SCHEMA, ZERO_PAGE, 0, row), 1)
  {
    ExampleSpaces();
    var schema, row := EXAMPLE_SCHEMA, [Number(0x0101_0101_0101_0101), Bool(true), Number(0x0101_0101_0101_0101)];
    assert FullRow(schema[1..][1..]) == [row[2]] && FullRow(schema[1..]) == [row[1], row[2]] && FullRow(schema) == row;
    ConformingRoundTrip(schema, row, []);
    ShortLengthsDamage(schema, ZERO_PAGE, 0);
  }

  /** The rows of the example have a number in the boolean column: none of them comes back from its bytes. */
  lemma ExampleRowsDoNotReturn(i: uint64, status: uint64, number: uint64, rest: seq<byte>)
    ensures var row := [Number(i), Number(status), Number(number)];
            |Encode(row) + rest| >= RowWidth(EXAMPLE_SCHEMA) && Decode(EXAMPLE_SCHEMA, Encode(row) + rest) != row
  {
    ExampleSpaces();
    var row := [Number(i), Number(status), Number(number)];
    assert row[1..] == [row[1], row[2]] && row[1..][1..] == [row[2]] && [row[2]][1..] == [];
    assert |Encode([row[2]])| == 8 && |Encode(row[1..])| == 16 && |Encode(row)| == 24;
    assert !HasType(row[1], EXAMPLE_SCHEMA[1].kind);
    RowRoundTrip(EXAMPLE_SCHEMA, row, rest);
  }

  // --- The page over a frame's memory ---

  class FixedTablePage {
    const data: array<byte>
    const base: nat
    const schema: Schema

    ghost predicate Valid() {
      base + PAGE_SIZE <= data.Length && LengthsSuffice(schema)
    }

    function Bytes(): Page
      requires Valid()
      reads data
    {
      data[base..base + PAGE_SIZE]
    }

    constructor (data: array<byte>, base: nat, schema: Schema)
      requires base + PAGE_SIZE <= data.Length && LengthsSuffice(schema)
      ensures Valid() && this.data == data && this.base == base && this.schema == schema
    {
      this.data, this.base, this.schema := data, base, schema;
    }

    method FindFreeSlot() returns (ok: bool, index: nat)
      requires Valid()
      ensures ok ==> index < Slots(schema) && !Occupied(schema, Bytes(), index)
      ensures forall j: nat :: j < (if ok then index else Slots(schema)) ==> Occupied(schema, Bytes(), j)
      ensures !ok ==> index == 0
    {
      index := 0;
      while index < Slots(schema)
        invariant index <= Slots(schema)
        invariant forall j: nat :: j < index ==> Occupied(schema, Bytes(), j)
      {
        SlotInside(schema, index);
        assert data[base + SlotStart(schema, index)] == Bytes()[SlotStart(schema, index)];
        if data[base + SlotStart(schema, index)] == 0 {
          return true, index;
        }
        index := index + 1;
      }
      return false, 0;
    }

    /** Writes the row at the first free slot, if there is one, and changes no other byte. */
    method InsertRow(row: Row) returns (ok: bool, index: nat)
      requires Valid() && Conforms(row, schema)
      modifies data
      ensures data[..base] == old(data[..base]) && data[base + PAGE_SIZE..] == old(data[base + PAGE_SIZE..])
      ensures index < Slots(schema) || (!ok && index == 0)
      ensures forall j: nat :: j < (if ok then index else Slots(schema)) ==> Occupied(schema, old(Bytes()), j)
      ensures if ok then
                && index !in RowsOf(schema, old(Bytes()))
                && RowsOf(schema, Bytes()) == RowsOf(schema, old(Bytes()))[index := row]
                && Bytes() == Inserted(schema, old(Bytes()), index, row)
              else
                Bytes() == old(Bytes())
    {
      hide Conforms, Encode, SlotRow, Written;
      ok, index := FindFreeSlot();
      if !ok {
        return;
      }
      ghost var before, page := data[..], Bytes();
      PutSlotAddsRow(schema, page, index, row);
      assert |Encode(row)| == RowWidth(schema) && SlotStart(schema, index) + 1 + |Encode(row)| <= PAGE_SIZE by {
        PutSlotReadsBack(schema, page, index, row);
      }
      hide RowsOf;
      assert before[base..base + PAGE_SIZE] == page;
      WrittenInPage(before, base, SlotStart(schema, index), Encode(row));
      var at := base + SlotStart(schema, index);
      data[at] := 1;
      assert data[..] == before[at := 1];
      SerializeRow(data, at + 1, row);
      assert Bytes() == data[..][base..base + PAGE_SIZE] && data[..base] == data[..][..base];
    }

    method GetRow(index: nat) returns (row: Row)
      requires Valid() && index < Slots(schema)
      ensures row == if index in RowsOf(schema, Bytes()) then RowsOf(schema, Bytes())[index] else []
    {
      SlotInside(schema, index);
      var at := base + SlotStart(schema, index);
      assert data[at] == Bytes()[SlotStart(schema, index)];
      if data[at] != 0 {
        row := DeserializeRow(schema, data, at + 1);
        SlotReads(schema, data[..], base, index);
      } else {
        row := [];
      }
    }
  }

  /** A write within one page of a larger memory is a write to that page. */
  lemma WrittenInPage(memory: seq<byte>, base: nat, start: nat, bytes: seq<byte>)
    requires base + PAGE_SIZE <= |memory| && start + 1 + |bytes| <= PAGE_SIZE
    ensures var after := Written(memory[base + start := 1], base + start + 1, bytes);
            && after[..base] == memory[..base]
            && after[base + PAGE_SIZE..] == memory[base + PAGE_SIZE..]
            && after[base..base + PAGE_SIZE] == Written(memory[base..base + PAGE_SIZE], start, [1] + bytes)
  {
    var after := Written(memory[base + start := 1], base + start + 1, bytes);
    var page := Written(memory[base..base + PAGE_SIZE], start, [1] + bytes);
    forall k | 0 <= k < PAGE_SIZE ensures after[base + k] == page[k] {}
  }

  lemma SlotReads(schema: Schema, memory: seq<byte>, base: nat, i: nat)
    requires base + PAGE_SIZE <= |memory| && i < Slots(schema) && LengthsSuffice(schema)
    ensures base + SlotStart(schema, i) + 1 + RowWidth(schema) <= |memory|
    ensures Decode(schema, memory[base + SlotStart(schema, i) + 1..])
         == SlotRow(schema, memory[base..base + PAGE_SIZE], i)
  {
    hide Decode, RowWidth;
    SlotInside(schema, i);
    var start, n := SlotStart(schema, i), RowWidth(schema);
    var slot := SlotBytes(schema, memory[base..base + PAGE_SIZE], i)[1..];
    Slices(memory, base, start, Stride(schema), n);
    DecodeReadsPrefix(schema, memory[base + start + 1..], slot);
  }

  lemma Slices(memory: seq<byte>, base: nat, start: nat, stride: nat, n: nat)
    requires base + PAGE_SIZE <= |memory| && start + stride <= PAGE_SIZE && 1 + n <= stride
    ensures memory[base + start + 1..][..n] == memory[base..base + PAGE_SIZE][start..start + stride][1..][..n]
  {
    var at := base + start + 1;
    var slot := memory[base..base + PAGE_SIZE][start..start + stride];
    forall k | 0 <= k < n ensures slot[1..][..n][k] == memory[at + k] {
      assert slot[1 + k] == memory[base..base + PAGE_SIZE][start + 1 + k];
    }
  }
}
