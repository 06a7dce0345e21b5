/** Rows as bytes: fixed-width values, one after the other, in the order of the schema. */
module Codec {
  newtype byte = x: int | 0 <= x < 256
  newtype uint64 = x: int | 0 <= x < 0x1_0000_0000_0000_0000

  datatype Type = Boolean | UInt64

  datatype Column = Column(name: string, kind: Type, length: nat)

  type Schema = seq<Column>

  datatype Value = NullAttribute | Bool(b: bool) | Number(n: uint64)

  type Row = seq<Value>

  // --- Widths ---

  /** `calculate_row_space`: the sum of the declared lengths. */
  function RowSpace(schema: Schema): nat {
    if schema == [] then 0 else RowSpace(schema[..|schema| - 1]) + schema[|schema| - 1].length
  }

  function Width(kind: Type): nat {
    match kind case Boolean => 1 case UInt64 => 8
  }

  /** The bytes that values of the schema's types really take. */
  function RowWidth(schema: Schema): nat {
    if schema == [] then 0 else Width(schema[0].kind) + RowWidth(schema[1..])
  }

  predicate HasType(v: Value, kind: Type) {
    match kind case Boolean => v.Bool? case UInt64 => v.Number?
  }

  predicate Conforms(row: Row, schema: Schema) {
    |row| == |schema| && forall i :: 0 <= i < |row| ==> HasType(row[i], schema[i].kind)
  }

  // --- Values ---

  function LittleEndian(n: nat, width: nat): (r: seq<byte>)
    ensures |r| == width
  {
    if width == 0 then [] else [(n % 256) as byte] + LittleEndian(n / 256, width - 1)
  }

  function FromLittleEndian(bytes: seq<byte>): nat {
    if bytes == [] then 0 else bytes[0] as nat + 256 * FromLittleEndian(bytes[1..])
  }

  function Power256(width: nat): nat {
    if width == 0 then 1 else 256 * Power256(width - 1)
  }

  lemma {:induction false} LittleEndianRoundTrip(n: nat, width: nat)
    requires n < Power256(width)
    ensures FromLittleEndian(LittleEndian(n, width)) == n
  {
    if width == 0 {
    } else {
      LittleEndianRoundTrip(n / 256, width - 1);
    }
  }

  lemma {:induction false} FromLittleEndianBound(bytes: seq<byte>)
    ensures FromLittleEndian(bytes) < Power256(|bytes|)
  {
    if bytes == [] {
    } else {
      FromLittleEndianBound(bytes[1..]);
    }
  }

  lemma Power256Of8()
    ensures Power256(8) == 0x1_0000_0000_0000_0000
  {}

  /** An empty `NullAttribute` object occupies one byte. */
  function EncodeValue(v: Value): seq<byte> {
    match v
    case NullAttribute => [0]
    case Bool(b) => [if b then 1 else 0]
    case Number(n) => LittleEndian(n as nat, 8)
  }

  function DecodeValue(kind: Type, bytes: seq<byte>): Value
    requires |bytes| == Width(kind)
  {
    match kind
    case Boolean => Bool(bytes[0] != 0)
    case UInt64 =>
      FromLittleEndianBound(bytes);
      Power256Of8();
      Number(FromLittleEndian(bytes) as uint64)
  }

  lemma ValueRoundTrip(v: Value, kind: Type)
    requires HasType(v, kind)
    ensures |EncodeValue(v)| == Width(kind) && DecodeValue(kind, EncodeValue(v)) == v
  {
    if v.Number? {
      Power256Of8();
      LittleEndianRoundTrip(v.n as nat, 8);
    }
  }

  // --- Rows ---

  function Encode(row: Row): seq<byte> {
    if row == [] then [] else EncodeValue(row[0]) + Encode(row[1..])
  }

  function Decode(schema: Schema, bytes: seq<byte>): (row: Row)
    requires |bytes| >= RowWidth(schema)
    ensures Conforms(row, schema)
  {
    if schema == [] then []
    else
      var w := Width(schema[0].kind);
      [DecodeValue(schema[0].kind, bytes[..w])] + Decode(schema[1..], bytes[w..])
  }

  /** A row comes back from its own bytes, whatever follows them, exactly when it conforms to the schema. */
  lemma {:induction false} RowRoundTrip(schema: Schema, row: Row, rest: seq<byte>)
    requires |Encode(row) + rest| >= RowWidth(schema)
    ensures Decode(schema, Encode(row) + rest) == row <==> Conforms(row, schema)
    ensures Conforms(row, schema) ==> |Encode(row)| == RowWidth(schema)
  {
    if Conforms(row, schema) {
      ConformingRoundTrip(schema, row, rest);
    }
  }

  lemma {:induction false} ConformingRoundTrip(schema: Schema, row: Row, rest: seq<byte>)
    requires Conforms(row, schema)
    ensures |Encode(row)| == RowWidth(schema)
    ensures Decode(schema, Encode(row) + rest) == row
  {
    if row == [] {
      assert Encode(row) + rest == rest;
    } else {
      hide Encode, Decode, RowWidth, EncodeValue, DecodeValue;
      var w, tail := Width(schema[0].kind), Encode(row[1..]);
      EncodeStep(row);
      ValueRoundTrip(row[0], schema[0].kind);
      ConformingRoundTrip(schema[1..], row[1..], rest);
      WidthStep(schema);
      Split(EncodeValue(row[0]), tail, rest);
      DecodeStep(schema, Encode(row) + rest);
    }
  }

  lemma Split(a: seq<byte>, b: seq<byte>, c: seq<byte>)
    ensures (a + b + c)[..|a|] == a && (a + b + c)[|a|..] == b + c
  {}

  lemma EncodeStep(row: Row)
    requires row != []
    ensures Encode(row) == EncodeValue(row[0]) + Encode(row[1..])
  {}

  lemma WidthStep(schema: Schema)
    requires schema != []
    ensures RowWidth(schema) == Width(schema[0].kind) + RowWidth(schema[1..])
  {}

  lemma DecodeStep(schema: Schema, bytes: seq<byte>)
    requires schema != [] && |bytes| >= RowWidth(schema)
    ensures |bytes| >= Width(schema[0].kind) + RowWidth(schema[1..])
    ensures var w := Width(schema[0].kind);
            Decode(schema, bytes) == [DecodeValue(schema[0].kind, bytes[..w])] + Decode(schema[1..], bytes[w..])
  {}

  /** Bytes behind a row do not change what is read. */
  lemma {:induction false} DecodeReadsPrefix(schema: Schema, a: seq<byte>, b: seq<byte>)
    requires |a| >= RowWidth(schema) && |b| >= RowWidth(schema)
    requires a[..RowWidth(schema)] == b[..RowWidth(schema)]
    ensures Decode(schema, a) == Decode(schema, b)
  {
    if schema == [] {
    } else {
      var n, w := RowWidth(schema), Width(schema[0].kind);
      assert a[..n][..w] == a[..w] && b[..n][..w] == b[..w];
      assert a[w..][..n - w] == a[..n][w..] && b[w..][..n - w] == b[..n][w..];
      DecodeReadsPrefix(schema[1..], a[w..], b[w..]);
    }
  }

  // --- The layout ---

  /** Lengths and widths add up over the columns. */
  lemma {:induction false} SpacesAdd(a: Schema, b: Schema)
    ensures RowSpace(a + b) == RowSpace(a) + RowSpace(b) && RowWidth(a + b) == RowWidth(a) + RowWidth(b)
    ensures |b| == 1 ==> RowSpace(b) == b[0].length && RowWidth(b) == Width(b[0].kind)
  {
    SpaceAdds(a, b);
    WidthAdds(a, b);
    if |b| == 1 {
      assert b[..0] == [] && b[1..] == [];
    }
  }

  lemma {:induction false} SpaceAdds(a: Schema, b: Schema)
    ensures RowSpace(a + b) == RowSpace(a) + RowSpace(b)
  {
    if b == [] {
      assert a + b == a;
    } else {
      var n := |b| - 1;
      assert (a + b)[..|a| + n] == a + b[..n];
      SpaceAdds(a, b[..n]);
    }
  }

  lemma {:induction false} WidthAdds(a: Schema, b: Schema)
    ensures RowWidth(a + b) == RowWidth(a) + RowWidth(b)
  {
    if a == [] {
      assert a + b == b;
    } else {
      assert (a + b)[1..] == a[1..] + b;
      WidthAdds(a[1..], b);
    }
  }

  /** The bytes of a row are those of its values, in the order of the values. */
  lemma {:induction false} EncodeAdds(a: Row, b: Row)
    ensures Encode(a + b) == Encode(a) + Encode(b)
  {
    hide EncodeValue;
    if a == [] {
      assert a + b == b;
    } else {
      assert (a + b)[0] == a[0] && (a + b)[1..] == a[1..] + b;
      EncodeAdds(a[1..], b);
      assert EncodeValue(a[0]) + (Encode(a[1..]) + Encode(b)) == EncodeValue(a[0]) + Encode(a[1..]) + Encode(b);
    }
  }

  /** A row of one value has exactly the bytes of that value. */
  lemma EncodeOne(v: Value)
    ensures Encode([v]) == EncodeValue(v)
  {
    assert [v][1..] == [];
  }

  /** Eight bytes are read with the least significant one first. */
  lemma EightBytes(b: seq<byte>)
    requires |b| == 8
    ensures FromLittleEndian(b)
         == b[0] as nat + 0x100 * b[1] as nat + 0x1_0000 * b[2] as nat + 0x100_0000 * b[3] as nat
          + 0x1_0000_0000 * b[4] as nat + 0x100_0000_0000 * b[5] as nat + 0x1_0000_0000_0000 * b[6] as nat
          + 0x100_0000_0000_0000 * b[7] as nat
  {
    FourBytes(b[..4], b[4..]);
    FourBytes(b[4..], []);
    assert b == b[..4] + b[4..] && b[4..] == b[4..] + [];
  }

  lemma FourBytes(b: seq<byte>, rest: seq<byte>)
    requires |b| == 4
    ensures FromLittleEndian(b + rest)
         == b[0] as nat + 0x100 * b[1] as nat + 0x1_0000 * b[2] as nat + 0x100_0000 * b[3] as nat
          + 0x1_0000_0000 * FromLittleEndian(rest)
  {
    hide FromLittleEndian;
    assert b + rest == [b[0]] + ([b[1]] + ([b[2]] + ([b[3]] + rest)));
    FirstByte(b[3], rest);
    FirstByte(b[2], [b[3]] + rest);
    FirstByte(b[1], [b[2]] + ([b[3]] + rest));
    FirstByte(b[0], [b[1]] + ([b[2]] + ([b[3]] + rest)));
  }

  lemma FirstByte(b: byte, rest: seq<byte>)
    ensures FromLittleEndian([b] + rest) == b as nat + 256 * FromLittleEndian(rest)
  {
    assert ([b] + rest)[1..] == rest;
  }

  /** What a value looks like in memory: one byte 0 or 1, or eight bytes, the least significant one first. */
  lemma ValueBytes(v: Value)
    ensures v.Bool? ==> EncodeValue(v) == [if v.b then 1 else 0]
    ensures v.Number? ==>
              var b := EncodeValue(v);
              && |b| == 8
              && v.n as nat == b[0] as nat + 0x100 * b[1] as nat + 0x1_0000 * b[2] as nat + 0x100_0000 * b[3] as nat
                             + 0x1_0000_0000 * b[4] as nat + 0x100_0000_0000 * b[5] as nat
                             + 0x1_0000_0000_0000 * b[6] as nat + 0x100_0000_0000_0000 * b[7] as nat
  {
    if v.Number? {
      Power256Of8();
      LittleEndianRoundTrip(v.n as nat, 8);
      EightBytes(EncodeValue(v));
    }
  }

  // --- The loops ---

  class Marshal {
    const schema: Schema
    const fixedRowSpace: nat

    constructor (schema: Schema)
      ensures this.schema == schema && fixedRowSpace == RowSpace(schema)
    {
      this.schema := schema;
      var space := CalculateRowSpace(schema);
      fixedRowSpace := space;
    }
  }

  method CalculateRowSpace(schema: Schema) returns (space: nat)
    ensures space == RowSpace(schema)
  {
    space := 0;
    for i := 0 to |schema|
      invariant space == RowSpace(schema[..i])
    {
      assert schema[..i + 1][..i] == schema[..i];
      space := space + schema[i].length;
    }
    assert schema[..|schema|] == schema;
  }

  /** What an array holds after `bytes` are written at `at`. */
  function Written(oldBytes: seq<byte>, at: nat, bytes: seq<byte>): (r: seq<byte>)
    requires at + |bytes| <= |oldBytes|
    ensures |r| == |oldBytes|
  {
    oldBytes[..at] + bytes + oldBytes[at + |bytes|..]
  }

  method WriteBytes(data: array<byte>, at: nat, bytes: seq<byte>)
    requires at + |bytes| <= data.Length
    modifies data
    ensures data[..] == Written(old(data[..]), at, bytes)
  {
    forall i | 0 <= i < |bytes| {
      data[at + i] := bytes[i];
    }
  }

  lemma {:induction false} EncodeSnoc(row: Row, v: Value)
    ensures Encode(row + [v]) == Encode(row) + EncodeValue(v)
  {
    if row == [] {
      assert row + [v] == [v] && [v][1..] == [];
    } else {
      assert (row + [v])[1..] == row[1..] + [v];
      EncodeSnoc(row[1..], v);
    }
  }

  lemma {:induction false} EncodePrefix(row: Row, i: nat)
    requires i <= |row|
    ensures |Encode(row[..i])| <= |Encode(row)|
    decreases |row| - i
  {
    if i < |row| {
      assert row[..i + 1] == row[..i] + [row[i]];
      EncodeSnoc(row[..i], row[i]);
      EncodePrefix(row, i + 1);
    } else {
      assert row[..i] == row;
    }
  }

  lemma NothingWritten(oldBytes: seq<byte>, at: nat)
    requires at <= |oldBytes|
    ensures Encode([]) == [] && Written(oldBytes, at, []) == oldBytes
  {}

  lemma WrittenTwice(oldBytes: seq<byte>, at: nat, a: seq<byte>, b: seq<byte>)
    requires at + |a| + |b| <= |oldBytes|
    ensures Written(Written(oldBytes, at, a), at + |a|, b) == Written(oldBytes, at, a + b)
  {}

  /** Writes the values one after the other, advancing the position by the width of each. */
  method SerializeRow(data: array<byte>, at: nat, row: Row)
    requires at + |Encode(row)| <= data.Length
    modifies data
    ensures data[..] == Written(old(data[..]), at, Encode(row))
  {
    hide Encode, EncodeValue, Written;
    var pos: nat := at;
    NothingWritten(data[..], at);
    for i := 0 to |row|
      invariant at <= pos == at + |Encode(row[..i])| <= data.Length
      invariant data[..] == Written(old(data[..]), at, Encode(row[..i]))
    {
      assert row[..i + 1] == row[..i] + [row[i]];
      EncodeSnoc(row[..i], row[i]);
      EncodePrefix(row, i + 1);
      WrittenTwice(old(data[..]), at, Encode(row[..i]), EncodeValue(row[i]));
      WriteBytes(data, pos, EncodeValue(row[i]));
      pos := pos + |EncodeValue(row[i])|;
    }
    assert row[..|row|] == row;
  }

  /** Reads one value per column, advancing the position by the width of each. */
  method DeserializeRow(schema: Schema, data: array<byte>, at: nat) returns (row: Row)
    requires at + RowWidth(schema) <= data.Length
    ensures row == Decode(schema, data[..][at..])
  {
    hide Decode, DecodeValue, RowWidth;
    row := [];
    var pos: nat := at;
    ghost var bytes := data[..];
    assert schema[0..] == schema;
    for i := 0 to |schema|
      invariant pos + RowWidth(schema[i..]) <= data.Length
      invariant Decode(schema, bytes[at..]) == row + Decode(schema[i..], bytes[pos..])
    {
      var w := Width(schema[i].kind);
      DecodeAdvance(schema, i, bytes, pos);
      assert data[pos..pos + w] == bytes[pos..pos + w];
      var v := DecodeValue(schema[i].kind, data[pos..pos + w]);
      Regroup(row, v, Decode(schema[i + 1..], bytes[pos + w..]));
      row := row + [v];
      pos := pos + w;
    }
    NothingToDecode(bytes[pos..]);
  }

  lemma DecodeAdvance(schema: Schema, i: nat, bytes: seq<byte>, pos: nat)
    requires i < |schema| && pos + RowWidth(schema[i..]) <= |bytes|
    ensures var w := Width(schema[i].kind);
            && pos + w + RowWidth(schema[i + 1..]) <= |bytes|
            && Decode(schema[i..], bytes[pos..])
               == [DecodeValue(schema[i].kind, bytes[pos..pos + w])] + Decode(schema[i + 1..], bytes[pos + w..])
  {
    hide Decode, DecodeValue, RowWidth;
    var w := Width(schema[i].kind);
    assert schema[i..][0] == schema[i] && schema[i..][1..] == schema[i + 1..];
    WidthStep(schema[i..]);
    DecodeStep(schema[i..], bytes[pos..]);
    assert bytes[pos..][..w] == bytes[pos..pos + w];
    assert bytes[pos..][w..] == bytes[pos + w..];
  }

  lemma Regroup(front: Row, v: Value, back: Row)
    ensures front + ([v] + back) == (front + [v]) + back
  {}

  lemma NothingToDecode(bytes: seq<byte>)
    ensures RowWidth([]) == 0 && Decode([], bytes) == []
  {}
}
