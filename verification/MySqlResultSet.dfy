/**
 * What a server sends for a result set (section "Text Resultset" of the MySQL protocol), and the theorem that the
 * adapter finds exactly where it ends.
 */
module MySqlResultSet {
  import opened Bytes
  import opened MySqlWire
  import opened MySqlReply

  datatype Field = Null | Text(bytes: seq<Byte>)

  ghost predicate Sized(f: Field) {
    f.Text? ==> |f.bytes| < 0x1_0000_0000_0000_0000
  }

  ghost function FieldBytes(f: Field): seq<Byte>
    requires Sized(f)
  {
    match f
    case Null => [0xfb]
    case Text(bytes) => ToLenEnc(|bytes|) + bytes
  }

  ghost predicate AllSized(fields: seq<Field>) {
    forall i :: 0 <= i < |fields| ==> Sized(fields[i])
  }

  ghost function TextRow(fields: seq<Field>): seq<Byte>
    requires AllSized(fields)
  {
    if fields == [] then [] else FieldBytes(fields[0]) + TextRow(fields[1..])
  }

  /** A column definition starts with its catalog name; the adapter looks no further. */
  datatype Column = Column(catalog: seq<Byte>, rest: seq<Byte>)

  ghost function ColumnBytes(c: Column): seq<Byte>
    requires Sized(Text(c.catalog))
  {
    FieldBytes(Text(c.catalog)) + c.rest
  }

  datatype Row = TextFields(fields: seq<Field>) | Binary(payload: seq<Byte>)

  ghost predicate ValidRow(r: Row) {
    r.TextFields? ==> r.fields != [] && AllSized(r.fields)
  }

  ghost function RowBytes(r: Row): seq<Byte>
    requires ValidRow(r)
  {
    match r
    case TextFields(fields) => TextRow(fields)
    case Binary(payload) => [0] + payload
  }

  /** How a result set ends: a terminator carrying the server status, or an error packet. */
  datatype Ending =
    | Terminator(status: nat, warnings: nat, affected: nat, insertId: nat, info: seq<Byte>)
    | Error(payload: seq<Byte>)

  ghost predicate ValidEnding(e: Ending) {
    e.Terminator? ==>
      && e.status < 0x1_0000 && !Bit(e.status, 3)
      && e.affected < 0x1_0000_0000_0000_0000 && e.insertId < 0x1_0000_0000_0000_0000
  }

  ghost function EndingBytes(e: Ending, modern: bool): seq<Byte>
    requires ValidEnding(e)
  {
    match e
    case Error(payload) => [0xff] + payload
    case Terminator(status, warnings, affected, insertId, info) =>
      if modern then OkBody(0xfe, affected, insertId, status, warnings, info) else EofBody(status, warnings)
  }

  ghost function EndingStatus(e: Ending): Option<nat> {
    if e.Terminator? then Some(e.status) else None
  }

  datatype ResultSet = ResultSet(columns: seq<Column>, middleStatus: nat, rows: seq<Row>, ending: Ending)

  ghost predicate WellFormed(r: ResultSet) {
    && 1 <= |r.columns| <= 4096
    && r.middleStatus < 0x1_0000
    && (forall i :: 0 <= i < |r.columns| ==> Sized(Text(r.columns[i].catalog)))
    && (forall i :: 0 <= i < |r.rows| ==> ValidRow(r.rows[i]))
    && ValidEnding(r.ending)
  }

  /**
   * The packet bodies of a response in order; `middle` is the EOF packet the legacy protocol puts after the column
   * definitions.
   */
  ghost function Assemble(count: seq<Byte>, columns: seq<seq<Byte>>, middle: seq<seq<Byte>>, rows: seq<seq<Byte>>,
                          ending: seq<Byte>)
    : seq<seq<Byte>>
  {
    [count] + columns + middle + rows + [ending]
  }

  ghost function Bodies(r: ResultSet, modern: bool): (b: seq<seq<Byte>>)
    requires WellFormed(r)
  {
    Assemble(ToLenEnc(|r.columns|), ColumnBodies(r), MiddleBodies(r, modern), RowBodies(r),
             EndingBytes(r.ending, modern))
  }

  ghost function MiddleBodies(r: ResultSet, modern: bool): (b: seq<seq<Byte>>) {
    if modern then [] else [EofBody(r.middleStatus, 0)]
  }

  /** A response: packets numbered from 1, modulo 256. */
  ghost predicate Carries(input: seq<Packet>, bodies: seq<seq<Byte>>) {
    && |bodies| <= |input|
    && forall i :: 0 <= i < |bodies| ==> input[i] == Packet((i + 1) % 256, bodies[i])
  }

  lemma SmallLengthStart(v: nat)
    requires v < 0x100_0000
    ensures ToLenEnc(v)[0] < 0xfe
  {
  }

  /** Within the packet limit no text or binary row can be mistaken for a terminator or an error. */
  lemma RowStart(r: Row)
    requires ValidRow(r) && |RowBytes(r)| <= MAX_PACKET
    ensures RowBytes(r) != [] && RowBytes(r)[0] < 0xfe
  {
    if r.TextFields? && r.fields[0].Text? {
      SmallLengthStart(|r.fields[0].bytes|);
    }
  }

  lemma ColumnStart(c: Column)
    requires Sized(Text(c.catalog)) && |ColumnBytes(c)| <= MAX_PACKET
    ensures ColumnBytes(c) != [] && ColumnBytes(c)[0] < 0xfe
  {
    SmallLengthStart(|c.catalog|);
  }

  /** The first `n` packets from `at` on are readable and do not start like an error packet. */
  ghost predicate Plain(input: seq<Packet>, at: nat, n: nat, limit: int) {
    && at + n <= |input|
    && forall i :: at <= i < at + n ==> Readable(input, i) && input[i].body != [] && input[i].body[0] < limit
  }

  lemma {:induction false} ScanColumnsStep(input: seq<Packet>, at: nat, left: nat, eof: bool)
    requires AllInBound(input) && Plain(input, at, left, 0xff)
    ensures ScanColumns(input, at, left, eof) == ScanColumns(input, at + left, 0, eof)
    decreases left
  {
    if left == 0 {
    } else {
      assert Readable(input, at);
      ScanColumnsStep(input, at + 1, left - 1, eof);
    }
  }

  lemma {:induction false} ScanRowsStep(input: seq<Packet>, at: nat, n: nat, modern: bool)
    requires AllInBound(input) && Plain(input, at, n, 0xfe)
    ensures ScanRows(input, at, modern) == ScanRows(input, at + n, modern)
    decreases n
  {
    if n == 0 {
    } else {
      assert Readable(input, at);
      ScanRowsStep(input, at + 1, n - 1, modern);
    }
  }

  /** Where the packets of an assembled response sit. */
  lemma Layout(input: seq<Packet>, count: seq<Byte>, columns: seq<seq<Byte>>,
               middle: seq<seq<Byte>>, rows: seq<seq<Byte>>, ending: seq<Byte>)
    requires Carries(input, Assemble(count, columns, middle, rows, ending))
    ensures var c, m, r := 1 + |columns|, 1 + |columns| + |middle|, 1 + |columns| + |middle| + |rows|;
            && r < |input| && Readable(input, 0) && input[0].body == count
            && (forall i :: 1 <= i < c ==> Readable(input, i) && input[i].body == columns[i - 1])
            && (forall i :: c <= i < m ==> Readable(input, i) && input[i].body == middle[i - c])
            && (forall i :: m <= i < r ==> Readable(input, i) && input[i].body == rows[i - m])
            && Readable(input, r) && input[r].body == ending
  {
    var b := Assemble(count, columns, middle, rows, ending);
    assert |b| == 1 + |columns| + |middle| + |rows| + 1;
  }

  /** The boundary for packet bodies of which only the first bytes matter. */
  lemma ScanAssembled(input: seq<Packet>, modern: bool, count: seq<Byte>, columns: seq<seq<Byte>>,
                      middle: seq<seq<Byte>>, rows: seq<seq<Byte>>, ending: seq<Byte>)
    requires AllInBound(input) && Carries(input, Assemble(count, columns, middle, rows, ending))
    requires 1 <= |columns| <= 4096
    requires LenEnc(count) == Some(LenEncInt(|columns|, |count|))
    requires forall i :: 0 <= i < |columns| ==> columns[i] != [] && columns[i][0] < 0xff
    requires if modern then middle == [] else |middle| == 1 && EofStatus(middle[0], false).Some?
    requires forall i :: 0 <= i < |rows| ==> rows[i] != [] && rows[i][0] < 0xfe
    ensures var r := 1 + |columns| + |middle| + |rows|;
            r < |input| && input[r].body == ending && Readable(input, r)
                && ScanResult(input, modern) == ScanRows(input, r, modern)
  {
    Layout(input, count, columns, middle, rows, ending);
    var c, m := 1 + |columns|, 1 + |columns| + |middle|;
    assert Plain(input, 1, |columns|, 0xff);
    ScanColumnsStep(input, 1, |columns|, !modern);
    assert ScanColumns(input, c, 0, !modern) == Scan(m, true) by {
      if !modern {
        assert input[c].body == middle[0];
      }
    }
    assert Plain(input, m, |rows|, 0xfe);
    ScanRowsStep(input, m, |rows|, modern);
  }

  lemma ScanEnding(input: seq<Packet>, at: nat, e: Ending, modern: bool)
    requires AllInBound(input) && ValidEnding(e)
    requires Readable(input, at) && input[at].body == EndingBytes(e, modern)
    ensures ScanRows(input, at, modern) == RowScan(at + 1, true, EndingStatus(e))
  {
    if e.Terminator? {
      if modern {
        OkStatusInverse(0xfe, e.affected, e.insertId, e.status, e.warnings, e.info);
      } else {
        EofStatusInverse(e.status, e.warnings);
      }
    }
  }

  lemma ScanCount(n: nat)
    requires n <= 4096
    ensures LenEnc(ToLenEnc(n)) == Some(LenEncInt(n, |ToLenEnc(n)|))
  {
    LenEncInverse(n, []);
    assert ToLenEnc(n) + [] == ToLenEnc(n);
  }

  ghost function ColumnBodies(r: ResultSet): (b: seq<seq<Byte>>)
    requires WellFormed(r)
    ensures |b| == |r.columns|
  {
    seq(|r.columns|, i requires 0 <= i < |r.columns| => ColumnBytes(r.columns[i]))
  }

  ghost function RowBodies(r: ResultSet): (b: seq<seq<Byte>>)
    requires WellFormed(r)
    ensures |b| == |r.rows|
  {
    seq(|r.rows|, i requires 0 <= i < |r.rows| => RowBytes(r.rows[i]))
  }

  lemma ColumnsStart(r: ResultSet, bodies: seq<seq<Byte>>)
    requires WellFormed(r) && bodies == ColumnBodies(r)
    requires forall i :: 0 <= i < |bodies| ==> |bodies[i]| <= MAX_PACKET
    ensures forall i :: 0 <= i < |bodies| ==> bodies[i] != [] && bodies[i][0] < 0xff
  {
    forall i | 0 <= i < |bodies|
      ensures bodies[i] != [] && bodies[i][0] < 0xff
    {
      ColumnStart(r.columns[i]);
    }
  }

  lemma RowsStart(r: ResultSet, bodies: seq<seq<Byte>>)
    requires WellFormed(r) && bodies == RowBodies(r)
    requires forall i :: 0 <= i < |bodies| ==> |bodies[i]| <= MAX_PACKET
    ensures forall i :: 0 <= i < |bodies| ==> bodies[i] != [] && bodies[i][0] < 0xfe
  {
    forall i | 0 <= i < |bodies|
      ensures bodies[i] != [] && bodies[i][0] < 0xfe
    {
      RowStart(r.rows[i]);
    }
  }

  /** Packets within the limit have bodies within the limit. */
  lemma PartsFit(input: seq<Packet>, count: seq<Byte>, columns: seq<seq<Byte>>,
                 middle: seq<seq<Byte>>, rows: seq<seq<Byte>>, ending: seq<Byte>)
    requires AllInBound(input) && Carries(input, Assemble(count, columns, middle, rows, ending))
    ensures forall i :: 0 <= i < |columns| ==> |columns[i]| <= MAX_PACKET
    ensures forall i :: 0 <= i < |rows| ==> |rows[i]| <= MAX_PACKET
  {
    Layout(input, count, columns, middle, rows, ending);
    forall i | 0 <= i < |columns| ensures |columns[i]| <= MAX_PACKET { assert InBound(input[1 + i]); }
    var m := 1 + |columns| + |middle|;
    forall i | 0 <= i < |rows| ensures |rows[i]| <= MAX_PACKET { assert InBound(input[m + i]); }
  }

  /**
   * The response boundary: whatever follows on the connection, the adapter reads exactly the packets of the result set,
   * takes the status from its terminator, and never stops inside it.
   */
  lemma ResultBoundary(r: ResultSet, modern: bool, input: seq<Packet>)
    requires WellFormed(r) && AllInBound(input) && Carries(input, Bodies(r, modern))
    ensures ScanResult(input, modern) == RowScan(|Bodies(r, modern)|, true, EndingStatus(r.ending))
  {
    var count, columns, rows, ending := ToLenEnc(|r.columns|), ColumnBodies(r), RowBodies(r),
        EndingBytes(r.ending, modern);
    var middle := MiddleBodies(r, modern);
    PartsFit(input, count, columns, middle, rows, ending);
    ColumnsStart(r, columns);
    RowsStart(r, rows);
    ScanCount(|r.columns|);
    EofStatusInverse(r.middleStatus, 0);
    ScanAssembled(input, modern, count, columns, middle, rows, ending);
    ScanEnding(input, |Bodies(r, modern)| - 1, r.ending, modern);
  }
}
