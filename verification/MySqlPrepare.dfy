/**
 * What a server answers to a PREPARE (section "COM_STMT_PREPARE Response" of the MySQL protocol), and where that answer
 * ends.
 */
module MySqlPrepare {
  import opened Bytes
  import opened MySqlWire
  import opened MySqlReply
  import opened MySqlResultSet
  import opened MySqlSession

  /** The first packet: a zero byte, the statement id, the two definition counts, a filler and the warnings. */
  ghost function PrepareOk(id: nat, columns: nat, params: nat, warnings: nat): (b: seq<Byte>)
    ensures |b| == 12
  {
    [0] + ToLE(id, 4) + ToLE(columns, 2) + ToLE(params, 2) + [0] + ToLE(warnings, 2)
  }

  datatype PreparedStatement = PreparedStatement(id: nat, params: seq<Column>, columns: seq<Column>, warnings: nat,
                                                 middleStatus: nat)

  ghost predicate AllSizedColumns(cs: seq<Column>) {
    forall i :: 0 <= i < |cs| ==> Sized(Text(cs[i].catalog))
  }

  ghost predicate WellPrepared(s: PreparedStatement) {
    && s.id < 0x1_0000_0000 && s.middleStatus < 0x1_0000
    && |s.params| <= MAX_DEFINITIONS && |s.columns| <= MAX_DEFINITIONS
    && AllSizedColumns(s.params) && AllSizedColumns(s.columns)
  }

  /** A block of definitions; the legacy protocol closes one that is not empty with an EOF packet. */
  ghost function Block(cs: seq<Column>, status: nat, modern: bool): (b: seq<seq<Byte>>)
    requires AllSizedColumns(cs)
    ensures |b| == |cs| + if cs != [] && !modern then 1 else 0
    ensures forall i :: 0 <= i < |cs| ==> b[i] == ColumnBytes(cs[i])
    ensures cs != [] && !modern ==> b[|cs|] == EofBody(status, 0)
  {
    seq(|cs|, i requires 0 <= i < |cs| => ColumnBytes(cs[i])) + if cs != [] && !modern then [EofBody(status, 0)] else []
  }

  ghost function PreparedBodies(s: PreparedStatement, modern: bool): (b: seq<seq<Byte>>)
    requires WellPrepared(s)
    ensures |b| == 1 + |Block(s.params, s.middleStatus, modern)| + |Block(s.columns, s.middleStatus, modern)|
  {
    [PrepareOk(s.id, |s.columns|, |s.params|, s.warnings)]
    + Block(s.params, s.middleStatus, modern) + Block(s.columns, s.middleStatus, modern)
  }

  lemma PrepareOkInverse(id: nat, columns: nat, params: nat, warnings: nat)
    requires id < 0x1_0000_0000 && columns < 0x1_0000 && params < 0x1_0000
    ensures var b := PrepareOk(id, columns, params, warnings);
            b[0] == 0 && FromLE(b[1..5]) == id && FromLE(b[5..7]) == columns && FromLE(b[7..9]) == params
  {
    var b := PrepareOk(id, columns, params, warnings);
    assert Pow256(4) == 0x1_0000_0000;
    PowersOf256();
    assert b[1..5] == ToLE(id, 4) && b[5..7] == ToLE(columns, 2) && b[7..9] == ToLE(params, 2);
    LittleEndianInverse(id, 4);
    LittleEndianInverse(columns, 2);
    LittleEndianInverse(params, 2);
  }

  /** The block's packets stand at `at`. */
  ghost predicate Stands(input: seq<Packet>, at: nat, bodies: seq<seq<Byte>>) {
    at + |bodies| <= |input| && forall i :: at <= i < at + |bodies| ==>
        Readable(input, i) && input[i].body == bodies[i - at]
  }

  lemma ScanBlock(input: seq<Packet>, at: nat, cs: seq<Column>, status: nat, modern: bool)
    requires AllInBound(input) && |cs| <= MAX_DEFINITIONS && AllSizedColumns(cs) && status < 0x1_0000
    requires Stands(input, at, Block(cs, status, modern))
    ensures ScanDefinitions(input, at, |cs|, modern) == Scan(at + |Block(cs, status, modern)|, true)
  {
    forall i | at <= i < at + |cs|
      ensures Readable(input, i) && input[i].body != [] && input[i].body[0] < 0xff
    {
      assert input[i].body == ColumnBytes(cs[i - at]) && InBound(input[i]);
      ColumnStart(cs[i - at]);
    }
    assert Plain(input, at, |cs|, 0xff);
    ScanColumnsStep(input, at, |cs|, cs != [] && !modern);
    if cs != [] && !modern {
      EofStatusInverse(status, 0);
      assert Readable(input, at + |cs|) && input[at + |cs|].body == EofBody(status, 0);
    }
  }

  lemma PartsStand(input: seq<Packet>, head: seq<Byte>, first: seq<seq<Byte>>, second: seq<seq<Byte>>)
    requires Carries(input, [head] + first + second)
    ensures Readable(input, 0) && input[0].body == head
    ensures Stands(input, 1, first) && Stands(input, 1 + |first|, second)
  {
    var bodies := [head] + first + second;
    assert |bodies| == 1 + |first| + |second| && bodies[0] == head;
    assert forall i :: 1 <= i < 1 + |first| ==> bodies[i] == first[i - 1];
    assert forall i :: 1 + |first| <= i < |bodies| ==> bodies[i] == second[i - 1 - |first|];
  }

  lemma {:induction false} ScanBlocks(input: seq<Packet>, s: PreparedStatement, middle: nat, modern: bool)
    requires AllInBound(input) && WellPrepared(s) && middle == 1 + |Block(s.params, s.middleStatus, modern)|
    requires Stands(input, 1, Block(s.params, s.middleStatus, modern))
    requires Stands(input, middle, Block(s.columns, s.middleStatus, modern))
    ensures middle <= |input|
    ensures ScanDefinitions(input, 1, |s.params|, modern) == Scan(middle, true)
    ensures ScanDefinitions(input, middle, |s.columns|, modern)
            == Scan(middle + |Block(s.columns, s.middleStatus, modern)|, true)
  {
    ScanBlock(input, 1, s.params, s.middleStatus, modern);
    ScanBlock(input, middle, s.columns, s.middleStatus, modern);
  }

  /** The scanner on a first packet and two scanned blocks. */
  lemma ScanParts(input: seq<Packet>, known: set<nat>, modern: bool, id: nat, params: nat, columns: nat, middle: nat,
                  end: nat)
    requires AllInBound(input) && Readable(input, 0) && |input[0].body| == 12 && input[0].body[0] == 0
    requires FromLE(input[0].body[1..5]) == id && FromLE(input[0].body[5..7]) == columns
             && FromLE(input[0].body[7..9]) == params
    requires ScanDefinitions(input, 1, params, modern) == Scan(middle, true)
    requires middle <= |input| && ScanDefinitions(input, middle, columns, modern) == Scan(end, true)
    ensures ScanAnswer(COM_STMT_PREPARE, known, input, modern) ==
            if id in known then Answer(0, Broken) else Answer(end, Prepared(id))
  {
  }

  lemma PreparedHead(s: PreparedStatement, modern: bool, input: seq<Packet>)
    requires WellPrepared(s) && Carries(input, PreparedBodies(s, modern))
    ensures Readable(input, 0) && |input[0].body| == 12 && input[0].body[0] == 0
    ensures FromLE(input[0].body[1..5]) == s.id
    ensures FromLE(input[0].body[5..7]) == |s.columns| && FromLE(input[0].body[7..9]) == |s.params|
    ensures Stands(input, 1, Block(s.params, s.middleStatus, modern))
    ensures Stands(input, 1 + |Block(s.params, s.middleStatus, modern)|, Block(s.columns, s.middleStatus, modern))
  {
    var head := PrepareOk(s.id, |s.columns|, |s.params|, s.warnings);
    PartsStand(input, head, Block(s.params, s.middleStatus, modern), Block(s.columns, s.middleStatus, modern));
    PrepareOkInverse(s.id, |s.columns|, |s.params|, s.warnings);
  }

  /**
   * The boundary of a PREPARE answer: with up to 4096 parameters and columns, in both EOF modes and whatever follows,
   * the adapter reads exactly its packets and takes the statement id from it, unless that id is in use.
   */
  lemma {:induction false} PreparedBoundary(s: PreparedStatement, modern: bool, input: seq<Packet>, known: set<nat>)
    requires WellPrepared(s) && AllInBound(input) && Carries(input, PreparedBodies(s, modern))
    ensures ScanAnswer(COM_STMT_PREPARE, known, input, modern) ==
            if s.id in known then Answer(0, Broken) else Answer(|PreparedBodies(s, modern)|, Prepared(s.id))
  {
    PreparedHead(s, modern, input);
    var middle := 1 + |Block(s.params, s.middleStatus, modern)|;
    ScanBlocks(input, s, middle, modern);
    ScanParts(input, known, modern, s.id, |s.params|, |s.columns|, middle, |PreparedBodies(s, modern)|);
  }
}
