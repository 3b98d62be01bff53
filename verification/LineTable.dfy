/**
 The debugger's line-number table: rows made from the recorded lines, written as delta-coded commands (debug.go, and the
 commands' bytes in obj/dbg.go), and read back from the bytes once linked.
 */
module LineTable {
  import opened Words
  import opened Expressions
  import opened Linker
  import Operands

  // ---- Rows (lineRows) ----

  /** What the listing records of a line: where its code starts and ends, and what sort of line it is. */
  datatype Recorded = Recorded(
    debug: bool, stmt: nat, collected: bool, skipped: bool, sect: nat, loc: word, endSect: nat, endLoc: word,
    instruction: bool, entry: bool, data: bool, fields: bool, line: nat, repeat: bool)

  datatype Row = Row(line: nat, repeat: bool, sect: nat, loc: word, size: word, first: bool, entry: bool)

  /** The rows so far, where the last segment ends, and whether data ended the last row. */
  datatype Table = Table(rows: seq<Row>, end: word, data: bool)

  predicate LeftOut(l: Recorded) {
    !l.debug || l.stmt == 0 || l.collected || l.skipped || l.endSect != l.sect || l.endLoc <= l.loc
  }

  predicate Continues(t: Table, l: Recorded) {
    t.rows != [] && t.rows[|t.rows| - 1].sect == l.sect && t.end == l.loc
  }

  /** The last row reaches on to end. */
  function Extended(rows: seq<Row>, end: word): seq<Row>
    requires rows != []
  {
    var n := |rows| - 1;
    rows[n := rows[n].(size := Wrap(end - rows[n].loc))]
  }

  function AddLine(t: Table, l: Recorded): Table {
    var same := t.rows != [] && !l.repeat && t.rows[|t.rows| - 1].line == l.line;
    if LeftOut(l) then t
    else if !l.instruction && !l.entry then
      if l.data && Continues(t, l) && l.fields then Table(Extended(t.rows, l.endLoc), l.endLoc, true) else t
    else if t.data && same then t
    else if Continues(t, l) && same then Table(Extended(t.rows, l.endLoc), l.endLoc, false)
    else
      Table(t.rows + [Row(l.line, l.repeat, l.sect, l.loc, l.endLoc - l.loc, !Continues(t, l), l.entry)], l.endLoc,
        false)
  }

  function RowsOf(lines: seq<Recorded>): Table {
    if lines == [] then Table([], 0, false) else AddLine(RowsOf(lines[..|lines| - 1]), lines[|lines| - 1])
  }

  predicate Abut(a: Row, b: Row) {
    a.sect == b.sect && b.loc == a.loc + a.size
  }

  /** A row starts a segment exactly where its code does not start where the row before it ends. */
  predicate RowsOk(rows: seq<Row>) {
    && (forall i :: 0 <= i < |rows| ==> rows[i].size > 0 && rows[i].loc + rows[i].size < TWO32)
    && (rows != [] ==> rows[0].first)
    && (forall i :: 0 < i < |rows| ==> (rows[i].first <==> !Abut(rows[i - 1], rows[i])))
  }

  predicate TableOk(t: Table) {
    RowsOk(t.rows) && (t.rows != [] ==> t.end == t.rows[|t.rows| - 1].loc + t.rows[|t.rows| - 1].size)
  }

  lemma AddLineOk(t: Table, l: Recorded)
    requires TableOk(t)
    ensures TableOk(AddLine(t, l))
  {
    hide TableOk, RowsOk, Extended;
    if !LeftOut(l) && Continues(t, l) {
      ExtendedOk(t, l, true);
      ExtendedOk(t, l, false);
    }
    if !LeftOut(l) {
      AppendedOk(t, l);
    }
  }

  lemma ExtendedOk(t: Table, l: Recorded, data: bool)
    requires TableOk(t) && !LeftOut(l) && Continues(t, l)
    ensures TableOk(Table(Extended(t.rows, l.endLoc), l.endLoc, data))
  {
  }

  lemma AppendedOk(t: Table, l: Recorded)
    requires TableOk(t) && !LeftOut(l)
    ensures TableOk(Table(t.rows + [Row(l.line, l.repeat, l.sect, l.loc, l.endLoc - l.loc, !Continues(t, l), l.entry)],
              l.endLoc, false))
  {
  }

  lemma {:induction false} RowsOfOk(lines: seq<Recorded>)
    ensures TableOk(RowsOf(lines))
  {
    hide TableOk, AddLine;
    if lines == [] {
      AddLineOk0();
    } else {
      RowsOfOk(lines[..|lines| - 1]);
      AddLineOk(RowsOf(lines[..|lines| - 1]), lines[|lines| - 1]);
    }
  }

  lemma AddLineOk0()
    ensures TableOk(Table([], 0, false))
  {
  }

  /** The line's code is in a row of its own line. */
  predicate InRow(rows: seq<Row>, l: Recorded) {
    exists i :: 0 <= i < |rows| && Within(rows[i], l)
  }

  predicate Within(r: Row, l: Recorded) {
    r.sect == l.sect && r.line == l.line && r.loc <= l.loc && l.endLoc <= r.loc + r.size
  }

  /** Code that counts: but not an instruction of a row's line after data ended the row. */
  predicate Counts(t: Table, l: Recorded) {
    && !LeftOut(l) && (l.instruction || l.entry)
    && !(t.data && t.rows != [] && !l.repeat && t.rows[|t.rows| - 1].line == l.line)
  }

  /** The row was begun by the line. */
  predicate Begins(r: Row, l: Recorded) {
    !LeftOut(l) && (l.instruction || l.entry) && r.sect == l.sect && r.loc == l.loc && r.line == l.line
    && r.repeat == l.repeat
    && r.entry == l.entry && r.size >= l.endLoc - l.loc
  }

  lemma RowsGrow(t: Table, l: Recorded)
    requires TableOk(t)
    ensures var n := AddLine(t, l);
            && |t.rows| <= |n.rows| <= |t.rows| + 1
            && (forall i :: 0 <= i < |t.rows| ==>
                 n.rows[i] == t.rows[i].(size := n.rows[i].size) && n.rows[i].size >= t.rows[i].size)
            && (|n.rows| > |t.rows| ==> Begins(n.rows[|t.rows|], l))
            && (Counts(t, l) ==> n.rows != [] && Within(n.rows[|n.rows| - 1], l))
  {
    hide RowsOk;
    if t.rows != [] {
      LastOk(t);
    }
  }

  lemma LastOk(t: Table)
    requires TableOk(t) && t.rows != []
    ensures var last := t.rows[|t.rows| - 1];
            t.end == last.loc + last.size && last.size > 0
  {
  }

  predicate BegunBy(r: Row, lines: seq<Recorded>) {
    exists i :: 0 <= i < |lines| && Begins(r, lines[i])
  }

  /** Every line that counts is in a row of its line. */
  lemma {:induction false} LinesInRows(lines: seq<Recorded>, i: nat)
    requires i < |lines| && Counts(RowsOf(lines[..i]), lines[i])
    ensures InRow(RowsOf(lines).rows, lines[i])
  {
    hide AddLine, TableOk, Within, Counts, Begins;
    var n := |lines| - 1;
    var front, l := lines[..n], lines[n];
    RowsOfOk(front);
    var t, u := RowsOf(front), RowsOf(lines);
    RowsGrow(t, l);
    if i < n {
      assert front[..i] == lines[..i] && front[i] == lines[i];
      LinesInRows(front, i);
      var k :| 0 <= k < |t.rows| && Within(t.rows[k], lines[i]);
      StillWithin(t.rows[k], u.rows[k], lines[i]);
    } else {
      assert Within(u.rows[|u.rows| - 1], l);
    }
  }

  /** And every row was begun by a line of code. */
  lemma {:induction false} RowsBegun(lines: seq<Recorded>, k: nat)
    requires k < |RowsOf(lines).rows|
    ensures BegunBy(RowsOf(lines).rows[k], lines)
  {
    hide AddLine, TableOk, Within, Counts, Begins;
    var n := |lines| - 1;
    var front, l := lines[..n], lines[n];
    RowsOfOk(front);
    var t, u := RowsOf(front), RowsOf(lines);
    RowsGrow(t, l);
    if k < |t.rows| {
      RowsBegun(front, k);
      var i :| 0 <= i < |front| && Begins(t.rows[k], front[i]);
      StillBegins(t.rows[k], u.rows[k], front[i]);
      assert Begins(u.rows[k], lines[i]);
    } else {
      assert Begins(u.rows[k], lines[n]);
    }
  }

  lemma StillWithin(r: Row, s: Row, l: Recorded)
    requires Within(r, l) && s == r.(size := s.size) && s.size >= r.size
    ensures Within(s, l)
  {
  }

  lemma StillBegins(r: Row, s: Row, l: Recorded)
    requires Begins(r, l) && s == r.(size := s.size) && s.size >= r.size
    ensures Begins(s, l)
  {
  }

  /** lineRows */
  method LineRows(lines: seq<Recorded>) returns (rows: seq<Row>)
    ensures rows == RowsOf(lines).rows && RowsOk(rows)
  {
    hide TableOk, RowsOk, Wrap;
    rows := [];
    var end: word, data := 0, false;
    AddLineOk0();
    var i := 0;
    while i < |lines|
      invariant 0 <= i <= |lines| && RowsOf(lines[..i]) == Table(rows, end, data)
    {
      assert lines[..i + 1][..i] == lines[..i];
      var l, n := lines[i], |rows|;
      i := i + 1;
      if !l.debug || l.stmt == 0 || l.collected || l.skipped || l.endSect != l.sect || l.endLoc <= l.loc {
        continue;
      }
      var continues := n > 0 && rows[n - 1].sect == l.sect && end == l.loc;
      if !l.instruction && !l.entry {
        if l.data && continues && l.fields {
          end := l.endLoc;
          rows := rows[n - 1 := rows[n - 1].(size := Wrap(end - rows[n - 1].loc))];
          data := true;
        }
        continue;
      }
      if n > 0 && data && !l.repeat && rows[n - 1].line == l.line {
        continue;
      }
      data := false;
      end := l.endLoc;
      if continues && !l.repeat && rows[n - 1].line == l.line {
        rows := rows[n - 1 := rows[n - 1].(size := Wrap(end - rows[n - 1].loc))];
        continue;
      }
      rows := rows + [Row(l.line, l.repeat, l.sect, l.loc, l.endLoc - l.loc, !continues, l.entry)];
    }
    assert lines[..|lines|] == lines;
    RowsOfOk(lines);
    RowsOfTable(RowsOf(lines));
  }

  lemma RowsOfTable(t: Table)
    requires TableOk(t)
    ensures RowsOk(t.rows)
  {
  }

  // ---- Commands (lineCommands) ----

  /** Bytes, then, where there is one, a longword that the linker stores from what the command stacks. */
  datatype Item = Item(bytes: seq<octet>, address: Option<Command>)

  function Plain(bytes: seq<octet>): Item {
    Item(bytes, None)
  }

  function Skip(n: word): seq<octet> {
    if n <= 0xFF then [0x02, n]
    else if n <= 0xFFFF then [0x03] + LittleEndian(n, 2)
    else [0x12] + LittleEndian(n, 4)
  }

  function SetLine(n: word): seq<octet> {
    [0x13, n % 0x100] + if n >= 0x100 then Skip(n - n % 0x100) else []
  }

  function Advance(size: word): seq<octet> {
    if size <= 128 then [(0x100 - size) % 0x100]
    else if size <= 0xFFFF then [0x01] + LittleEndian(size, 2)
    else [0x11] + LittleEndian(size, 4)
  }

  function End(size: word): seq<octet> {
    if size <= 0xFF then [0x0E, size]
    else if size <= 0xFFFF then [0x0F] + LittleEndian(size, 2)
    else [0x15] + LittleEndian(size, 4)
  }

  const StartItem: Item := Plain([0x13, 0x00])

  /** Lines are numbered from 1. */
  predicate Numbered(rows: seq<Row>) {
    forall i :: 0 <= i < |rows| ==> 0 < rows[i].line < TWO32
  }

  function LineCommands(rows: seq<Row>, i: nat): seq<Item>
    requires i < |rows| && Numbered(rows) && rows[0].first
  {
    var r := rows[i];
    var start := if i == 0 then [StartItem] else [];
    if r.first then
      start + (if i > 0 then [Plain(End(rows[i - 1].size))] else [])
      + [Item([0x10], Some(StackPsectOffset(r.sect, r.loc, false))), Plain(SetLine(r.line - 1)), Plain(Advance(0))]
    else
      var prev := rows[i - 1];
      start
      + (if r.repeat || r.line <= prev.line then [Plain(SetLine(r.line - 1))]
         else if r.line > prev.line + 1 then [Plain(Skip(r.line - prev.line - 1))]
         else [])
      + [Plain(Advance(prev.size))]
  }

  /** The longword the linker stores for an address. */
  function AddressBytes(env: Env, c: Command): seq<octet> {
    if c.StackPsect? then LittleEndian(Wrap(env.base(c.psect) + StackedValue(c.form, c.value)), 4) else []
  }

  function LinkedItem(env: Env, item: Item): seq<octet> {
    item.bytes + if item.address.Some? then AddressBytes(env, item.address.value) else []
  }

  function Linked(env: Env, items: seq<Item>): seq<octet> {
    if items == [] then [] else LinkedItem(env, items[0]) + Linked(env, items[1..])
  }

  /** The first n rows' commands, as linked. */
  function Coded(env: Env, rows: seq<Row>, n: nat): seq<octet>
    requires n <= |rows| && Numbered(rows) && (rows != [] ==> rows[0].first)
  {
    if n == 0 then [] else Coded(env, rows, n - 1) + Linked(env, LineCommands(rows, n - 1))
  }

  /** The whole table: the rows, and the last segment's end (finishLines). */
  function TableBytes(env: Env, rows: seq<Row>): seq<octet>
    requires rows != [] && Numbered(rows) && rows[0].first
  {
    Coded(env, rows, |rows|) + End(rows[|rows| - 1].size)
  }

  // ---- Reading the table ----

  datatype Made = Made(line: int, address: word)

  datatype Reader = Reader(line: int, address: word, rows: seq<Made>, ends: seq<word>)

  /** How many bytes a command takes after the first; a byte of 0, or of 128 or more, is a delta of its own. */
  function ArgSize(op: octet): Option<nat> {
    if op == 0 || op >= 0x80 then Some(0)
    else if op == 0x13 || op == 0x02 || op == 0x0E then Some(1)
    else if op == 0x03 || op == 0x01 || op == 0x0F then Some(2)
    else if op == 0x12 || op == 0x11 || op == 0x15 || op == 0x10 then Some(4)
    else None
  }

  function Advanced(r: Reader, size: int): Reader {
    var at := Wrap(r.address + size);
    Reader(r.line + 1, at, r.rows + [Made(r.line + 1, at)], r.ends)
  }

  function Ended(r: Reader, size: int): Reader {
    var at := Wrap(r.address + size);
    r.(address := at, ends := r.ends + [at])
  }

  function Do(op: octet, arg: int, r: Reader): Reader {
    if op == 0 || op >= 0x80 then Advanced(r, (0x100 - op) % 0x100)
    else if op == 0x13 then r.(line := arg)
    else if op == 0x02 || op == 0x03 || op == 0x12 then r.(line := r.line + arg)
    else if op == 0x01 || op == 0x11 then Advanced(r, arg)
    else if op == 0x10 then r.(address := Wrap(arg))
    else Ended(r, arg)
  }

  function Decode(data: seq<octet>, r: Reader): Option<Reader>
    decreases |data|
  {
    if data == [] then Some(r)
    else
      match ArgSize(data[0])
      case None => None
      case Some(n) =>
        if |data| < 1 + n then None
        else Decode(data[1 + n..], Do(data[0], Operands.Unsigned(data[1..1 + n]), r))
  }

  lemma DecodeOne(op: octet, arg: seq<octet>, rest: seq<octet>, r: Reader)
    requires ArgSize(op) == Some(|arg|)
    ensures |arg| <= 4 && Decode([op] + arg + rest, r) == Decode(rest, Do(op, Operands.Unsigned(arg), r))
  {
    hide Do, Operands.Unsigned;
    var data := [op] + arg + rest;
    assert data[1..1 + |arg|] == arg && data[1 + |arg|..] == rest && data[0] == op;
  }

  lemma SmallArg(n: word)
    requires n <= 0xFF
    ensures Operands.Unsigned([n]) == n
  {
  }

  /** The two- and four-byte forms hold what they are chosen for. */
  lemma WideArg(n: word)
    ensures n <= 0xFFFF ==> Operands.Unsigned(LittleEndian(n, 2)) == n
    ensures Operands.Unsigned(LittleEndian(n, 4)) == n
  {
    Operands.LowBytes(n, Operands.TwoPass.Word);
    Operands.LowBytes(n, Operands.TwoPass.Long);
  }

  lemma SkipDecodes(n: word, rest: seq<octet>, r: Reader)
    ensures Decode(Skip(n) + rest, r) == Decode(rest, r.(line := r.line + n))
  {
    hide Decode, LittleEndian, Operands.Unsigned;
    WideArg(n);
    if n <= 0xFF {
      SmallArg(n);
      DecodeOne(0x02, [n], rest, r);
      assert Skip(n) == [0x02] + [n];
    } else if n <= 0xFFFF {
      DecodeOne(0x03, LittleEndian(n, 2), rest, r);
    } else {
      DecodeOne(0x12, LittleEndian(n, 4), rest, r);
    }
  }

  lemma SetLineDecodes(n: word, rest: seq<octet>, r: Reader)
    ensures Decode(SetLine(n) + rest, r) == Decode(rest, r.(line := n))
  {
    hide Decode, Operands.Unsigned, Skip;
    var low: octet := n % 0x100;
    var more := if n >= 0x100 then Skip(n - low) else [];
    SmallArg(low);
    DecodeOne(0x13, [low], more + rest, r);
    assert SetLine(n) + rest == [0x13] + [low] + (more + rest);
    if n >= 0x100 {
      SkipDecodes(n - low, rest, r.(line := low));
    } else {
      assert more + rest == rest;
    }
  }

  lemma AdvanceDecodes(size: word, rest: seq<octet>, r: Reader)
    ensures Decode(Advance(size) + rest, r) == Decode(rest, Advanced(r, size))
  {
    hide Decode, LittleEndian, Operands.Unsigned, Advanced;
    WideArg(size);
    if size <= 128 {
      var op: octet := (0x100 - size) % 0x100;
      DecodeOne(op, [], rest, r);
      assert [op] + [] + rest == Advance(size) + rest;
    } else if size <= 0xFFFF {
      DecodeOne(0x01, LittleEndian(size, 2), rest, r);
    } else {
      DecodeOne(0x11, LittleEndian(size, 4), rest, r);
    }
  }

  lemma EndDecodes(size: word, rest: seq<octet>, r: Reader)
    ensures Decode(End(size) + rest, r) == Decode(rest, Ended(r, size))
  {
    hide Decode, LittleEndian, Operands.Unsigned, Ended;
    WideArg(size);
    if size <= 0xFF {
      SmallArg(size);
      DecodeOne(0x0E, [size], rest, r);
      assert End(size) == [0x0E] + [size];
    } else if size <= 0xFFFF {
      DecodeOne(0x0F, LittleEndian(size, 2), rest, r);
    } else {
      DecodeOne(0x15, LittleEndian(size, 4), rest, r);
    }
  }

  lemma AddressDecodes(env: Env, s: nat, loc: word, rest: seq<octet>, r: Reader)
    ensures Decode([0x10] + AddressBytes(env, StackPsectOffset(s, loc, false)) + rest, r)
            == Decode(rest, r.(address := Wrap(env.base(s) + loc)))
  {
    hide Decode, LittleEndian, Operands.Unsigned, StackPsectOffset, StackedValue;
    StackPsectOffsetExact(s, loc, false);
    var at := Wrap(env.base(s) + loc);
    WideArg(at);
    DecodeOne(0x10, LittleEndian(at, 4), rest, r);
  }

  // ---- The table gives back its rows ----

  function RowAddress(env: Env, r: Row): word {
    Wrap(env.base(r.sect) + r.loc)
  }

  function RowEnd(env: Env, r: Row): word {
    Wrap(env.base(r.sect) + r.loc + r.size)
  }

  function RowsMade(env: Env, rows: seq<Row>): seq<Made> {
    seq(|rows|, i requires 0 <= i < |rows| => Made(rows[i].line, RowAddress(env, rows[i])))
  }

  /** The ends of the segments among the rows, but the last's. */
  function EndsMade(env: Env, rows: seq<Row>): seq<word> {
    if |rows| < 2 then []
    else
      var n := |rows| - 1;
      EndsMade(env, rows[..n]) + if rows[n].first then [RowEnd(env, rows[n - 1])] else []
  }

  const Fresh: Reader := Reader(0, 0, [], [])

  function ReaderAfter(env: Env, rows: seq<Row>): Reader {
    if rows == [] then Fresh
    else
      var last := rows[|rows| - 1];
      Reader(last.line, RowAddress(env, last), RowsMade(env, rows), EndsMade(env, rows))
  }

  lemma LinkedJoin(env: Env, a: Item, rest: seq<Item>)
    ensures Linked(env, [a] + rest) == LinkedItem(env, a) + Linked(env, rest)
  {
    assert ([a] + rest)[1..] == rest;
  }

  lemma LinkedLast(env: Env, a: Item)
    ensures Linked(env, [a]) == LinkedItem(env, a)
  {
    assert [a][1..] == [];
  }

  /** What makes a row that starts a segment. */
  lemma SegmentDecodes(env: Env, r: Row, rest: seq<octet>, st: Reader)
    requires 0 < r.line < TWO32
    ensures var items := [Item([0x10], Some(StackPsectOffset(r.sect, r.loc, false))), Plain(SetLine(r.line - 1)),
              Plain(Advance(0))];
            Decode(Linked(env, items) + rest, st)
            == Decode(rest, Reader(r.line, RowAddress(env, r), st.rows + [Made(r.line, RowAddress(env, r))], st.ends))
  {
    hide Decode, SetLine, Advance, StackPsectOffset, AddressBytes;
    var c := StackPsectOffset(r.sect, r.loc, false);
    var a, b, d := Item([0x10], Some(c)), Plain(SetLine(r.line - 1)), Plain(Advance(0));
    LinkedJoin(env, a, [b, d]);
    LinkedJoin(env, b, [d]);
    LinkedLast(env, d);
    assert [a, b, d] == [a] + [b, d] && [b, d] == [b] + [d];
    var tail := SetLine(r.line - 1) + (Advance(0) + rest);
    assert Linked(env, [a, b, d]) + rest == [0x10] + AddressBytes(env, c) + tail;
    AddressDecodes(env, r.sect, r.loc, tail, st);
    var st1 := st.(address := Wrap(env.base(r.sect) + r.loc));
    SetLineDecodes(r.line - 1, Advance(0) + rest, st1);
    AdvanceDecodes(0, rest, st1.(line := r.line - 1));
    assert Wrap(st1.address + 0) == st1.address by { WrapSame(st1.address); }
  }

  lemma WrapSame(w: word)
    ensures Wrap(w) == w
  {
  }

  /** What makes a row that goes on from the one before it. */
  lemma NextDecodes(env: Env, prev: Row, r: Row, items: seq<Item>, rest: seq<octet>, st: Reader)
    requires 0 < prev.line < TWO32 && 0 < r.line < TWO32 && Abut(prev, r)
    requires st.line == prev.line && st.address == RowAddress(env, prev)
    requires items == (if r.repeat || r.line <= prev.line then [Plain(SetLine(r.line - 1))]
                       else if r.line > prev.line + 1 then [Plain(Skip(r.line - prev.line - 1))]
                       else []) + [Plain(Advance(prev.size))]
    ensures Decode(Linked(env, items) + rest, st)
            == Decode(rest, Reader(r.line, RowAddress(env, r), st.rows + [Made(r.line, RowAddress(env, r))], st.ends))
  {
    hide Decode, SetLine, Skip, Advance, Wrap;
    var d := Plain(Advance(prev.size));
    LinkedLast(env, d);
    assert LinkedItem(env, d) == Advance(prev.size);
    var st1 := st.(line := r.line - 1);
    if r.repeat || r.line <= prev.line {
      LinkedJoin(env, Plain(SetLine(r.line - 1)), [d]);
      assert Linked(env, items) + rest == SetLine(r.line - 1) + (Advance(prev.size) + rest);
      SetLineDecodes(r.line - 1, Advance(prev.size) + rest, st);
    } else if r.line > prev.line + 1 {
      LinkedJoin(env, Plain(Skip(r.line - prev.line - 1)), [d]);
      assert Linked(env, items) + rest == Skip(r.line - prev.line - 1) + (Advance(prev.size) + rest);
      SkipDecodes(r.line - prev.line - 1, Advance(prev.size) + rest, st);
    } else {
      assert items == [d] && st1 == st;
      assert Linked(env, items) == Advance(prev.size);
    }
    assert Decode(Linked(env, items) + rest, st) == Decode(Advance(prev.size) + rest, st1);
    AdvanceDecodes(prev.size, rest, st1);
    WrapSum(env.base(r.sect) + prev.loc, prev.size);
    assert env.base(r.sect) + prev.loc + prev.size == env.base(r.sect) + r.loc;
    assert Advanced(st1, prev.size) == Reader(r.line, RowAddress(env, r), st.rows + [Made(r.line, RowAddress(env, r))],
             st.ends);
  }

  lemma MadeNext(env: Env, rows: seq<Row>, n: nat)
    requires n < |rows|
    ensures RowsMade(env, rows[..n + 1]) == RowsMade(env, rows[..n]) + [Made(rows[n].line, RowAddress(env, rows[n]))]
    ensures EndsMade(env, rows[..n + 1]) ==
            EndsMade(env, rows[..n]) + if n > 0 && rows[n].first then [RowEnd(env, rows[n - 1])] else []
  {
    hide RowAddress, RowEnd;
    assert rows[..n + 1][..n] == rows[..n];
  }

  /** One row's commands take the reader from the rows before it to it. */
  lemma RowDecodes(env: Env, rows: seq<Row>, n: nat, rest: seq<octet>)
    requires n < |rows| && Numbered(rows) && RowsOk(rows)
    ensures Decode(Linked(env, LineCommands(rows, n)) + rest, ReaderAfter(env, rows[..n]))
              == Decode(rest, ReaderAfter(env, rows[..n + 1]))
  {
    hide Decode, SetLine, Skip, Advance, End, Linked, LinkedItem, RowAddress, RowEnd, EndsMade, RowsMade,
      StackPsectOffset;
    var r, st := rows[n], ReaderAfter(env, rows[..n]);
    MadeNext(env, rows, n);
    if r.first {
      var items := [Item([0x10], Some(StackPsectOffset(r.sect, r.loc, false))), Plain(SetLine(r.line - 1)),
        Plain(Advance(0))];
      if n == 0 {
        FirstDecodes(env, items, rest);
        assert LineCommands(rows, 0) == [StartItem] + items;
        NothingMade(env);
        SegmentDecodes(env, r, rest, Fresh);
      } else {
        var prev := rows[n - 1];
        assert LineCommands(rows, n) == [Plain(End(prev.size))] + items;
        SegmentEnds(env, prev, items, rest, st);
        SegmentDecodes(env, r, rest, st.(address := RowEnd(env, prev), ends := st.ends + [RowEnd(env, prev)]));
      }
    } else {
      NextDecodes(env, rows[n - 1], r, LineCommands(rows, n), rest, st);
      assert EndsMade(env, rows[..n + 1]) == EndsMade(env, rows[..n]);
    }
  }

  lemma NothingMade(env: Env)
    ensures RowsMade(env, []) == [] && EndsMade(env, []) == []
  {
  }

  lemma FirstDecodes(env: Env, items: seq<Item>, rest: seq<octet>)
    ensures Decode(Linked(env, [StartItem] + items) + rest, Fresh) == Decode(Linked(env, items) + rest, Fresh)
  {
    hide Decode;
    LinkedJoin(env, StartItem, items);
    var tail := Linked(env, items) + rest;
    hide Linked;
    SmallArg(0);
    DecodeOne(0x13, [0], tail, Fresh);
    assert Linked(env, [StartItem] + items) + rest == [0x13] + [0] + tail;
  }

  lemma SegmentEnds(env: Env, prev: Row, items: seq<Item>, rest: seq<octet>, st: Reader)
    requires st.address == RowAddress(env, prev)
    ensures Decode(Linked(env, [Plain(End(prev.size))] + items) + rest, st)
            == Decode(Linked(env, items) + rest, st.(address := RowEnd(env, prev),
              ends := st.ends + [RowEnd(env, prev)]))
  {
    hide Decode, End, Wrap;
    LinkedJoin(env, Plain(End(prev.size)), items);
    var tail := Linked(env, items) + rest;
    hide Linked;
    EndDecodes(prev.size, tail, st);
    WrapSum(env.base(prev.sect) + prev.loc, prev.size);
    assert Linked(env, [Plain(End(prev.size))] + items) + rest == End(prev.size) + tail;
  }

  lemma {:induction false} CodedDecodes(env: Env, rows: seq<Row>, n: nat, rest: seq<octet>)
    requires n <= |rows| && Numbered(rows) && RowsOk(rows)
    ensures Decode(Coded(env, rows, n) + rest, Fresh) == Decode(rest, ReaderAfter(env, rows[..n]))
    decreases n
  {
    hide Decode, LineCommands, Linked, ReaderAfter;
    if n == 0 {
      StartsFresh(env, rows);
      assert Coded(env, rows, 0) + rest == rest;
    } else {
      var row := Linked(env, LineCommands(rows, n - 1));
      assert Coded(env, rows, n) + rest == Coded(env, rows, n - 1) + (row + rest);
      CodedDecodes(env, rows, n - 1, row + rest);
      RowDecodes(env, rows, n - 1, rest);
    }
  }

  lemma StartsFresh(env: Env, rows: seq<Row>)
    ensures ReaderAfter(env, rows[..0]) == Fresh
  {
  }

  /** The table read back: every row's line and start address, and the end of every segment's last row. */
  lemma TableReadsBack(env: Env, lines: seq<Recorded>)
    requires RowsOf(lines).rows != [] && Numbered(RowsOf(lines).rows)
    ensures RowsOk(RowsOf(lines).rows)
    ensures var rows := RowsOf(lines).rows;
            var last := rows[|rows| - 1];
            Decode(TableBytes(env, rows), Fresh)
            == Some(Reader(last.line, RowEnd(env, last), RowsMade(env, rows),
              EndsMade(env, rows) + [RowEnd(env, last)]))
  {
    hide Decode, RowsOf, End, Coded, RowsMade, EndsMade, Wrap;
    RowsOfOk(lines);
    var rows := RowsOf(lines).rows;
    var n := |rows|;
    var last := rows[n - 1];
    assert rows[..n] == rows;
    CodedDecodes(env, rows, n, End(last.size));
    EndDecodes(last.size, [], ReaderAfter(env, rows));
    assert End(last.size) + [] == End(last.size);
    WrapSum(env.base(last.sect) + last.loc, last.size);
    DecodeNothing(Ended(ReaderAfter(env, rows), last.size));
  }

  lemma DecodeNothing(r: Reader)
    ensures Decode([], r) == Some(r)
  {
  }
}
