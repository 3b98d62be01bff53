/** Attribute lists, and the save set's summary and a file's attributes as lists of them. */
module AttributeLists {
  import opened Bytes
  import opened Blocks

  datatype Attribute = Attribute(kind: uint16, value: bytes)

  /** What attributeList returns: the attributes, and whether none ran past the record. */
  datatype Attributed = Attributed(list: seq<Attribute>, ok: bool)

  function ListFrom(body: bytes, at: nat): Attributed
    decreases |body| - at
  {
    if at + 4 > |body| || (Word(body, at) == 0 && Word(body, at + 2) == 0) then Attributed([], true)
    else if at + 4 + Word(body, at) > |body| then Attributed([], false)
    else
      var value := body[at + 4..at + 4 + Word(body, at)];
      var rest := ListFrom(body, at + 4 + Word(body, at));
      Attributed([Attribute(Word(body, at + 2), value)] + rest.list, rest.ok)
  }

  function AttributeList(body: bytes): Attributed {
    if |body| < 2 then Attributed([], false) else ListFrom(body, 2)
  }

  /** attributeList. */
  method ParseList(body: bytes) returns (list: seq<Attribute>, ok: bool)
    ensures Attributed(list, ok) == AttributeList(body)
  {
    hide Word;
    list := [];
    if |body| < 2 {
      return [], false;
    }
    var at := 2;
    while at + 4 <= |body|
      invariant AttributeList(body) == Attributed(list + ListFrom(body, at).list, ListFrom(body, at).ok)
      decreases |body| - at
    {
      var size := Word(body, at);
      var kind := Word(body, at + 2);
      if size == 0 && kind == 0 {
        break;
      }
      at := at + 4;
      if at + size > |body| {
        return list, false;
      }
      list := list + [Attribute(kind, body[at..at + size])];
      at := at + size;
    }
    ok := true;
  }

  // ---- Writing a list ----

  function EntryBytes(a: Attribute): (b: bytes)
    ensures |b| == 4 + |a.value|
  {
    LE(|a.value|, 2) + LE(a.kind, 2) + a.value
  }

  function ListBytes(list: seq<Attribute>): bytes {
    if list == [] then [] else EntryBytes(list[0]) + ListBytes(list[1..])
  }

  /** A structure level word, then the attributes (attributeWriter). */
  function Encode(list: seq<Attribute>): bytes {
    LE(StructureLevel, 2) + ListBytes(list)
  }

  predicate Listable(a: Attribute) {
    a.kind != 0 && |a.value| < 0x1_0000
  }

  predicate AllListable(list: seq<Attribute>) {
    forall i :: 0 <= i < |list| ==> Listable(list[i])
  }

  lemma EntryReadsBack(body: bytes, at: nat, a: Attribute)
    requires Listable(a) && at + |EntryBytes(a)| <= |body| && Field(body, at, |EntryBytes(a)|) == EntryBytes(a)
    ensures Word(body, at) == |a.value| && Word(body, at + 2) == a.kind
    ensures body[at + 4..at + 4 + |a.value|] == a.value
  {
    var n := |EntryBytes(a)|;
    hide Word, LE, Field;
    var b := EntryBytes(a);
    assert b[0..0 + 2] == LE(|a.value|, 2) && b[2..2 + 2] == LE(a.kind, 2) && b[4..4 + |a.value|] == a.value;
    SubField(body, at, n, 0, 2);
    SubField(body, at, n, 2, 2);
    SubField(body, at, n, 4, |a.value|);
    WordOfField(body, at, |a.value|);
    WordOfField(body, at + 2, a.kind);
    SliceIsField(body, at + 4, |a.value|);
  }

  lemma SliceIsField(body: bytes, at: nat, n: nat)
    requires at + n <= |body|
    ensures body[at..at + n] == Field(body, at, n)
  {
  }

  lemma FirstEntry(body: bytes, at: nat, list: seq<Attribute>)
    requires list != [] && at + |ListBytes(list)| <= |body| && Field(body, at, |ListBytes(list)|) == ListBytes(list)
    ensures var m, rest := |EntryBytes(list[0])|, ListBytes(list[1..]);
            && |ListBytes(list)| == m + |rest|
            && Field(body, at, m) == EntryBytes(list[0]) && Field(body, at + m, |rest|) == rest
  {
    hide EntryBytes, Field;
    FieldsOfSum(body, at, EntryBytes(list[0]), ListBytes(list[1..]));
  }

  /** A list followed only by zeros reads back. */
  lemma {:induction false} ListReadsBack(body: bytes, at: nat, list: seq<Attribute>)
    requires AllListable(list) && at + |ListBytes(list)| <= |body|
    requires Field(body, at, |ListBytes(list)|) == ListBytes(list)
    requires forall i :: at + |ListBytes(list)| <= i < |body| ==> body[i] == 0
    ensures ListFrom(body, at) == Attributed(list, true)
    decreases |list|
  {
    hide EntryBytes, Word, Field;
    if list == [] {
      if at + 4 <= |body| {
        ZeroWord(body, at);
        ZeroWord(body, at + 2);
      }
    } else {
      var a, m := list[0], |EntryBytes(list[0])|;
      FirstEntry(body, at, list);
      assert Listable(a);
      EntryReadsBack(body, at, a);
      ListReadsBack(body, at + m, list[1..]);
      assert list == [a] + list[1..];
    }
  }

  lemma ZeroWord(body: bytes, at: nat)
    requires at + 2 <= |body| && body[at] == 0 && body[at + 1] == 0
    ensures Word(body, at) == 0
  {
    var f := Field(body, at, 2);
    assert f == [0, 0];
    assert f[1..] == [0] && f[1..][1..] == [];
    assert Unsigned(f[1..]) == 0;
  }

  /** Padding keeps the list: any number of zeros may follow it. */
  lemma ListRoundTrip(list: seq<Attribute>, n: nat)
    requires AllListable(list)
    ensures AttributeList(Encode(list) + Zeros(n)) == Attributed(list, true)
  {
    hide Word, LE, ListFrom, ListBytes;
    var body := Encode(list) + Zeros(n);
    assert Field(body, 2, |ListBytes(list)|) == ListBytes(list);
    ListReadsBack(body, 2, list);
  }

  // ---- The summary ----

  datatype Summary = Summary(
    name: bytes, command: bytes, comment: bytes, userName: bytes, userUIC: uint32, date: uint64, opSys: uint16,
    systemVersion: bytes, nodeName: bytes, cpuID: uint32, device: bytes, backupVersion: bytes, blockSize: uint32,
    groupSize: uint16, buffers: uint16, list: seq<Attribute>)

  const EmptySummary: Summary := Summary([], [], [], [], 0, 0, 0, [], [], 0, [], [], 0, 0, 0, [])

  const UserNameSize: nat := 12
  const Blank: byte := 32

  /** The user name blank-padded to 12. */
  function Blanked(name: bytes): bytes {
    if |name| >= UserNameSize then name else name + seq(UserNameSize - |name|, i => Blank)
  }

  function Optional(kind: uint16, text: bytes): seq<Attribute> {
    if text == [] then [] else [Attribute(kind, text)]
  }

  function SummaryHead(s: Summary): seq<Attribute> {
    [Attribute(1, s.name), Attribute(2, s.command)]
  }

  function SummaryWho(s: Summary): seq<Attribute> {
    [Attribute(4, Blanked(s.userName)), Attribute(5, LE(s.userUIC, 4)), Attribute(6, LE(s.date, 8)),
     Attribute(7, LE(s.opSys, 2)), Attribute(8, s.systemVersion)]
  }

  function SummaryWhere(s: Summary): seq<Attribute> {
    [Attribute(10, LE(s.cpuID, 4)), Attribute(11, s.device), Attribute(12, s.backupVersion)]
  }

  function SummaryHow(s: Summary): seq<Attribute> {
    [Attribute(13, LE(s.blockSize, 4)), Attribute(14, LE(s.groupSize, 2)), Attribute(15, LE(s.buffers, 2))]
  }

  /** The summary's attributes in the order EncodeSummary writes them. */
  function SummaryList(s: Summary): seq<Attribute> {
    SummaryHead(s) + Optional(3, s.comment) + SummaryWho(s) + Optional(9, s.nodeName) + SummaryWhere(s) + SummaryHow(s)
  }

  function EncodeSummary(s: Summary): bytes {
    Encode(SummaryList(s))
  }

  function Word16(v: bytes): uint16 {
    Unsigned(v) % 0x1_0000
  }

  function Word32(v: bytes): uint32 {
    Unsigned(v) % 0x1_0000_0000
  }

  function Word64(v: bytes): uint64 {
    Unsigned(v) % 0x1_0000_0000_0000_0000
  }

  /** One attribute taken into the summary. */
  function TakeSummary(s: Summary, a: Attribute): Summary {
    var v := a.value;
    match a.kind
    case 1 => s.(name := v)
    case 2 => s.(command := v)
    case 3 => s.(comment := v)
    case 4 => s.(userName := v)
    case 5 => s.(userUIC := Word32(v))
    case 6 => s.(date := Word64(v))
    case 7 => s.(opSys := Word16(v))
    case 8 => s.(systemVersion := v)
    case 9 => s.(nodeName := v)
    case 10 => s.(cpuID := Word32(v))
    case 11 => s.(device := v)
    case 12 => s.(backupVersion := v)
    case 13 => s.(blockSize := Word32(v))
    case 14 => s.(groupSize := Word16(v))
    case 15 => s.(buffers := Word16(v))
    case _ => s
  }

  function TakeAll(s: Summary, list: seq<Attribute>): Summary
    decreases |list|
  {
    if list == [] then s else TakeAll(TakeSummary(s, list[0]), list[1..])
  }

  datatype ParsedSummary = ParsedSummary(summary: Summary, ok: bool)

  function ParseSummary(body: bytes): ParsedSummary {
    var l := AttributeList(body);
    ParsedSummary(TakeAll(EmptySummary.(list := l.list), l.list), l.ok)
  }

  lemma LEReadBack(v: nat)
    ensures v < 0x1_0000 ==> Word16(LE(v, 2)) == v
    ensures v < 0x1_0000_0000 ==> Word32(LE(v, 4)) == v
    ensures v < 0x1_0000_0000_0000_0000 ==> Word64(LE(v, 8)) == v
  {
    hide LE, Unsigned;
    Powers();
    if v < 0x1_0000 {
      UnsignedOfLE(v, 2);
    }
    if v < 0x1_0000_0000 {
      UnsignedOfLE(v, 4);
    }
    if v < 0x1_0000_0000_0000_0000 {
      UnsignedOfLE(v, 8);
    }
  }

  lemma {:induction false} TakeAllAppend(s: Summary, x: seq<Attribute>, y: seq<Attribute>)
    ensures TakeAll(s, x + y) == TakeAll(TakeAll(s, x), y)
    decreases |x|
  {
    hide TakeSummary;
    if x == [] {
      assert x + y == y;
    } else {
      assert (x + y)[1..] == x[1..] + y;
      TakeAllAppend(TakeSummary(s, x[0]), x[1..], y);
    }
  }

  lemma TakeOne(s: Summary, list: seq<Attribute>, a: Attribute, rest: seq<Attribute>)
    requires list == [a] + rest
    ensures TakeAll(s, list) == TakeAll(TakeSummary(s, a), rest)
  {
    assert list[1..] == rest;
  }

  lemma HeadTaken(t: Summary, s: Summary)
    ensures TakeAll(t, SummaryHead(s)) == t.(name := s.name, command := s.command)
  {
    TakeOne(t, SummaryHead(s), Attribute(1, s.name), [Attribute(2, s.command)]);
    TakeOne(t.(name := s.name), [Attribute(2, s.command)], Attribute(2, s.command), []);
  }

  lemma OptionalTaken(t: Summary, kind: uint16, text: bytes)
    ensures TakeAll(t, Optional(kind, text)) == if text == [] then t else TakeSummary(t, Attribute(kind, text))
  {
    if text != [] {
      TakeOne(t, Optional(kind, text), Attribute(kind, text), []);
    }
  }

  lemma WhoTaken(t: Summary, s: Summary)
    ensures TakeAll(t, SummaryWho(s)) ==
            t.(userName := Blanked(s.userName), userUIC := s.userUIC, date := s.date, opSys := s.opSys,
               systemVersion := s.systemVersion)
  {
    LEReadBack(s.userUIC);
    LEReadBack(s.date);
    LEReadBack(s.opSys);
    hide LE, Word16, Word32, Word64, TakeAll, Blanked;
    var l := SummaryWho(s);
    TakeOne(t, l, l[0], l[1..]);
    var t1 := t.(userName := Blanked(s.userName));
    TakeOne(t1, l[1..], l[1], l[2..]);
    var t2 := t1.(userUIC := s.userUIC);
    TakeOne(t2, l[2..], l[2], l[3..]);
    var t3 := t2.(date := s.date);
    TakeOne(t3, l[3..], l[3], l[4..]);
    var t4 := t3.(opSys := s.opSys);
    TakeOne(t4, l[4..], l[4], []);
    TakeNone(t4.(systemVersion := s.systemVersion));
  }

  lemma TakeNone(t: Summary)
    ensures TakeAll(t, []) == t
  {
  }

  lemma WhereTaken(t: Summary, s: Summary)
    ensures TakeAll(t, SummaryWhere(s)) == t.(cpuID := s.cpuID, device := s.device, backupVersion := s.backupVersion)
  {
    LEReadBack(s.cpuID);
    hide LE, Word16, Word32, Word64, TakeAll;
    var l := SummaryWhere(s);
    TakeOne(t, l, l[0], l[1..]);
    var t1 := t.(cpuID := s.cpuID);
    TakeOne(t1, l[1..], l[1], l[2..]);
    var t2 := t1.(device := s.device);
    TakeOne(t2, l[2..], l[2], []);
    TakeNone(t2.(backupVersion := s.backupVersion));
  }

  lemma HowTaken(t: Summary, s: Summary)
    ensures TakeAll(t, SummaryHow(s)) == t.(blockSize := s.blockSize, groupSize := s.groupSize, buffers := s.buffers)
  {
    LEReadBack(s.blockSize);
    LEReadBack(s.groupSize);
    LEReadBack(s.buffers);
    hide LE, Word16, Word32, Word64, TakeAll;
    var l := SummaryHow(s);
    TakeOne(t, l, l[0], l[1..]);
    var t1 := t.(blockSize := s.blockSize);
    TakeOne(t1, l[1..], l[1], l[2..]);
    var t2 := t1.(groupSize := s.groupSize);
    TakeOne(t2, l[2..], l[2], []);
    TakeNone(t2.(buffers := s.buffers));
  }

  /** The summary read back from a summary record: every field as it was, the user name padded. */
  lemma SummaryRoundTrip(s: Summary, n: nat)
    requires AllListable(SummaryList(s))
    ensures ParseSummary(EncodeSummary(s) + Zeros(n)) ==
            ParsedSummary(s.(userName := Blanked(s.userName), list := SummaryList(s)), true)
  {
    ListRoundTrip(SummaryList(s), n);
    hide AttributeList, Encode, SummaryHead, SummaryWho, SummaryWhere, SummaryHow, TakeAll, Blanked, AllListable,
      Optional;
    var t0 := EmptySummary.(list := SummaryList(s));
    var front := SummaryHead(s) + Optional(3, s.comment);
    var middle := front + SummaryWho(s);
    var most := middle + Optional(9, s.nodeName);
    TakeAllAppend(t0, most + SummaryWhere(s), SummaryHow(s));
    TakeAllAppend(t0, most, SummaryWhere(s));
    TakeAllAppend(t0, middle, Optional(9, s.nodeName));
    TakeAllAppend(t0, front, SummaryWho(s));
    TakeAllAppend(t0, SummaryHead(s), Optional(3, s.comment));
    HeadTaken(t0, s);
    var t1 := TakeAll(t0, SummaryHead(s));
    OptionalTaken(t1, 3, s.comment);
    var t2 := TakeAll(t1, Optional(3, s.comment));
    WhoTaken(t2, s);
    var t3 := TakeAll(t2, SummaryWho(s));
    OptionalTaken(t3, 9, s.nodeName);
    var t4 := TakeAll(t3, Optional(9, s.nodeName));
    WhereTaken(t4, s);
    HowTaken(TakeAll(t4, SummaryWhere(s)), s);
  }

  // ---- A file's attributes ----

  type FatArea = b: bytes | |b| == 32 witness Zeros(32)

  datatype Attributes = Attributes(
    name: bytes, structureLevel: uint16, fid: FileID, backLink: FileID, allocation: uint32, owner: uint32,
    protection: uint16, recordProt: uint16, accessLevel: byte, characteristics: uint32, fat: FatArea, revision: uint16,
    created: uint64, revised: uint64, expires: uint64, backup: uint64, dirOwner: uint32, dirProtection: uint16,
    dirVersionLimit: uint16, dirStatus: uint32, versionLimit: uint16, highwater: uint32, journal: byte, ruActive: byte,
    acl: bytes, list: seq<Attribute>)

  const EmptyAttributes: Attributes :=
    Attributes([], 0, [0, 0, 0], [0, 0, 0], 0, 0, 0, 0, 0, 0, Zeros(32), 0, 0, 0, 0, 0, 0, 0, 0, 0, 0, 0, 0, 0, [], [])

  predicate Directory(f: Attributes) {
    f.characteristics / 0x2000 % 2 == 1
  }

  predicate NoBackup(f: Attributes) {
    f.characteristics / 2 % 2 == 1
  }

  /** A block number of the record attributes area, stored high word first. */
  function Swapped(b: bytes, at: nat): uint32
    requires at + 4 <= |b|
  {
    Word(b, at) * 0x1_0000 + Word(b, at + 2)
  }

  function HighBlock(f: Attributes): uint32 {
    Swapped(f.fat, 4)
  }

  function EndBlock(f: Attributes): uint32 {
    Swapped(f.fat, 8)
  }

  function FirstFreeByte(f: Attributes): uint16 {
    Word(f.fat, 12)
  }

  /** How many blocks the file's data uses. */
  function Used(f: Attributes): uint32 {
    if EndBlock(f) == 0 then HighBlock(f)
    else if FirstFreeByte(f) == 0 then EndBlock(f) - 1
    else EndBlock(f)
  }

  // The attributes in the order EncodeAttributes writes them.

  function FileNames(f: Attributes): seq<Attribute> {
    [Attribute(42, f.name), Attribute(43, LE(f.structureLevel, 2)), Attribute(44, Triple(f.fid))]
  }

  function FileSizes(f: Attributes): seq<Attribute> {
    [Attribute(46, LE(f.allocation, 4)), Attribute(47, LE(f.owner, 4)), Attribute(52, f.fat)]
  }

  function FileRights(f: Attributes): seq<Attribute> {
    [Attribute(45, Triple(f.backLink)), Attribute(48, LE(f.protection, 2)), Attribute(49, LE(f.recordProt, 2))]
  }

  function FileKinds(f: Attributes): seq<Attribute> {
    [Attribute(50, [f.accessLevel]), Attribute(51, LE(f.characteristics, 4)), Attribute(75, LE(f.versionLimit, 2))]
  }

  function FileMarks(f: Attributes): seq<Attribute> {
    [Attribute(80, [f.journal]), Attribute(87, [f.ruActive]), Attribute(79, LE(f.highwater, 4))]
  }

  function FileDates(f: Attributes): seq<Attribute> {
    [Attribute(53, LE(f.revision, 2)), Attribute(54, LE(f.created, 8)), Attribute(55, LE(f.revised, 8))]
  }

  function FileEnds(f: Attributes): seq<Attribute> {
    [Attribute(56, LE(f.expires, 8)), Attribute(57, LE(f.backup, 8)), Attribute(71, LE(f.dirOwner, 4))]
  }

  function FileDirectory(f: Attributes): seq<Attribute> {
    [Attribute(72, LE(f.dirProtection, 2)), Attribute(74, LE(f.dirVersionLimit, 2))]
  }

  /** Only a directory's list has its status, a byte. */
  function FileStatus(f: Attributes): seq<Attribute> {
    if Directory(f) then [Attribute(73, [ByteOf(f.dirStatus % 256)])] else []
  }

  function FileFront(f: Attributes): seq<Attribute> {
    FileNames(f) + FileSizes(f) + FileRights(f) + FileKinds(f)
  }

  function FileBack(f: Attributes): seq<Attribute> {
    FileMarks(f) + FileDates(f) + FileEnds(f) + FileDirectory(f)
  }

  function FileList(f: Attributes): seq<Attribute> {
    FileFront(f) + FileBack(f) + FileStatus(f) + Optional(78, f.acl)
  }

  function EncodeAttributes(f: Attributes): bytes {
    Encode(FileList(f))
  }

  /** fileID: the words of value that are there. */
  function FileIDOf(value: bytes): FileID {
    [if |value| >= 2 then Word(value, 0) else 0, if |value| >= 4 then Word(value, 2) else 0,
     if |value| >= 6 then Word(value, 4) else 0]
  }

  function LowByte(v: bytes): byte {
    if v == [] then 0 else v[0]
  }

  /** copy into the area: as much of v as fits. */
  function Copied(area: FatArea, v: bytes): FatArea {
    if |v| >= 32 then v[..32] else v + area[|v|..]
  }

  function TakeAttribute(f: Attributes, a: Attribute): Attributes {
    var v := a.value;
    match a.kind
    case 42 => f.(name := v)
    case 43 => f.(structureLevel := Word16(v))
    case 44 => f.(fid := FileIDOf(v))
    case 45 => f.(backLink := FileIDOf(v))
    case 46 => f.(allocation := Word32(v))
    case 47 => f.(owner := Word32(v))
    case 48 => f.(protection := Word16(v))
    case 49 => f.(recordProt := Word16(v))
    case 50 => f.(accessLevel := LowByte(v))
    case 51 => f.(characteristics := Word32(v))
    case 52 => f.(fat := Copied(f.fat, v))
    case 53 => f.(revision := Word16(v))
    case 54 => f.(created := Word64(v))
    case 55 => f.(revised := Word64(v))
    case 56 => f.(expires := Word64(v))
    case 57 => f.(backup := Word64(v))
    case 71 => f.(dirOwner := Word32(v))
    case 72 => f.(dirProtection := Word16(v))
    case 73 => f.(dirStatus := Word32(v))
    case 74 => f.(dirVersionLimit := Word16(v))
    case 75 => f.(versionLimit := Word16(v))
    case 78 => f.(acl := f.acl + v)
    case 79 => f.(highwater := Word32(v))
    case 80 => f.(journal := LowByte(v))
    case 87 => f.(ruActive := LowByte(v))
    case _ => f
  }

  function TakeEach(f: Attributes, list: seq<Attribute>): Attributes
    decreases |list|
  {
    if list == [] then f else TakeEach(TakeAttribute(f, list[0]), list[1..])
  }

  datatype ParsedAttributes = ParsedAttributes(attrs: Attributes, ok: bool)

  function ParseAttributes(body: bytes): ParsedAttributes {
    var l := AttributeList(body);
    ParsedAttributes(TakeEach(EmptyAttributes.(list := l.list), l.list), l.ok)
  }

  lemma {:induction false} TakeEachAppend(f: Attributes, x: seq<Attribute>, y: seq<Attribute>)
    ensures TakeEach(f, x + y) == TakeEach(TakeEach(f, x), y)
    decreases |x|
  {
    hide TakeAttribute;
    if x == [] {
      assert x + y == y;
    } else {
      assert (x + y)[1..] == x[1..] + y;
      TakeEachAppend(TakeAttribute(f, x[0]), x[1..], y);
    }
  }

  lemma TakeNext(f: Attributes, list: seq<Attribute>, a: Attribute, rest: seq<Attribute>)
    requires list == [a] + rest
    ensures TakeEach(f, list) == TakeEach(TakeAttribute(f, a), rest)
  {
    hide TakeAttribute;
    assert list[1..] == rest;
  }

  lemma FileIDReadsBack(id: FileID)
    ensures FileIDOf(Triple(id)) == id
  {
    hide LE, Word;
    var v := Triple(id);
    assert Field(v, 0, 6) == v;
    TripleOfBlock(v, 0, id);
  }

  lemma TakeTwo(f: Attributes, a: Attribute, b: Attribute)
    ensures TakeEach(f, [a, b]) == TakeAttribute(TakeAttribute(f, a), b)
  {
    hide TakeAttribute;
    TakeNext(f, [a, b], a, [b]);
    TakeNext(TakeAttribute(f, a), [b], b, []);
  }

  lemma TakeThree(f: Attributes, a: Attribute, b: Attribute, c: Attribute)
    ensures TakeEach(f, [a, b, c]) == TakeAttribute(TakeAttribute(TakeAttribute(f, a), b), c)
  {
    hide TakeAttribute;
    TakeNext(f, [a, b, c], a, [b, c]);
    TakeTwo(TakeAttribute(f, a), b, c);
  }

  lemma NamesTaken(t: Attributes, f: Attributes)
    ensures TakeEach(t, FileNames(f)) == t.(name := f.name, structureLevel := f.structureLevel, fid := f.fid)
  {
    LEReadBack(f.structureLevel);
    FileIDReadsBack(f.fid);
    hide LE, Word16, Word32, Word64, TakeEach, FileIDOf, Triple;
    var l := FileNames(f);
    TakeThree(t, l[0], l[1], l[2]);
  }

  lemma SizesTaken(t: Attributes, f: Attributes)
    ensures TakeEach(t, FileSizes(f)) == t.(allocation := f.allocation, owner := f.owner, fat := f.fat)
  {
    LEReadBack(f.allocation);
    LEReadBack(f.owner);
    assert f.fat[..32] == f.fat;
    hide LE, Word16, Word32, Word64, TakeEach, FileIDOf, Triple;
    var l := FileSizes(f);
    TakeThree(t, l[0], l[1], l[2]);
  }

  lemma RightsTaken(t: Attributes, f: Attributes)
    ensures TakeEach(t, FileRights(f)) == t.(backLink := f.backLink, protection := f.protection,
              recordProt := f.recordProt)
  {
    FileIDReadsBack(f.backLink);
    LEReadBack(f.protection);
    LEReadBack(f.recordProt);
    hide LE, Word16, Word32, Word64, TakeEach, FileIDOf, Triple;
    var l := FileRights(f);
    TakeThree(t, l[0], l[1], l[2]);
  }

  lemma KindsTaken(t: Attributes, f: Attributes)
    ensures TakeEach(t, FileKinds(f)) == t.(accessLevel := f.accessLevel, characteristics := f.characteristics,
              versionLimit := f.versionLimit)
  {
    LEReadBack(f.characteristics);
    LEReadBack(f.versionLimit);
    hide LE, Word16, Word32, Word64, TakeEach, FileIDOf, Triple;
    var l := FileKinds(f);
    TakeThree(t, l[0], l[1], l[2]);
  }

  lemma MarksTaken(t: Attributes, f: Attributes)
    ensures TakeEach(t, FileMarks(f)) == t.(journal := f.journal, ruActive := f.ruActive, highwater := f.highwater)
  {
    LEReadBack(f.highwater);
    hide LE, Word16, Word32, Word64, TakeEach, FileIDOf, Triple;
    var l := FileMarks(f);
    TakeThree(t, l[0], l[1], l[2]);
  }

  lemma DatesTaken(t: Attributes, f: Attributes)
    ensures TakeEach(t, FileDates(f)) == t.(revision := f.revision, created := f.created, revised := f.revised)
  {
    LEReadBack(f.revision);
    LEReadBack(f.created);
    LEReadBack(f.revised);
    hide LE, Word16, Word32, Word64, TakeEach, FileIDOf, Triple;
    var l := FileDates(f);
    TakeThree(t, l[0], l[1], l[2]);
  }

  lemma EndsTaken(t: Attributes, f: Attributes)
    ensures TakeEach(t, FileEnds(f)) == t.(expires := f.expires, backup := f.backup, dirOwner := f.dirOwner)
  {
    LEReadBack(f.expires);
    LEReadBack(f.backup);
    LEReadBack(f.dirOwner);
    hide LE, Word16, Word32, Word64, TakeEach, FileIDOf, Triple;
    var l := FileEnds(f);
    TakeThree(t, l[0], l[1], l[2]);
  }

  lemma DirectoryTaken(t: Attributes, f: Attributes)
    ensures TakeEach(t, FileDirectory(f)) == t.(dirProtection := f.dirProtection, dirVersionLimit := f.dirVersionLimit)
  {
    LEReadBack(f.dirProtection);
    LEReadBack(f.dirVersionLimit);
    hide LE, Word16, Word32, Word64, TakeEach, FileIDOf, Triple;
    var l := FileDirectory(f);
    TakeTwo(t, l[0], l[1]);
  }

  lemma FrontTaken(t: Attributes, f: Attributes)
    ensures TakeEach(t, FileFront(f)) ==
            t.(name := f.name, structureLevel := f.structureLevel, fid := f.fid, allocation := f.allocation,
               owner := f.owner, fat := f.fat, backLink := f.backLink, protection := f.protection,
               recordProt := f.recordProt, accessLevel := f.accessLevel, characteristics := f.characteristics,
               versionLimit := f.versionLimit)
  {
    hide TakeEach, FileNames, FileSizes, FileRights, FileKinds;
    TakeEachAppend(t, FileNames(f) + FileSizes(f) + FileRights(f), FileKinds(f));
    TakeEachAppend(t, FileNames(f) + FileSizes(f), FileRights(f));
    TakeEachAppend(t, FileNames(f), FileSizes(f));
    NamesTaken(t, f);
    var t1 := TakeEach(t, FileNames(f));
    SizesTaken(t1, f);
    var t2 := TakeEach(t1, FileSizes(f));
    RightsTaken(t2, f);
    var t3 := TakeEach(t2, FileRights(f));
    KindsTaken(t3, f);
  }

  lemma BackTaken(t: Attributes, f: Attributes)
    ensures TakeEach(t, FileBack(f)) ==
            t.(journal := f.journal, ruActive := f.ruActive, highwater := f.highwater, revision := f.revision,
               created := f.created, revised := f.revised, expires := f.expires, backup := f.backup,
               dirOwner := f.dirOwner, dirProtection := f.dirProtection, dirVersionLimit := f.dirVersionLimit)
  {
    hide TakeEach, FileMarks, FileDates, FileEnds, FileDirectory;
    TakeEachAppend(t, FileMarks(f) + FileDates(f) + FileEnds(f), FileDirectory(f));
    TakeEachAppend(t, FileMarks(f) + FileDates(f), FileEnds(f));
    TakeEachAppend(t, FileMarks(f), FileDates(f));
    MarksTaken(t, f);
    var t1 := TakeEach(t, FileMarks(f));
    DatesTaken(t1, f);
    var t2 := TakeEach(t1, FileDates(f));
    EndsTaken(t2, f);
    var t3 := TakeEach(t2, FileEnds(f));
    DirectoryTaken(t3, f);
  }

  lemma StatusTaken(t: Attributes, f: Attributes)
    ensures TakeEach(t, FileStatus(f)) == if Directory(f) then t.(dirStatus := f.dirStatus % 256) else t
  {
    if Directory(f) {
      var v := [ByteOf(f.dirStatus % 256)];
      assert v[1..] == [];
      assert Unsigned(v[1..]) == 0;
      assert Word32(v) == f.dirStatus % 256;
      hide ByteOf, Word32;
      TakeNext(t, FileStatus(f), Attribute(73, v), []);
    }
  }

  lemma AclTaken(t: Attributes, f: Attributes)
    ensures TakeEach(t, Optional(78, f.acl)) == t.(acl := t.acl + f.acl)
  {
    if f.acl == [] {
      assert t.acl + f.acl == t.acl;
    } else {
      TakeNext(t, Optional(78, f.acl), Attribute(78, f.acl), []);
    }
  }

  /** What a save set keeps of a file's attributes: a directory's status only, and of that a byte. */
  function Kept(f: Attributes): Attributes {
    f.(dirStatus := if Directory(f) then f.dirStatus % 256 else 0, list := FileList(f))
  }

  /** The attributes read back from a file record. */
  lemma AttributesRoundTrip(f: Attributes, n: nat)
    requires AllListable(FileList(f))
    ensures ParseAttributes(EncodeAttributes(f) + Zeros(n)) == ParsedAttributes(Kept(f), true)
  {
    ListRoundTrip(FileList(f), n);
    hide AttributeList, Encode, FileFront, FileBack, FileStatus, TakeEach, AllListable, Optional, Directory;
    var t0 := EmptyAttributes.(list := FileList(f));
    var main := FileFront(f) + FileBack(f);
    TakeEachAppend(t0, main + FileStatus(f), Optional(78, f.acl));
    TakeEachAppend(t0, main, FileStatus(f));
    TakeEachAppend(t0, FileFront(f), FileBack(f));
    FrontTaken(t0, f);
    var t1 := TakeEach(t0, FileFront(f));
    BackTaken(t1, f);
    var t2 := TakeEach(t1, FileBack(f));
    StatusTaken(t2, f);
    var t3 := TakeEach(t2, FileStatus(f));
    AclTaken(t3, f);
    assert t3.acl + f.acl == f.acl;
  }

  // ---- A list whose encoding is short has only short values ----

  predicate Kinded(list: seq<Attribute>) {
    forall i :: 0 <= i < |list| ==> list[i].kind != 0
  }

  lemma {:induction false} ListableBytes(list: seq<Attribute>)
    requires Kinded(list) && |ListBytes(list)| < 0x1_0000
    ensures AllListable(list)
  {
    if list != [] {
      hide EntryBytes;
      ListableBytes(list[1..]);
      assert forall i :: 0 < i < |list| ==> list[i] == list[1..][i - 1];
    }
  }

  lemma ListableFile(f: Attributes)
    requires |EncodeAttributes(f)| < 0x1_0000
    ensures AllListable(FileList(f))
  {
    assert Kinded(FileFront(f));
    assert Kinded(FileBack(f)) && Kinded(FileStatus(f) + Optional(78, f.acl));
    hide FileFront, FileBack, FileStatus, Optional;
    ListableBytes(FileList(f));
  }

  lemma ListableSummary(s: Summary)
    requires |EncodeSummary(s)| < 0x1_0000
    ensures AllListable(SummaryList(s))
  {
    ListableBytes(SummaryList(s));
  }

  // ---- The same, as loops ----

  /** parseSummary. */
  method ReadSummary(body: bytes) returns (s: Summary, ok: bool)
    ensures ParsedSummary(s, ok) == ParseSummary(body)
  {
    hide TakeSummary, AttributeList;
    var list;
    list, ok := ParseList(body);
    s := EmptySummary.(list := list);
    for i := 0 to |list|
      invariant TakeAll(EmptySummary.(list := list), list) == TakeAll(s, list[i..])
    {
      assert list[i..][1..] == list[i + 1..];
      s := TakeSummary(s, list[i]);
    }
  }

  /** parseAttributes. */
  method ReadAttributes(body: bytes) returns (f: Attributes, ok: bool)
    ensures ParsedAttributes(f, ok) == ParseAttributes(body)
  {
    hide TakeAttribute, AttributeList;
    var list;
    list, ok := ParseList(body);
    f := EmptyAttributes.(list := list);
    for i := 0 to |list|
      invariant TakeEach(EmptyAttributes.(list := list), list) == TakeEach(f, list[i..])
    {
      assert list[i..][1..] == list[i + 1..];
      f := TakeAttribute(f, list[i]);
    }
  }

  /** unsigned: from the last byte down, in a 64-bit word. */
  method ReadUnsigned(value: bytes) returns (n: uint64)
    ensures n == Word64(value)
  {
    hide ValueOf;
    n := 0;
    for i := |value| downto 0
      invariant n == Unsigned(value[i..]) % 0x1_0000_0000_0000_0000
    {
      assert value[i..][1..] == value[i + 1..];
      ShiftedIn(n, ValueOf(value[i]), Unsigned(value[i + 1..]));
      n := (n * 256 + ValueOf(value[i])) % 0x1_0000_0000_0000_0000;
    }
    assert value[0..] == value;
  }

  lemma ShiftedIn(n: nat, b: nat, u: nat)
    requires n == u % 0x1_0000_0000_0000_0000
    ensures (n * 256 + b) % 0x1_0000_0000_0000_0000 == (b + 256 * u) % 0x1_0000_0000_0000_0000
  {
    var q := u / 0x1_0000_0000_0000_0000;
    assert u == q * 0x1_0000_0000_0000_0000 + n;
    assert b + 256 * u == (n * 256 + b) + 256 * q * 0x1_0000_0000_0000_0000;
  }
}
