/** The bytes of every 9P message, written out (crates/rs9p/src/serialize.rs, `Msg`; crates/rs9p/src/fcall.rs,
    `MsgType`): its type, its tag, and its fields in order, each by its width, least significant byte first. The
    encoder, which goes by tables of kinds, is proved to produce these bytes. */
module NinePLayout {
  import opened Common
  import opened Wire
  import opened NineP
  import opened NinePCodec

  // ----- fields -----

  /** A number by its width in bytes, flags by their width and the bits that have a meaning, a string, a block of data, or
      a list. */
  datatype Part =
    | Int1(n: nat) | Int2(n: nat) | Int4(n: nat) | Int8(n: nat)
    | Bits1(n: nat, known: nat) | Bits4(n: nat, known: nat) | Bits8(n: nat, known: nat)
    | Chars(bytes: seq<byte>) | Block(bytes: seq<byte>)
    | NameList(names: seq<Text>) | QIdList(qids: seq<QId>) | EntryList(entries: seq<DirEntry>)

  function Low(x: nat): byte { (x % 256) as byte }

  function Bytes2(x: nat): seq<byte> { [Low(x), Low(x / 0x100)] }

  function Bytes4(x: nat): seq<byte> { [Low(x), Low(x / 0x100), Low(x / 0x1_0000), Low(x / 0x100_0000)] }

  function Bytes8(x: nat): seq<byte> {
    [Low(x), Low(x / 0x100), Low(x / 0x1_0000), Low(x / 0x100_0000),
     Low(x / 0x1_0000_0000), Low(x / 0x100_0000_0000), Low(x / 0x1_0000_0000_0000), Low(x / 0x100_0000_0000_0000)]
  }

  function NameBytes(names: seq<Text>): seq<byte> {
    if names == [] then [] else Bytes2(|names[0]|) + names[0] + NameBytes(names[1..])
  }

  function QIdBytes(q: QId): seq<byte> { [Low(q.typ)] + Bytes4(q.version) + Bytes8(q.path) }

  function AllQIdBytes(qids: seq<QId>): seq<byte> {
    if qids == [] then [] else QIdBytes(qids[0]) + AllQIdBytes(qids[1..])
  }

  function EntryBytes(e: DirEntry): seq<byte> {
    QIdBytes(e.qid) + Bytes8(e.offset) + [Low(e.typ)] + Bytes2(|e.name|) + e.name
  }

  function AllEntryBytes(entries: seq<DirEntry>): seq<byte> {
    if entries == [] then [] else EntryBytes(entries[0]) + AllEntryBytes(entries[1..])
  }

  /** Strings and lists are led by how many they hold; data and directory entries by their bytes. */
  function Bytes(p: Part): seq<byte> {
    match p
    case Int1(n) => [Low(n)]
    case Int2(n) => Bytes2(n)
    case Int4(n) => Bytes4(n)
    case Int8(n) => Bytes8(n)
    case Bits1(n, _) => [Low(n)]
    case Bits4(n, _) => Bytes4(n)
    case Bits8(n, _) => Bytes8(n)
    case Chars(bytes) => Bytes2(|bytes|) + bytes
    case Block(bytes) => Bytes4(|bytes|) + bytes
    case NameList(names) => Bytes2(|names|) + NameBytes(names)
    case QIdList(qids) => Bytes2(|qids|) + AllQIdBytes(qids)
    case EntryList(entries) => Bytes4(|AllEntryBytes(entries)|) + AllEntryBytes(entries)
  }

  predicate InRangeQId(q: QId) { q.typ < 0x100 && q.version < 0x1_0000_0000 && q.path < 0x1_0000_0000_0000_0000 }

  predicate InRangeText(s: seq<byte>) { |s| < 0x1_0000 && Utf8(s) }

  predicate InRangeEntry(e: DirEntry) {
    InRangeQId(e.qid) && e.offset < 0x1_0000_0000_0000_0000 && e.typ < 0x100 && InRangeText(e.name)
  }

  /** Numbers within their width, flags among the known ones, lengths and counts within theirs, strings UTF-8. */
  predicate InRange(p: Part) {
    match p
    case Int1(n) => n < 0x100
    case Int2(n) => n < 0x1_0000
    case Int4(n) => n < 0x1_0000_0000
    case Int8(n) => n < 0x1_0000_0000_0000_0000
    case Bits1(n, known) => n <= known && n < 0x100
    case Bits4(n, known) => n <= known && n < 0x1_0000_0000
    case Bits8(n, known) => n <= known && n < 0x1_0000_0000_0000_0000
    case Chars(bytes) => InRangeText(bytes)
    case Block(bytes) => |bytes| < 0x1_0000_0000
    case NameList(names) => |names| < 0x1_0000 && forall s :: s in names ==> InRangeText(s)
    case QIdList(qids) => |qids| < 0x1_0000 && forall q :: q in qids ==> InRangeQId(q)
    case EntryList(entries) =>
      |AllEntryBytes(entries)| < 0x1_0000_0000 && forall e :: e in entries ==> InRangeEntry(e)
  }

  function Joined(parts: seq<Part>): seq<byte> { if parts == [] then [] else Bytes(parts[0]) + Joined(parts[1..]) }

  // ----- records inside messages -----

  function QIdParts(q: QId): seq<Part> { [Int1(q.typ), Int4(q.version), Int8(q.path)] }

  function StatFsParts(s: StatFs): seq<Part> {
    [Int4(s.typ), Int4(s.bsize), Int8(s.blocks), Int8(s.bfree), Int8(s.bavail),
     Int8(s.files), Int8(s.ffree), Int8(s.fsid), Int4(s.namelen)]
  }

  function StatParts(s: Stat): seq<Part> {
    [Int4(s.mode), Int4(s.uid), Int4(s.gid), Int8(s.nlink), Int8(s.rdev),
     Int8(s.size), Int8(s.blksize), Int8(s.blocks), Int8(s.atime.sec), Int8(s.atime.nsec),
     Int8(s.mtime.sec), Int8(s.mtime.nsec), Int8(s.ctime.sec), Int8(s.ctime.nsec)]
  }

  function SetAttrParts(s: SetAttr): seq<Part> {
    [Int4(s.mode), Int4(s.uid), Int4(s.gid), Int8(s.size),
     Int8(s.atime.sec), Int8(s.atime.nsec), Int8(s.mtime.sec), Int8(s.mtime.nsec)]
  }

  function FlockParts(l: Flock): seq<Part> {
    [Bits1(l.typ, 3), Bits4(l.flags, 3), Int8(l.start), Int8(l.length), Int4(l.procId), Chars(l.clientId)]
  }

  function GetlockParts(l: Getlock): seq<Part> {
    [Bits1(l.typ, 3), Int8(l.start), Int8(l.length), Int4(l.procId), Chars(l.clientId)]
  }

  // ----- messages: the number of the type, and the fields -----

  function OpeningLayout(f: FCall): (nat, seq<Part>) {
    match f
    case RlError(ecode) => (7, [Int4(ecode)])
    case TStatFs(fid) => (8, [Int4(fid)])
    case RStatFs(statfs) => (9, StatFsParts(statfs))
    case TlOpen(fid, flags) => (12, [Int4(fid), Int4(flags)])
    case RlOpen(qid, iounit) => (13, QIdParts(qid) + [Int4(iounit)])
    case _ => (0, [])
  }

  function CreatingLayout(f: FCall): (nat, seq<Part>) {
    match f
    case TlCreate(fid, name, flags, mode, gid) => (14, [Int4(fid), Chars(name), Int4(flags), Int4(mode), Int4(gid)])
    case RlCreate(qid, iounit) => (15, QIdParts(qid) + [Int4(iounit)])
    case TSymlink(fid, name, symtgt, gid) => (16, [Int4(fid), Chars(name), Chars(symtgt), Int4(gid)])
    case RSymlink(qid) => (17, QIdParts(qid))
    case _ => (0, [])
  }

  function LinkingLayout(f: FCall): (nat, seq<Part>) {
    match f
    case TMkNod(dfid, name, mode, major, minor, gid) =>
      (18, [Int4(dfid), Chars(name), Int4(mode), Int4(major), Int4(minor), Int4(gid)])
    case RMkNod(qid) => (19, QIdParts(qid))
    case TRename(fid, dfid, name) => (20, [Int4(fid), Int4(dfid), Chars(name)])
    case RRename => (21, [])
    case TReadLink(fid) => (22, [Int4(fid)])
    case RReadLink(target) => (23, [Chars(target)])
    case TGetAttr(fid, mask) => (24, [Int4(fid), Bits8(mask, 0x3FFF)])
    case _ => (0, [])
  }

  function AttributesLayout(f: FCall): (nat, seq<Part>) {
    match f
    case RGetAttr(mask, qid, stat) =>
      (25, [Bits8(mask, 0x3FFF)] + QIdParts(qid) + StatParts(stat) + [Int8(0), Int8(0), Int8(0), Int8(0)])
    case _ => (0, [])
  }

  function ExtendingLayout(f: FCall): (nat, seq<Part>) {
    match f
    case TSetAttr(fid, valid, attr) => (26, [Int4(fid), Bits4(valid, 0x1FF)] + SetAttrParts(attr))
    case RSetAttr => (27, [])
    case TxAttrWalk(fid, newfid, name) => (30, [Int4(fid), Int4(newfid), Chars(name)])
    case RxAttrWalk(size) => (31, [Int8(size)])
    case TxAttrCreate(fid, name, attrSize, flags) => (32, [Int4(fid), Chars(name), Int8(attrSize), Int4(flags)])
    case RxAttrCreate => (33, [])
    case _ => (0, [])
  }

  function ListingLayout(f: FCall): (nat, seq<Part>) {
    match f
    case TReadDir(fid, offset, count) => (40, [Int4(fid), Int8(offset), Int4(count)])
    case RReadDir(entries) => (41, [EntryList(entries)])
    case _ => (0, [])
  }

  function LockingLayout(f: FCall): (nat, seq<Part>) {
    match f
    case TFSync(fid) => (50, [Int4(fid)])
    case RFSync => (51, [])
    case TLock(fid, flock) => (52, [Int4(fid)] + FlockParts(flock))
    case RLock(status) => (53, [Bits1(status, 3)])
    case _ => (0, [])
  }

  function TestingLayout(f: FCall): (nat, seq<Part>) {
    match f
    case TGetLock(fid, getlock) => (54, [Int4(fid)] + GetlockParts(getlock))
    case RGetLock(getlock) => (55, GetlockParts(getlock))
    case TLink(dfid, fid, name) => (70, [Int4(dfid), Int4(fid), Chars(name)])
    case RLink => (71, [])
    case _ => (0, [])
  }

  function NamingLayout(f: FCall): (nat, seq<Part>) {
    match f
    case TMkDir(dfid, name, mode, gid) => (72, [Int4(dfid), Chars(name), Int4(mode), Int4(gid)])
    case RMkDir(qid) => (73, QIdParts(qid))
    case TRenameAt(olddirfid, oldname, newdirfid, newname) =>
      (74, [Int4(olddirfid), Chars(oldname), Int4(newdirfid), Chars(newname)])
    case RRenameAt => (75, [])
    case TUnlinkAt(dirfd, name, flags) => (76, [Int4(dirfd), Chars(name), Int4(flags)])
    case RUnlinkAt => (77, [])
    case TVersion(msize, version) => (100, [Int4(msize), Chars(version)])
    case _ => (0, [])
  }

  function AttachingLayout(f: FCall): (nat, seq<Part>) {
    match f
    case RVersion(msize, version) => (101, [Int4(msize), Chars(version)])
    case TAuth(afid, uname, aname, nUname) => (102, [Int4(afid), Chars(uname), Chars(aname), Int4(nUname)])
    case RAuth(aqid) => (103, QIdParts(aqid))
    case TAttach(fid, afid, uname, aname, nUname) =>
      (104, [Int4(fid), Int4(afid), Chars(uname), Chars(aname), Int4(nUname)])
    case RAttach(qid) => (105, QIdParts(qid))
    case TFlush(oldtag) => (108, [Int2(oldtag)])
    case RFlush => (109, [])
    case _ => (0, [])
  }

  function WalkingLayout(f: FCall): (nat, seq<Part>) {
    match f
    case TWalk(fid, newfid, wnames) => (110, [Int4(fid), Int4(newfid), NameList(wnames)])
    case RWalk(wqids) => (111, [QIdList(wqids)])
    case _ => (0, [])
  }

  function BasicLayout(f: FCall): (nat, seq<Part>) {
    match f
    case TRead(fid, offset, count) => (116, [Int4(fid), Int8(offset), Int4(count)])
    case RRead(data) => (117, [Block(data)])
    case TWrite(fid, offset, data) => (118, [Int4(fid), Int8(offset), Block(data)])
    case RWrite(count) => (119, [Int4(count)])
    case TClunk(fid) => (120, [Int4(fid)])
    case RClunk => (121, [])
    case TRemove(fid) => (122, [Int4(fid)])
    case RRemove => (123, [])
    case _ => (0, [])
  }

  function Layout(f: FCall): (nat, seq<Part>) {
    match GroupOf(Code(f))
    case Opening => OpeningLayout(f)
    case Creating => CreatingLayout(f)
    case Linking => LinkingLayout(f)
    case Attributes => AttributesLayout(f)
    case Extending => ExtendingLayout(f)
    case Listing => ListingLayout(f)
    case Locking => LockingLayout(f)
    case Testing => TestingLayout(f)
    case Naming => NamingLayout(f)
    case Attaching => AttachingLayout(f)
    case Walking => WalkingLayout(f)
    case Basic => BasicLayout(f)
  }

  // ----- the encoder writes them -----

  lemma Places8()
    ensures Pow256(0) == 1 && Pow256(1) == 0x100 && Pow256(2) == 0x1_0000 && Pow256(3) == 0x100_0000
    ensures Pow256(4) == 0x1_0000_0000 && Pow256(5) == 0x100_0000_0000 && Pow256(6) == 0x1_0000_0000_0000
    ensures Pow256(7) == 0x100_0000_0000_0000 && Pow256(8) == 0x1_0000_0000_0000_0000
  {
    assert Pow256(2) == 0x1_0000;
    assert Pow256(4) == 0x1_0000_0000;
    assert Pow256(6) == 0x1_0000_0000_0000;
  }

  lemma DigitIs(x: nat, n: nat, i: nat)
    requires i < n
    ensures Pow256(i) > 0 && Le(x, n)[i] == Low(x / Pow256(i))
  {
    LeByte(x, n, i);
  }

  lemma Width2(x: nat)
    ensures Le(x, 1) == [Low(x)] && Le(x, 2) == Bytes2(x)
  {
    Places8();
    DigitIs(x, 1, 0);
    DigitIs(x, 2, 0);
    DigitIs(x, 2, 1);
  }

  lemma Width4(x: nat)
    ensures Le(x, 4) == Bytes4(x)
  {
    Places8();
    DigitIs(x, 4, 0);
    DigitIs(x, 4, 1);
    DigitIs(x, 4, 2);
    DigitIs(x, 4, 3);
  }

  lemma Width8(x: nat)
    ensures Le(x, 8) == Bytes8(x)
  {
    Places8();
    DigitIs(x, 8, 0);
    DigitIs(x, 8, 1);
    DigitIs(x, 8, 2);
    DigitIs(x, 8, 3);
    DigitIs(x, 8, 4);
    DigitIs(x, 8, 5);
    DigitIs(x, 8, 6);
    DigitIs(x, 8, 7);
  }

  lemma {:induction false} NamesAre(names: seq<Text>)
    ensures EncodeRows([Str], TextRows(names)) == NameBytes(names)
    decreases |names|
  {
    if names != [] {
      NamesAre(names[1..]);
      assert TextRows(names)[1..] == TextRows(names[1..]);
      Width2(|names[0]|);
      RowTail([Str], [Raw(names[0])]);
    }
  }

  /** The atoms of a row, one after the other. */
  lemma RowIs(row: Row, a: Atoms, first: seq<byte>, rest: seq<byte>)
    requires row != [] && a != [] && EncodeAtom(row[0], a[0]) == first && EncodeRow(row[1..], a[1..]) == rest
    ensures EncodeRow(row, a) == first + rest
  {
  }

  lemma QIdIs(q: QId)
    ensures EncodeRow(QID_ROW, QIdAtoms(q)) == QIdBytes(q)
  {
    var row, a := QID_ROW, QIdAtoms(q);
    Width2(q.typ);
    Width4(q.version);
    Width8(q.path);
    RowIs(row[2..], a[2..], Bytes8(q.path), []);
    RowIs(row[1..], a[1..], Bytes4(q.version), Bytes8(q.path) + []);
    RowIs(row, a, [Low(q.typ)], Bytes4(q.version) + (Bytes8(q.path) + []));
    assert QIdBytes(q) == [Low(q.typ)] + (Bytes4(q.version) + (Bytes8(q.path) + []));
  }

  lemma {:induction false} QIdsAre(qids: seq<QId>)
    ensures EncodeRows(QID_ROW, QIdRows(qids)) == AllQIdBytes(qids)
    decreases |qids|
  {
    if qids != [] {
      QIdsAre(qids[1..]);
      assert QIdRows(qids)[1..] == QIdRows(qids[1..]);
      QIdIs(qids[0]);
    }
  }

  lemma {:induction false} RowJoin(row: Row, a: Atoms, row': Row, a': Atoms)
    requires |row| == |a|
    ensures EncodeRow(row + row', a + a') == EncodeRow(row, a) + EncodeRow(row', a')
    decreases |row|
  {
    if row == [] {
      assert row + row' == row' && a + a' == a';
    } else {
      RowJoin(row[1..], a[1..], row', a');
      Dropped(row, row');
      Dropped(a, a');
      var first, rest, more := EncodeAtom(row[0], a[0]), EncodeRow(row[1..], a[1..]), EncodeRow(row', a');
      RowIs(row + row', a + a', first, rest + more);
      Regroup(first, rest, more);
    }
  }

  lemma Dropped<T>(s: seq<T>, t: seq<T>)
    requires s != []
    ensures (s + t)[1..] == s[1..] + t && (s + t)[0] == s[0]
  {
  }

  lemma EntryIs(e: DirEntry)
    ensures EncodeRow(ENTRY_ROW, EntryAtoms(e)) == EntryBytes(e)
  {
    QIdIs(e.qid);
    RestIs(e);
    RowJoin(QID_ROW, QIdAtoms(e.qid), [Uint(W8), Uint(W1), Str], [Num(e.offset), Num(e.typ), Raw(e.name)]);
    assert EntryBytes(e) == QIdBytes(e.qid) + RestBytes(e);
  }

  /** What follows the identity of an entry. */
  function RestBytes(e: DirEntry): seq<byte> { Bytes8(e.offset) + ([Low(e.typ)] + (Bytes2(|e.name|) + e.name)) }

  lemma RestIs(e: DirEntry)
    ensures EncodeRow([Uint(W8), Uint(W1), Str], [Num(e.offset), Num(e.typ), Raw(e.name)]) == RestBytes(e)
  {
    var row, a := [Uint(W8), Uint(W1), Str], [Num(e.offset), Num(e.typ), Raw(e.name)];
    Width8(e.offset);
    Width2(e.typ);
    Width2(|e.name|);
    var name := Bytes2(|e.name|) + e.name;
    RowIs(row[2..], a[2..], name, []);
    assert name + [] == name;
    RowIs(row[1..], a[1..], [Low(e.typ)], name);
    RowIs(row, a, Bytes8(e.offset), [Low(e.typ)] + name);
  }

  lemma {:induction false} EntriesAre(entries: seq<DirEntry>)
    ensures EncodeRows(ENTRY_ROW, EntryRows(entries)) == AllEntryBytes(entries)
    decreases |entries|
  {
    if entries != [] {
      EntriesAre(entries[1..]);
      assert EntryRows(entries)[1..] == EntryRows(entries[1..]);
      EntryIs(entries[0]);
    }
  }

  /** A field of the layout is the field that the tables put there. */
  predicate Same(p: Part, k: Kind, v: Value) {
    match p
    case Int1(n) => (k == U8 || k == One(Flags(W1, 0xFF))) && v == N(n)
    case Int2(n) => k == U16 && v == N(n)
    case Int4(n) => k == U32 && v == N(n)
    case Int8(n) => k == U64 && v == N(n)
    case Bits1(n, known) => k == One(Flags(W1, known)) && v == N(n)
    case Bits4(n, known) => k == One(Flags(W4, known)) && v == N(n)
    case Bits8(n, known) => k == One(Flags(W8, known)) && v == N(n)
    case Chars(bytes) => k == STRING && v == B(bytes)
    case Block(bytes) => k == DATA && v == B(bytes)
    case NameList(names) => k == STRINGS && v == List(TextRows(names))
    case QIdList(qids) => k == QIDS && v == List(QIdRows(qids))
    case EntryList(entries) => k == ENTRIES && v == List(EntryRows(entries))
  }

  predicate AllSame(parts: seq<Part>, schema: Schema, vs: Values) {
    true == (|parts| == |schema| == |vs| && forall i :: 0 <= i < |parts| ==> Same(parts[i], schema[i], vs[i]))
  }

  /** The layout and the tables agree on a message. */
  predicate Agrees(f: FCall) {
    true == (Layout(f).0 == Code(f) && AllSame(Layout(f).1, SchemaOf(Code(f)), ValuesOf(f)))
  }

  lemma JoinSame(p: seq<Part>, s: Schema, v: Values, p': seq<Part>, s': Schema, v': Values)
    requires AllSame(p, s, v) && AllSame(p', s', v')
    ensures AllSame(p + p', s + s', v + v')
  {
  }

  /** A read, of a file or a directory. */
  lemma ReadSame(fid: nat, offset: nat, count: nat)
    ensures AllSame([Int4(fid), Int8(offset), Int4(count)], [U32, U64, U32], [N(fid), N(offset), N(count)])
  {
  }

  lemma QIdSame(q: QId)
    ensures AllSame(QIdParts(q), QID, OfQId(q))
  {
  }

  lemma StatFsSame(s: StatFs)
    ensures AllSame(StatFsParts(s), STATFS, OfStatFs(s))
  {
  }

  lemma StatSame(s: Stat)
    ensures AllSame(StatParts(s), STAT, OfStat(s))
  {
  }

  lemma SetAttrSame(s: SetAttr)
    ensures AllSame(SetAttrParts(s), SETATTR, OfSetAttr(s))
  {
  }

  lemma FlockSame(l: Flock)
    ensures AllSame(FlockParts(l), FLOCK, OfFlock(l))
  {
  }

  lemma GetlockSame(l: Getlock)
    ensures AllSame(GetlockParts(l), GETLOCK, OfGetlock(l))
  {
  }

  lemma OpeningSame(f: FCall)
    requires IsOpening(f)
    ensures Agrees(f)
  {
    OpeningCode(f);
    if f.RStatFs? { StatFsSame(f.statfs); }
  }

  lemma CreatingSame(f: FCall)
    requires IsCreating(f)
    ensures Agrees(f)
  {
    CreatingCode(f);
  }

  lemma LinkingSame(f: FCall)
    requires IsLinking(f)
    ensures Agrees(f)
  {
    LinkingCode(f);
  }

  lemma AttributesSame(f: FCall)
    requires IsAttributes(f)
    ensures Agrees(f)
  {
    AttributesCode(f);
    var head, stat := [Bits8(f.mask, 0x3FFF)] + QIdParts(f.qid), StatParts(f.stat);
    QIdSame(f.qid);
    StatSame(f.stat);
    JoinSame([Bits8(f.mask, 0x3FFF)], [GETATTR_MASK], [N(f.mask)], QIdParts(f.qid), QID, OfQId(f.qid));
    JoinSame(head, [GETATTR_MASK] + QID, [N(f.mask)] + OfQId(f.qid), stat, STAT, OfStat(f.stat));
    JoinSame(head + stat, [GETATTR_MASK] + QID + STAT, [N(f.mask)] + OfQId(f.qid) + OfStat(f.stat),
      [Int8(0), Int8(0), Int8(0), Int8(0)], [U64, U64, U64, U64], [N(0), N(0), N(0), N(0)]);
  }

  lemma ExtendingSame(f: FCall)
    requires IsExtending(f)
    ensures Agrees(f)
  {
    ExtendingCode(f);
    if f.TSetAttr? {
      SetAttrSame(f.attr);
      JoinSame([Int4(f.fid), Bits4(f.valid, 0x1FF)], [U32, SETATTR_MASK], [N(f.fid), N(f.valid)],
        SetAttrParts(f.attr), SETATTR, OfSetAttr(f.attr));
    }
  }

  lemma ListingSame(f: FCall)
    requires IsListing(f)
    ensures Agrees(f)
  {
    ListingCode(f);
  }

  lemma LockingSame(f: FCall)
    requires IsLocking(f)
    ensures Agrees(f)
  {
    LockingCode(f);
    if f.TLock? {
      FlockSame(f.flock);
      JoinSame([Int4(f.fid)], [U32], [N(f.fid)], FlockParts(f.flock), FLOCK, OfFlock(f.flock));
    }
  }

  lemma TestingSame(f: FCall)
    requires IsTesting(f)
    ensures Agrees(f)
  {
    TestingCode(f);
    if f.TGetLock? {
      GetlockSame(f.getlock);
      JoinSame([Int4(f.fid)], [U32], [N(f.fid)], GetlockParts(f.getlock), GETLOCK, OfGetlock(f.getlock));
    } else if f.RGetLock? {
      GetlockSame(f.getlock);
    }
  }

  lemma NamingSame(f: FCall)
    requires IsNaming(f)
    ensures Agrees(f)
  {
    NamingCode(f);
  }

  lemma AttachingSame(f: FCall)
    requires IsAttaching(f)
    ensures Agrees(f)
  {
    AttachingCode(f);
    if f.RAuth? {
      QIdSame(f.aqid);
    } else if f.RAttach? {
      QIdSame(f.qid);
    }
  }

  lemma WalkingSame(f: FCall)
    requires IsWalking(f)
    ensures Agrees(f)
  {
    WalkingCode(f);
  }

  lemma BasicSame(f: FCall)
    requires IsBasic(f)
    ensures Agrees(f)
  {
    BasicCode(f);
    if f.TRead? {
      ReadSame(f.fid, f.offset, f.count);
    } else if f.TWrite? {
      var parts := [Int4(f.fid), Int8(f.offset), Block(f.data)];
      assert AllSame(parts, [U32, U64, DATA], [N(f.fid), N(f.offset), B(f.data)]);
    }
  }

  /** Every message, field by field. */
  lemma AllAgree(f: FCall)
    ensures Agrees(f)
  {
    if IsOpening(f) {
      OpeningSame(f);
    } else if IsCreating(f) {
      CreatingSame(f);
    } else if IsLinking(f) {
      LinkingSame(f);
    } else if IsAttributes(f) {
      AttributesSame(f);
    } else if IsExtending(f) {
      ExtendingSame(f);
    } else if IsListing(f) {
      ListingSame(f);
    } else if IsLocking(f) {
      LockingSame(f);
    } else if IsTesting(f) {
      TestingSame(f);
    } else if IsNaming(f) {
      NamingSame(f);
    } else if IsAttaching(f) {
      AttachingSame(f);
    } else if IsWalking(f) {
      WalkingSame(f);
    } else {
      BasicSame(f);
    }
  }

  lemma PartIs(p: Part, k: Kind, v: Value)
    requires Same(p, k, v)
    ensures EncodeValue(k, v) == Bytes(p)
  {
    match p
    case Int1(n) => Width2(n);
    case Int2(n) => Width2(n);
    case Int4(n) => Width4(n);
    case Int8(n) => Width8(n);
    case Bits1(n, _) => Width2(n);
    case Bits4(n, _) => Width4(n);
    case Bits8(n, _) => Width8(n);
    case Chars(bytes) => Width2(|bytes|);
    case Block(bytes) => Width4(|bytes|);
    case NameList(names) =>
      Width2(|names|);
      NamesAre(names);
    case QIdList(qids) =>
      Width2(|qids|);
      QIdsAre(qids);
    case EntryList(entries) =>
      EntriesAre(entries);
      Width4(|AllEntryBytes(entries)|);
  }

  lemma {:induction false} PartsAre(parts: seq<Part>, schema: Schema, vs: Values)
    requires AllSame(parts, schema, vs)
    ensures EncodeValues(schema, vs) == Joined(parts)
    decreases |parts|
  {
    if parts != [] {
      PartIs(parts[0], schema[0], vs[0]);
      PartsAre(parts[1..], schema[1..], vs[1..]);
    }
  }

  /** What goes on the wire for any message, byte by byte. */
  lemma MessageBytes(m: Msg)
    ensures EncodeMsg(m) == [Low(Layout(m.body).0)] + Bytes2(m.tag) + Joined(Layout(m.body).1)
  {
    AllAgree(m.body);
    PartsAre(Layout(m.body).1, SchemaOf(Code(m.body)), ValuesOf(m.body));
    BodyIsValues(m.body);
    Width2(Code(m.body));
    Width2(m.tag);
  }

  // ----- and they come back exactly if every field is in range -----

  lemma QIdInRange(q: QId)
    ensures RowFits(QID_ROW, QIdAtoms(q)) <==> InRangeQId(q)
  {
    Places8();
    var row, a := QID_ROW, QIdAtoms(q);
    assert RowFits(row, a) <==> Fits(row[0], a[0]) && Fits(row[1], a[1]) && Fits(row[2], a[2]);
  }

  lemma EntryInRange(e: DirEntry)
    ensures RowFits(ENTRY_ROW, EntryAtoms(e)) <==> InRangeEntry(e)
  {
    Places8();
    QIdInRange(e.qid);
    var row, a := ENTRY_ROW, EntryAtoms(e);
    assert row[..3] == QID_ROW && a[..3] == QIdAtoms(e.qid);
    assert RowFits(row, a) <==> RowFits(row[..3], a[..3]) && Fits(row[3], a[3]) && Fits(row[4], a[4]) && Fits(row[5], a[5]);
  }

  lemma PartInRange(p: Part, k: Kind, v: Value)
    requires Same(p, k, v)
    ensures ValueFits(k, v) <==> InRange(p)
  {
    Places8();
    match p
    case NameList(names) =>
      var rows := TextRows(names);
      forall i | 0 <= i < |rows| ensures RowFits([Str], rows[i]) <==> InRangeText(names[i]) {
        assert RowFits([Str], rows[i]) <==> Fits([Str][0], rows[i][0]);
      }
    case QIdList(qids) =>
      forall i | 0 <= i < |qids| ensures RowFits(QID_ROW, QIdRows(qids)[i]) <==> InRangeQId(qids[i]) { QIdInRange(qids[i]); }
    case EntryList(entries) =>
      EntriesAre(entries);
      forall i | 0 <= i < |entries| ensures RowFits(ENTRY_ROW, EntryRows(entries)[i]) <==> InRangeEntry(entries[i]) {
        EntryInRange(entries[i]);
      }
    case _ =>
  }

  /** A message survives the wire if and only if its tag and every field of its layout are in range. */
  lemma SurvivesIff(m: Msg, tail: Input)
    ensures DecodeMsg(EncodeMsg(m) + tail) == Some((m, tail)) <==>
      m.tag < 0x1_0000 && forall p :: p in Layout(m.body).1 ==> InRange(p)
  {
    RoundTripIff(m, tail);
    AllAgree(m.body);
    Places8();
    var parts, schema, vs := Layout(m.body).1, SchemaOf(Code(m.body)), ValuesOf(m.body);
    forall i | 0 <= i < |parts| ensures ValueFits(schema[i], vs[i]) <==> InRange(parts[i]) {
      PartInRange(parts[i], schema[i], vs[i]);
    }
  }
}
