/** The messages of 9P2000.L (crates/rs9p/src/fcall.rs) and their encoding (crates/rs9p/src/serialize.rs). Each
    message is the list of its fields; a message type fixes the wire form of each field. */
module NineP {
  import opened Common
  import opened Wire

  // ----- the parts of messages -----

  datatype QId = QId(typ: nat, version: nat, path: nat)

  datatype StatFs = StatFs(typ: nat, bsize: nat, blocks: nat, bfree: nat, bavail: nat, files: nat, ffree: nat,
                           fsid: nat, namelen: nat)

  datatype Time = Time(sec: nat, nsec: nat)

  datatype Stat = Stat(mode: nat, uid: nat, gid: nat, nlink: nat, rdev: nat, size: nat, blksize: nat, blocks: nat,
                       atime: Time, mtime: Time, ctime: Time)

  datatype SetAttr = SetAttr(mode: nat, uid: nat, gid: nat, size: nat, atime: Time, mtime: Time)

  datatype DirEntry = DirEntry(qid: QId, offset: nat, typ: nat, name: Text)

  datatype Flock = Flock(typ: nat, flags: nat, start: nat, length: nat, procId: nat, clientId: Text)

  datatype Getlock = Getlock(typ: nat, start: nat, length: nat, procId: nat, clientId: Text)

  datatype FCall =
    | RlError(ecode: nat)
    | TStatFs(fid: nat)
    | RStatFs(statfs: StatFs)
    | TlOpen(fid: nat, flags: nat)
    | RlOpen(qid: QId, iounit: nat)
    | TlCreate(fid: nat, name: Text, flags: nat, mode: nat, gid: nat)
    | RlCreate(qid: QId, iounit: nat)
    | TSymlink(fid: nat, name: Text, symtgt: Text, gid: nat)
    | RSymlink(qid: QId)
    | TMkNod(dfid: nat, name: Text, mode: nat, major: nat, minor: nat, gid: nat)
    | RMkNod(qid: QId)
    | TRename(fid: nat, dfid: nat, name: Text)
    | RRename
    | TReadLink(fid: nat)
    | RReadLink(target: Text)
    | TGetAttr(fid: nat, mask: nat)
    | RGetAttr(mask: nat, qid: QId, stat: Stat)
    | TSetAttr(fid: nat, valid: nat, attr: SetAttr)
    | RSetAttr
    | TxAttrWalk(fid: nat, newfid: nat, name: Text)
    | RxAttrWalk(size: nat)
    | TxAttrCreate(fid: nat, name: Text, attrSize: nat, flags: nat)
    | RxAttrCreate
    | TReadDir(fid: nat, offset: nat, count: nat)
    | RReadDir(entries: seq<DirEntry>)
    | TFSync(fid: nat)
    | RFSync
    | TLock(fid: nat, flock: Flock)
    | RLock(status: nat)
    | TGetLock(fid: nat, getlock: Getlock)
    | RGetLock(getlock: Getlock)
    | TLink(dfid: nat, fid: nat, name: Text)
    | RLink
    | TMkDir(dfid: nat, name: Text, mode: nat, gid: nat)
    | RMkDir(qid: QId)
    | TRenameAt(olddirfid: nat, oldname: Text, newdirfid: nat, newname: Text)
    | RRenameAt
    | TUnlinkAt(dirfd: nat, name: Text, flags: nat)
    | RUnlinkAt
    | TVersion(msize: nat, version: Text)
    | RVersion(msize: nat, version: Text)
    | TAuth(afid: nat, uname: Text, aname: Text, nUname: nat)
    | RAuth(aqid: QId)
    | TAttach(fid: nat, afid: nat, uname: Text, aname: Text, nUname: nat)
    | RAttach(qid: QId)
    | TFlush(oldtag: nat)
    | RFlush
    | TWalk(fid: nat, newfid: nat, wnames: seq<Text>)
    | RWalk(wqids: seq<QId>)
    | TRead(fid: nat, offset: nat, count: nat)
    | RRead(data: seq<byte>)
    | TWrite(fid: nat, offset: nat, data: seq<byte>)
    | RWrite(count: nat)
    | TClunk(fid: nat)
    | RClunk
    | TRemove(fid: nat)
    | RRemove

  datatype Msg = Msg(tag: nat, body: FCall)

  // ----- message types and the wire forms of their fields -----

  function Code(f: FCall): nat {
    match f
    case RlError(_) => 7
    case TStatFs(_) => 8
    case RStatFs(_) => 9
    case TlOpen(_, _) => 12
    case RlOpen(_, _) => 13
    case TlCreate(_, _, _, _, _) => 14
    case RlCreate(_, _) => 15
    case TSymlink(_, _, _, _) => 16
    case RSymlink(_) => 17
    case TMkNod(_, _, _, _, _, _) => 18
    case RMkNod(_) => 19
    case TRename(_, _, _) => 20
    case RRename => 21
    case TReadLink(_) => 22
    case RReadLink(_) => 23
    case TGetAttr(_, _) => 24
    case RGetAttr(_, _, _) => 25
    case TSetAttr(_, _, _) => 26
    case RSetAttr => 27
    case TxAttrWalk(_, _, _) => 30
    case RxAttrWalk(_) => 31
    case TxAttrCreate(_, _, _, _) => 32
    case RxAttrCreate => 33
    case TReadDir(_, _, _) => 40
    case RReadDir(_) => 41
    case TFSync(_) => 50
    case RFSync => 51
    case TLock(_, _) => 52
    case RLock(_) => 53
    case TGetLock(_, _) => 54
    case RGetLock(_) => 55
    case TLink(_, _, _) => 70
    case RLink => 71
    case TMkDir(_, _, _, _) => 72
    case RMkDir(_) => 73
    case TRenameAt(_, _, _, _) => 74
    case RRenameAt => 75
    case TUnlinkAt(_, _, _) => 76
    case RUnlinkAt => 77
    case TVersion(_, _) => 100
    case RVersion(_, _) => 101
    case TAuth(_, _, _, _) => 102
    case RAuth(_) => 103
    case TAttach(_, _, _, _, _) => 104
    case RAttach(_) => 105
    case TFlush(_) => 108
    case RFlush => 109
    case TWalk(_, _, _) => 110
    case RWalk(_) => 111
    case TRead(_, _, _) => 116
    case RRead(_) => 117
    case TWrite(_, _, _) => 118
    case RWrite(_) => 119
    case TClunk(_) => 120
    case RClunk => 121
    case TRemove(_) => 122
    case RRemove => 123
  }

  const U8: Kind := One(Uint(W1))
  const U16: Kind := One(Uint(W2))
  const U32: Kind := One(Uint(W4))
  const U64: Kind := One(Uint(W8))
  const STRING: Kind := One(Str)
  const DATA: Kind := One(Blob)
  const GETATTR_MASK: Kind := One(Flags(W8, 0x3FFF))
  const SETATTR_MASK: Kind := One(Flags(W4, 0x1FF))
  const LOCK_STATUS: Kind := One(Flags(W1, 3))
  const LOCK_TYPE: Kind := One(Flags(W1, 3))
  const LOCK_FLAG: Kind := One(Flags(W4, 3))

  const QID_ROW: Row := [Flags(W1, 0xFF), Uint(W4), Uint(W8)]
  const ENTRY_ROW: Row := QID_ROW + [Uint(W8), Uint(W1), Str]
  const STRINGS: Kind := Counted([Str])
  const QIDS: Kind := Counted(QID_ROW)
  const ENTRIES: Kind := Framed(ENTRY_ROW)

  const QID: Schema := [One(Flags(W1, 0xFF)), U32, U64]
  const STATFS: Schema := [U32, U32, U64, U64, U64, U64, U64, U64, U32]
  const STAT: Schema := [U32, U32, U32, U64, U64, U64, U64, U64, U64, U64, U64, U64, U64, U64]
  const SETATTR: Schema := [U32, U32, U32, U64, U64, U64, U64, U64]
  const FLOCK: Schema := [LOCK_TYPE, LOCK_FLAG, U64, U64, U32, STRING]
  const GETLOCK: Schema := [LOCK_TYPE, U64, U64, U32, STRING]

  /** The message types in use. */
  predicate Known(code: nat) {
    || 7 <= code <= 9 || 12 <= code <= 27 || 30 <= code <= 33 || 40 <= code <= 41 || 50 <= code <= 55
    || 70 <= code <= 77 || 100 <= code <= 105 || 108 <= code <= 111 || 116 <= code <= 123
  }

  // The messages in groups by type, so that no function has too many cases.

  datatype Group = Opening | Creating | Linking | Attributes | Extending | Listing | Locking | Testing | Naming
                 | Attaching | Walking | Basic

  function GroupOf(code: nat): Group {
    if code < 14 then Opening else if code < 18 then Creating else if code < 25 then Linking
    else if code < 26 then Attributes else if code < 40 then Extending
    else if code < 50 then Listing else if code < 54 then Locking
    else if code < 72 then Testing
    else if code < 101 then Naming else if code < 110 then Attaching
    else if code < 116 then Walking else Basic
  }

  function OpeningSchema(code: nat): Schema {
    match code
    case 7 => [U32]
    case 8 => [U32]
    case 9 => STATFS
    case 12 => [U32, U32]
    case 13 => QID + [U32]
    case _ => []
  }

  function CreatingSchema(code: nat): Schema {
    match code
    case 14 => [U32, STRING, U32, U32, U32]
    case 15 => QID + [U32]
    case 16 => [U32, STRING, STRING, U32]
    case 17 => QID
    case _ => []
  }

  function LinkingSchema(code: nat): Schema {
    match code
    case 18 => [U32, STRING, U32, U32, U32, U32]
    case 19 => QID
    case 20 => [U32, U32, STRING]
    case 21 => []
    case 22 => [U32]
    case 23 => [STRING]
    case 24 => [U32, GETATTR_MASK]
    case _ => []
  }

  function AttributesSchema(code: nat): Schema {
    match code
    case 25 => [GETATTR_MASK] + QID + STAT + [U64, U64, U64, U64]
    case _ => []
  }

  function ExtendingSchema(code: nat): Schema {
    match code
    case 26 => [U32, SETATTR_MASK] + SETATTR
    case 27 => []
    case 30 => [U32, U32, STRING]
    case 31 => [U64]
    case 32 => [U32, STRING, U64, U32]
    case 33 => []
    case _ => []
  }

  function ListingSchema(code: nat): Schema {
    match code
    case 40 => [U32, U64, U32]
    case 41 => [ENTRIES]
    case _ => []
  }

  function LockingSchema(code: nat): Schema {
    match code
    case 50 => [U32]
    case 51 => []
    case 52 => [U32] + FLOCK
    case 53 => [LOCK_STATUS]
    case _ => []
  }

  function TestingSchema(code: nat): Schema {
    match code
    case 54 => [U32] + GETLOCK
    case 55 => GETLOCK
    case 70 => [U32, U32, STRING]
    case 71 => []
    case _ => []
  }

  function NamingSchema(code: nat): Schema {
    match code
    case 72 => [U32, STRING, U32, U32]
    case 73 => QID
    case 74 => [U32, STRING, U32, STRING]
    case 75 => []
    case 76 => [U32, STRING, U32]
    case 77 => []
    case 100 => [U32, STRING]
    case _ => []
  }

  function AttachingSchema(code: nat): Schema {
    match code
    case 101 => [U32, STRING]
    case 102 => [U32, STRING, STRING, U32]
    case 103 => QID
    case 104 => [U32, U32, STRING, STRING, U32]
    case 105 => QID
    case 108 => [U16]
    case 109 => []
    case _ => []
  }

  function WalkingSchema(code: nat): Schema {
    match code
    case 110 => [U32, U32, STRINGS]
    case 111 => [QIDS]
    case _ => []
  }

  function BasicSchema(code: nat): Schema {
    match code
    case 116 => [U32, U64, U32]
    case 117 => [DATA]
    case 118 => [U32, U64, DATA]
    case 119 => [U32]
    case 120 => [U32]
    case 121 => []
    case 122 => [U32]
    case 123 => []
    case _ => []
  }

  function SchemaOf(code: nat): Schema {
    match GroupOf(code)
    case Opening => OpeningSchema(code)
    case Creating => CreatingSchema(code)
    case Linking => LinkingSchema(code)
    case Attributes => AttributesSchema(code)
    case Extending => ExtendingSchema(code)
    case Listing => ListingSchema(code)
    case Locking => LockingSchema(code)
    case Testing => TestingSchema(code)
    case Naming => NamingSchema(code)
    case Attaching => AttachingSchema(code)
    case Walking => WalkingSchema(code)
    case Basic => BasicSchema(code)
  }

  // ----- fields as values -----

  function N(n: nat): Value { Single(Num(n)) }

  function B(bytes: seq<byte>): Value { Single(Raw(bytes)) }

  function OfQId(q: QId): Values { [N(q.typ), N(q.version), N(q.path)] }

  function OfStatFs(s: StatFs): Values {
    [N(s.typ), N(s.bsize), N(s.blocks), N(s.bfree), N(s.bavail), N(s.files), N(s.ffree), N(s.fsid), N(s.namelen)]
  }

  function OfStat(s: Stat): Values {
    [N(s.mode), N(s.uid), N(s.gid), N(s.nlink), N(s.rdev), N(s.size), N(s.blksize), N(s.blocks),
     N(s.atime.sec), N(s.atime.nsec), N(s.mtime.sec), N(s.mtime.nsec), N(s.ctime.sec), N(s.ctime.nsec)]
  }

  function OfSetAttr(s: SetAttr): Values {
    [N(s.mode), N(s.uid), N(s.gid), N(s.size), N(s.atime.sec), N(s.atime.nsec), N(s.mtime.sec), N(s.mtime.nsec)]
  }

  function OfFlock(l: Flock): Values { [N(l.typ), N(l.flags), N(l.start), N(l.length), N(l.procId), B(l.clientId)] }

  function OfGetlock(l: Getlock): Values { [N(l.typ), N(l.start), N(l.length), N(l.procId), B(l.clientId)] }

  function QIdAtoms(q: QId): Atoms { [Num(q.typ), Num(q.version), Num(q.path)] }

  function EntryAtoms(e: DirEntry): Atoms { QIdAtoms(e.qid) + [Num(e.offset), Num(e.typ), Raw(e.name)] }

  function QIdRows(qs: seq<QId>): Rows { seq(|qs|, i requires 0 <= i < |qs| => QIdAtoms(qs[i])) }

  function EntryRows(es: seq<DirEntry>): Rows { seq(|es|, i requires 0 <= i < |es| => EntryAtoms(es[i])) }

  function TextRows(ts: seq<Text>): Rows { seq(|ts|, i requires 0 <= i < |ts| => [Raw(ts[i])]) }

  // The fields of a message in the order they are written; four reserved words end an attribute reply.

  function OpeningValues(f: FCall): Values {
    match f
    case RlError(ecode) => [N(ecode)]
    case TStatFs(fid) => [N(fid)]
    case RStatFs(statfs) => OfStatFs(statfs)
    case TlOpen(fid, flags) => [N(fid), N(flags)]
    case RlOpen(qid, iounit) => OfQId(qid) + [N(iounit)]
    case _ => []
  }

  function CreatingValues(f: FCall): Values {
    match f
    case TlCreate(fid, name, flags, mode, gid) => [N(fid), B(name), N(flags), N(mode), N(gid)]
    case RlCreate(qid, iounit) => OfQId(qid) + [N(iounit)]
    case TSymlink(fid, name, symtgt, gid) => [N(fid), B(name), B(symtgt), N(gid)]
    case RSymlink(qid) => OfQId(qid)
    case _ => []
  }

  function LinkingValues(f: FCall): Values {
    match f
    case TMkNod(dfid, name, mode, major, minor, gid) => [N(dfid), B(name), N(mode), N(major), N(minor), N(gid)]
    case RMkNod(qid) => OfQId(qid)
    case TRename(fid, dfid, name) => [N(fid), N(dfid), B(name)]
    case RRename => []
    case TReadLink(fid) => [N(fid)]
    case RReadLink(target) => [B(target)]
    case TGetAttr(fid, mask) => [N(fid), N(mask)]
    case _ => []
  }

  function AttributesValues(f: FCall): Values {
    match f
    case RGetAttr(mask, qid, stat) => [N(mask)] + OfQId(qid) + OfStat(stat) + [N(0), N(0), N(0), N(0)]
    case _ => []
  }

  function ExtendingValues(f: FCall): Values {
    match f
    case TSetAttr(fid, valid, attr) => [N(fid), N(valid)] + OfSetAttr(attr)
    case RSetAttr => []
    case TxAttrWalk(fid, newfid, name) => [N(fid), N(newfid), B(name)]
    case RxAttrWalk(size) => [N(size)]
    case TxAttrCreate(fid, name, attrSize, flags) => [N(fid), B(name), N(attrSize), N(flags)]
    case RxAttrCreate => []
    case _ => []
  }

  function ListingValues(f: FCall): Values {
    match f
    case TReadDir(fid, offset, count) => [N(fid), N(offset), N(count)]
    case RReadDir(entries) => [List(EntryRows(entries))]
    case _ => []
  }

  function LockingValues(f: FCall): Values {
    match f
    case TFSync(fid) => [N(fid)]
    case RFSync => []
    case TLock(fid, flock) => [N(fid)] + OfFlock(flock)
    case RLock(status) => [N(status)]
    case _ => []
  }

  function TestingValues(f: FCall): Values {
    match f
    case TGetLock(fid, getlock) => [N(fid)] + OfGetlock(getlock)
    case RGetLock(getlock) => OfGetlock(getlock)
    case TLink(dfid, fid, name) => [N(dfid), N(fid), B(name)]
    case RLink => []
    case _ => []
  }

  function NamingValues(f: FCall): Values {
    match f
    case TMkDir(dfid, name, mode, gid) => [N(dfid), B(name), N(mode), N(gid)]
    case RMkDir(qid) => OfQId(qid)
    case TRenameAt(olddirfid, oldname, newdirfid, newname) => [N(olddirfid), B(oldname), N(newdirfid), B(newname)]
    case RRenameAt => []
    case TUnlinkAt(dirfd, name, flags) => [N(dirfd), B(name), N(flags)]
    case RUnlinkAt => []
    case TVersion(msize, version) => [N(msize), B(version)]
    case _ => []
  }

  function AttachingValues(f: FCall): Values {
    match f
    case RVersion(msize, version) => [N(msize), B(version)]
    case TAuth(afid, uname, aname, nUname) => [N(afid), B(uname), B(aname), N(nUname)]
    case RAuth(aqid) => OfQId(aqid)
    case TAttach(fid, afid, uname, aname, nUname) => [N(fid), N(afid), B(uname), B(aname), N(nUname)]
    case RAttach(qid) => OfQId(qid)
    case TFlush(oldtag) => [N(oldtag)]
    case RFlush => []
    case _ => []
  }

  function WalkingValues(f: FCall): Values {
    match f
    case TWalk(fid, newfid, wnames) => [N(fid), N(newfid), List(TextRows(wnames))]
    case RWalk(wqids) => [List(QIdRows(wqids))]
    case _ => []
  }

  function BasicValues(f: FCall): Values {
    match f
    case TRead(fid, offset, count) => [N(fid), N(offset), N(count)]
    case RRead(data) => [B(data)]
    case TWrite(fid, offset, data) => [N(fid), N(offset), B(data)]
    case RWrite(count) => [N(count)]
    case TClunk(fid) => [N(fid)]
    case RClunk => []
    case TRemove(fid) => [N(fid)]
    case RRemove => []
    case _ => []
  }

  function ValuesOf(f: FCall): Values {
    match GroupOf(Code(f))
    case Opening => OpeningValues(f)
    case Creating => CreatingValues(f)
    case Linking => LinkingValues(f)
    case Attributes => AttributesValues(f)
    case Extending => ExtendingValues(f)
    case Listing => ListingValues(f)
    case Locking => LockingValues(f)
    case Testing => TestingValues(f)
    case Naming => NamingValues(f)
    case Attaching => AttachingValues(f)
    case Walking => WalkingValues(f)
    case Basic => BasicValues(f)
  }

  // ----- and back -----

  function NumOf(a: Atoms, i: nat): nat { if i < |a| && a[i].Num? then a[i].n else 0 }

  function BytesOf(a: Atoms, i: nat): seq<byte> { if i < |a| && a[i].Raw? then a[i].bytes else [] }

  function NumAt(vs: Values, i: nat): nat { if i < |vs| && vs[i].Single? && vs[i].atom.Num? then vs[i].atom.n else 0 }

  function BytesAt(vs: Values, i: nat): seq<byte> {
    if i < |vs| && vs[i].Single? && vs[i].atom.Raw? then vs[i].atom.bytes else []
  }

  function RowsAt(vs: Values, i: nat): Rows { if i < |vs| && vs[i].List? then vs[i].rows else [] }

  function QIdAt(vs: Values, i: nat): QId { QId(NumAt(vs, i), NumAt(vs, i + 1), NumAt(vs, i + 2)) }

  function TimeAt(vs: Values, i: nat): Time { Time(NumAt(vs, i), NumAt(vs, i + 1)) }

  function StatFsAt(vs: Values, i: nat): StatFs {
    StatFs(NumAt(vs, i), NumAt(vs, i + 1), NumAt(vs, i + 2), NumAt(vs, i + 3), NumAt(vs, i + 4), NumAt(vs, i + 5),
           NumAt(vs, i + 6), NumAt(vs, i + 7), NumAt(vs, i + 8))
  }

  function StatAt(vs: Values, i: nat): Stat {
    Stat(NumAt(vs, i), NumAt(vs, i + 1), NumAt(vs, i + 2), NumAt(vs, i + 3), NumAt(vs, i + 4), NumAt(vs, i + 5),
         NumAt(vs, i + 6), NumAt(vs, i + 7), TimeAt(vs, i + 8), TimeAt(vs, i + 10), TimeAt(vs, i + 12))
  }

  function SetAttrAt(vs: Values, i: nat): SetAttr {
    SetAttr(NumAt(vs, i), NumAt(vs, i + 1), NumAt(vs, i + 2), NumAt(vs, i + 3), TimeAt(vs, i + 4), TimeAt(vs, i + 6))
  }

  function FlockAt(vs: Values, i: nat): Flock {
    Flock(NumAt(vs, i), NumAt(vs, i + 1), NumAt(vs, i + 2), NumAt(vs, i + 3), NumAt(vs, i + 4), BytesAt(vs, i + 5))
  }

  function GetlockAt(vs: Values, i: nat): Getlock {
    Getlock(NumAt(vs, i), NumAt(vs, i + 1), NumAt(vs, i + 2), NumAt(vs, i + 3), BytesAt(vs, i + 4))
  }

  function AtomsQId(a: Atoms): QId { QId(NumOf(a, 0), NumOf(a, 1), NumOf(a, 2)) }

  function AtomsEntry(a: Atoms): DirEntry { DirEntry(AtomsQId(a), NumOf(a, 3), NumOf(a, 4), BytesOf(a, 5)) }

  function QIdsAt(vs: Values, i: nat): seq<QId> {
    var rows := RowsAt(vs, i);
    seq(|rows|, j requires 0 <= j < |rows| => AtomsQId(rows[j]))
  }

  function EntriesAt(vs: Values, i: nat): seq<DirEntry> {
    var rows := RowsAt(vs, i);
    seq(|rows|, j requires 0 <= j < |rows| => AtomsEntry(rows[j]))
  }

  function TextsAt(vs: Values, i: nat): seq<Text> {
    var rows := RowsAt(vs, i);
    seq(|rows|, j requires 0 <= j < |rows| => BytesOf(rows[j], 0))
  }

  // The message of a type from its fields; reserved words are dropped.

  function OpeningCall(code: nat, vs: Values): FCall {
    match code
    case 7 => RlError(NumAt(vs, 0))
    case 8 => TStatFs(NumAt(vs, 0))
    case 9 => RStatFs(StatFsAt(vs, 0))
    case 12 => TlOpen(NumAt(vs, 0), NumAt(vs, 1))
    case 13 => RlOpen(QIdAt(vs, 0), NumAt(vs, 3))
    case _ => RRemove
  }

  function CreatingCall(code: nat, vs: Values): FCall {
    match code
    case 14 => TlCreate(NumAt(vs, 0), BytesAt(vs, 1), NumAt(vs, 2), NumAt(vs, 3), NumAt(vs, 4))
    case 15 => RlCreate(QIdAt(vs, 0), NumAt(vs, 3))
    case 16 => TSymlink(NumAt(vs, 0), BytesAt(vs, 1), BytesAt(vs, 2), NumAt(vs, 3))
    case 17 => RSymlink(QIdAt(vs, 0))
    case _ => RRemove
  }

  function LinkingCall(code: nat, vs: Values): FCall {
    match code
    case 18 => TMkNod(NumAt(vs, 0), BytesAt(vs, 1), NumAt(vs, 2), NumAt(vs, 3), NumAt(vs, 4), NumAt(vs, 5))
    case 19 => RMkNod(QIdAt(vs, 0))
    case 20 => TRename(NumAt(vs, 0), NumAt(vs, 1), BytesAt(vs, 2))
    case 21 => RRename
    case 22 => TReadLink(NumAt(vs, 0))
    case 23 => RReadLink(BytesAt(vs, 0))
    case 24 => TGetAttr(NumAt(vs, 0), NumAt(vs, 1))
    case _ => RRemove
  }

  function AttributesCall(code: nat, vs: Values): FCall {
    match code
    case 25 => RGetAttr(NumAt(vs, 0), QIdAt(vs, 1), StatAt(vs, 4))
    case _ => RRemove
  }

  function ExtendingCall(code: nat, vs: Values): FCall {
    match code
    case 26 => TSetAttr(NumAt(vs, 0), NumAt(vs, 1), SetAttrAt(vs, 2))
    case 27 => RSetAttr
    case 30 => TxAttrWalk(NumAt(vs, 0), NumAt(vs, 1), BytesAt(vs, 2))
    case 31 => RxAttrWalk(NumAt(vs, 0))
    case 32 => TxAttrCreate(NumAt(vs, 0), BytesAt(vs, 1), NumAt(vs, 2), NumAt(vs, 3))
    case 33 => RxAttrCreate
    case _ => RRemove
  }

  function ListingCall(code: nat, vs: Values): FCall {
    match code
    case 40 => TReadDir(NumAt(vs, 0), NumAt(vs, 1), NumAt(vs, 2))
    case 41 => RReadDir(EntriesAt(vs, 0))
    case _ => RRemove
  }

  function LockingCall(code: nat, vs: Values): FCall {
    match code
    case 50 => TFSync(NumAt(vs, 0))
    case 51 => RFSync
    case 52 => TLock(NumAt(vs, 0), FlockAt(vs, 1))
    case 53 => RLock(NumAt(vs, 0))
    case _ => RRemove
  }

  function TestingCall(code: nat, vs: Values): FCall {
    match code
    case 54 => TGetLock(NumAt(vs, 0), GetlockAt(vs, 1))
    case 55 => RGetLock(GetlockAt(vs, 0))
    case 70 => TLink(NumAt(vs, 0), NumAt(vs, 1), BytesAt(vs, 2))
    case 71 => RLink
    case _ => RRemove
  }

  function NamingCall(code: nat, vs: Values): FCall {
    match code
    case 72 => TMkDir(NumAt(vs, 0), BytesAt(vs, 1), NumAt(vs, 2), NumAt(vs, 3))
    case 73 => RMkDir(QIdAt(vs, 0))
    case 74 => TRenameAt(NumAt(vs, 0), BytesAt(vs, 1), NumAt(vs, 2), BytesAt(vs, 3))
    case 75 => RRenameAt
    case 76 => TUnlinkAt(NumAt(vs, 0), BytesAt(vs, 1), NumAt(vs, 2))
    case 77 => RUnlinkAt
    case 100 => TVersion(NumAt(vs, 0), BytesAt(vs, 1))
    case _ => RRemove
  }

  function AttachingCall(code: nat, vs: Values): FCall {
    match code
    case 101 => RVersion(NumAt(vs, 0), BytesAt(vs, 1))
    case 102 => TAuth(NumAt(vs, 0), BytesAt(vs, 1), BytesAt(vs, 2), NumAt(vs, 3))
    case 103 => RAuth(QIdAt(vs, 0))
    case 104 => TAttach(NumAt(vs, 0), NumAt(vs, 1), BytesAt(vs, 2), BytesAt(vs, 3), NumAt(vs, 4))
    case 105 => RAttach(QIdAt(vs, 0))
    case 108 => TFlush(NumAt(vs, 0))
    case 109 => RFlush
    case _ => RRemove
  }

  function WalkingCall(code: nat, vs: Values): FCall {
    match code
    case 110 => TWalk(NumAt(vs, 0), NumAt(vs, 1), TextsAt(vs, 2))
    case 111 => RWalk(QIdsAt(vs, 0))
    case _ => RRemove
  }

  function BasicCall(code: nat, vs: Values): FCall {
    match code
    case 116 => TRead(NumAt(vs, 0), NumAt(vs, 1), NumAt(vs, 2))
    case 117 => RRead(BytesAt(vs, 0))
    case 118 => TWrite(NumAt(vs, 0), NumAt(vs, 1), BytesAt(vs, 2))
    case 119 => RWrite(NumAt(vs, 0))
    case 120 => TClunk(NumAt(vs, 0))
    case 121 => RClunk
    case 122 => TRemove(NumAt(vs, 0))
    case 123 => RRemove
    case _ => RRemove
  }

  function CallOf(code: nat, vs: Values): FCall {
    match GroupOf(code)
    case Opening => OpeningCall(code, vs)
    case Creating => CreatingCall(code, vs)
    case Linking => LinkingCall(code, vs)
    case Attributes => AttributesCall(code, vs)
    case Extending => ExtendingCall(code, vs)
    case Listing => ListingCall(code, vs)
    case Locking => LockingCall(code, vs)
    case Testing => TestingCall(code, vs)
    case Naming => NamingCall(code, vs)
    case Attaching => AttachingCall(code, vs)
    case Walking => WalkingCall(code, vs)
    case Basic => BasicCall(code, vs)
  }
}
