/** Encoding and decoding whole 9P messages (crates/rs9p/src/serialize.rs, `Msg`). */
module NinePCodec {
  import opened Common
  import opened Wire
  import opened NineP

  lemma KindsOk()
    ensures forall k :: k in [U8, U16, U32, U64, STRING, DATA, GETATTR_MASK, SETATTR_MASK] ==> KindOk(k)
    ensures KindOk(LOCK_STATUS) && KindOk(LOCK_TYPE) && KindOk(LOCK_FLAG)
    ensures KindOk(One(Flags(W1, 0xFF))) && KindOk(STRINGS) && KindOk(QIDS) && KindOk(ENTRIES)
  {
    assert Pow256(1) == 256 && Pow256(2) == 0x1_0000 && Pow256(3) == 0x100_0000 && Pow256(4) == 0x1_0000_0000;
    assert Pow256(5) == 0x100_0000_0000 && Pow256(6) == 0x1_0000_0000_0000 && Pow256(7) == 0x100_0000_0000_0000;
  }

  lemma SchemasOk(code: nat)
    ensures SchemaOk(SchemaOf(code))
  {
    KindsOk();
  }

  predicate IsOpening(f: FCall) {
    f.RlError? || f.TStatFs? || f.RStatFs? || f.TlOpen? || f.RlOpen?
  }

  lemma OpeningRoundTrip(f: FCall)
    requires IsOpening(f)
    ensures Restored(f)
  {
    OpeningCode(f);
  }

  lemma OpeningCode(f: FCall)
    requires IsOpening(f)
    ensures GroupOf(Code(f)) == Opening && Known(Code(f))
  {
  }

  predicate IsCreating(f: FCall) {
    f.TlCreate? || f.RlCreate? || f.TSymlink? || f.RSymlink?
  }

  lemma CreatingRoundTrip(f: FCall)
    requires IsCreating(f)
    ensures Restored(f)
  {
    CreatingCode(f);
  }

  lemma CreatingCode(f: FCall)
    requires IsCreating(f)
    ensures GroupOf(Code(f)) == Creating && Known(Code(f))
  {
  }

  predicate IsLinking(f: FCall) {
    f.TMkNod? || f.RMkNod? || f.TRename? || f.RRename? || f.TReadLink? || f.RReadLink? || f.TGetAttr?
  }

  lemma LinkingRoundTrip(f: FCall)
    requires IsLinking(f)
    ensures Restored(f)
  {
    LinkingCode(f);
  }

  lemma LinkingCode(f: FCall)
    requires IsLinking(f)
    ensures GroupOf(Code(f)) == Linking && Known(Code(f))
  {
  }

  predicate IsAttributes(f: FCall) {
    f.RGetAttr?
  }

  lemma AttributesRoundTrip(f: FCall)
    requires IsAttributes(f)
    ensures Restored(f)
  {
    AttributesCode(f);
    AttributesHead(f.mask, f.qid, f.stat);
    AttributesStat([N(f.mask)] + OfQId(f.qid), f.stat, [N(0), N(0), N(0), N(0)]);
  }

  lemma AttributesHead(mask: nat, qid: QId, stat: Stat)
    ensures var vs := [N(mask)] + OfQId(qid) + OfStat(stat) + [N(0), N(0), N(0), N(0)];
      NumAt(vs, 0) == mask && QIdAt(vs, 1) == qid
  {
  }

  lemma AttributesStat(before: Values, stat: Stat, rest: Values)
    requires |before| == 4
    ensures StatAt(before + OfStat(stat) + rest, 4) == stat
  {
  }

  lemma AttributesCode(f: FCall)
    requires IsAttributes(f)
    ensures GroupOf(Code(f)) == Attributes && Known(Code(f))
  {
  }

  predicate IsExtending(f: FCall) {
    f.TSetAttr? || f.RSetAttr? || f.TxAttrWalk? || f.RxAttrWalk? || f.TxAttrCreate? || f.RxAttrCreate?
  }

  lemma ExtendingRoundTrip(f: FCall)
    requires IsExtending(f)
    ensures Restored(f)
  {
    ExtendingCode(f);
  }

  lemma ExtendingCode(f: FCall)
    requires IsExtending(f)
    ensures GroupOf(Code(f)) == Extending && Known(Code(f))
  {
  }

  predicate IsListing(f: FCall) {
    f.TReadDir? || f.RReadDir?
  }

  lemma ListingRoundTrip(f: FCall)
    requires IsListing(f)
    ensures Restored(f)
  {
    ListingCode(f);
  }

  lemma ListingCode(f: FCall)
    requires IsListing(f)
    ensures GroupOf(Code(f)) == Listing && Known(Code(f))
  {
  }

  predicate IsLocking(f: FCall) {
    f.TFSync? || f.RFSync? || f.TLock? || f.RLock?
  }

  lemma LockingRoundTrip(f: FCall)
    requires IsLocking(f)
    ensures Restored(f)
  {
    LockingCode(f);
  }

  lemma LockingCode(f: FCall)
    requires IsLocking(f)
    ensures GroupOf(Code(f)) == Locking && Known(Code(f))
  {
  }

  predicate IsTesting(f: FCall) {
    f.TGetLock? || f.RGetLock? || f.TLink? || f.RLink?
  }

  lemma TestingRoundTrip(f: FCall)
    requires IsTesting(f)
    ensures Restored(f)
  {
    TestingCode(f);
  }

  lemma TestingCode(f: FCall)
    requires IsTesting(f)
    ensures GroupOf(Code(f)) == Testing && Known(Code(f))
  {
  }

  predicate IsNaming(f: FCall) {
    f.TMkDir? || f.RMkDir? || f.TRenameAt? || f.RRenameAt? || f.TUnlinkAt? || f.RUnlinkAt? || f.TVersion?
  }

  lemma NamingRoundTrip(f: FCall)
    requires IsNaming(f)
    ensures Restored(f)
  {
    NamingCode(f);
  }

  lemma NamingCode(f: FCall)
    requires IsNaming(f)
    ensures GroupOf(Code(f)) == Naming && Known(Code(f))
  {
  }

  predicate IsAttaching(f: FCall) {
    f.RVersion? || f.TAuth? || f.RAuth? || f.TAttach? || f.RAttach? || f.TFlush? || f.RFlush?
  }

  lemma AttachingRoundTrip(f: FCall)
    requires IsAttaching(f)
    ensures Restored(f)
  {
    AttachingCode(f);
  }

  lemma AttachingCode(f: FCall)
    requires IsAttaching(f)
    ensures GroupOf(Code(f)) == Attaching && Known(Code(f))
  {
  }

  predicate IsWalking(f: FCall) {
    f.TWalk? || f.RWalk?
  }

  lemma WalkingRoundTrip(f: FCall)
    requires IsWalking(f)
    ensures Restored(f)
  {
    WalkingCode(f);
  }

  lemma WalkingCode(f: FCall)
    requires IsWalking(f)
    ensures GroupOf(Code(f)) == Walking && Known(Code(f))
  {
  }

  predicate IsBasic(f: FCall) {
    f.TRead? || f.RRead? || f.TWrite? || f.RWrite? || f.TClunk? || f.RClunk? || f.TRemove? || f.RRemove?
  }

  lemma BasicRoundTrip(f: FCall)
    requires IsBasic(f)
    ensures Restored(f)
  {
    BasicCode(f);
  }

  lemma BasicCode(f: FCall)
    requires IsBasic(f)
    ensures GroupOf(Code(f)) == Basic && Known(Code(f))
  {
  }

  // ----- fields that were decoded -----

  lemma EntriesBack(vs: Values, i: nat)
    requires i < |vs| && ValueFits(ENTRIES, vs[i])
    ensures List(EntryRows(EntriesAt(vs, i))) == vs[i]
  {
    var rows := vs[i].rows;
    forall j | 0 <= j < |rows| ensures EntryAtoms(AtomsEntry(rows[j])) == rows[j] { EntryBack(rows[j]); }
    assert EntryRows(EntriesAt(vs, i)) == rows;
  }

  lemma EntryBack(a: Atoms)
    requires RowFits(ENTRY_ROW, a)
    ensures EntryAtoms(AtomsEntry(a)) == a
  {
    forall j | 0 <= j < 6 ensures Shaped(ENTRY_ROW[j], a[j]) { assert Fits(ENTRY_ROW[j], a[j]); }
  }

  lemma QIdsBack(vs: Values, i: nat)
    requires i < |vs| && ValueFits(QIDS, vs[i])
    ensures List(QIdRows(QIdsAt(vs, i))) == vs[i]
  {
    var rows := vs[i].rows;
    forall j | 0 <= j < |rows| ensures QIdAtoms(AtomsQId(rows[j])) == rows[j] {
      forall n | 0 <= n < 3 ensures Shaped(QID_ROW[n], rows[j][n]) { assert Fits(QID_ROW[n], rows[j][n]); }
    }
    assert QIdRows(QIdsAt(vs, i)) == rows;
  }

  lemma TextsBack(vs: Values, i: nat)
    requires i < |vs| && ValueFits(STRINGS, vs[i])
    ensures List(TextRows(TextsAt(vs, i))) == vs[i]
  {
    var rows := vs[i].rows;
    forall j | 0 <= j < |rows| ensures [Raw(BytesOf(rows[j], 0))] == rows[j] { assert Fits([Str][0], rows[j][0]); }
    assert TextRows(TextsAt(vs, i)) == rows;
  }

  /** Decoded fields make a message of their type, and its own fields fit. */
  predicate Kept(code: nat, vs: Values) {
    true == (Code(CallOf(code, vs)) == code && AllFit(SchemaOf(code), ValuesOf(CallOf(code, vs))))
  }

  /** The type of a message and its fields give the message back. */
  predicate Restored(f: FCall) { true == (Known(Code(f)) && CallOf(Code(f), ValuesOf(f)) == f) }

  lemma CallOfValues(f: FCall)
    ensures Restored(f)
  {
    if IsOpening(f) {
      OpeningRoundTrip(f);
    } else if IsCreating(f) {
      CreatingRoundTrip(f);
    } else if IsLinking(f) {
      LinkingRoundTrip(f);
    } else if IsAttributes(f) {
      AttributesRoundTrip(f);
    } else if IsExtending(f) {
      ExtendingRoundTrip(f);
    } else if IsListing(f) {
      ListingRoundTrip(f);
    } else if IsLocking(f) {
      LockingRoundTrip(f);
    } else if IsTesting(f) {
      TestingRoundTrip(f);
    } else if IsNaming(f) {
      NamingRoundTrip(f);
    } else if IsAttaching(f) {
      AttachingRoundTrip(f);
    } else if IsWalking(f) {
      WalkingRoundTrip(f);
    } else {
      BasicRoundTrip(f);
    }
  }

  lemma OpeningBack(code: nat, vs: Values)
    requires Known(code) && GroupOf(code) == Opening && AllFit(OpeningSchema(code), vs)
    ensures OpeningValues(OpeningCall(code, vs)) == vs && Code(OpeningCall(code, vs)) == code
  {
  }

  lemma OpeningFields(code: nat, vs: Values)
    requires Known(code) && GroupOf(code) == Opening && AllFit(OpeningSchema(code), vs)
    ensures Kept(code, vs)
  {
    OpeningBack(code, vs);
  }

  lemma CreatingBack(code: nat, vs: Values)
    requires Known(code) && GroupOf(code) == Creating && AllFit(CreatingSchema(code), vs)
    ensures CreatingValues(CreatingCall(code, vs)) == vs && Code(CreatingCall(code, vs)) == code
  {
  }

  lemma CreatingFields(code: nat, vs: Values)
    requires Known(code) && GroupOf(code) == Creating && AllFit(CreatingSchema(code), vs)
    ensures Kept(code, vs)
  {
    CreatingBack(code, vs);
  }

  lemma LinkingBack(code: nat, vs: Values)
    requires Known(code) && GroupOf(code) == Linking && AllFit(LinkingSchema(code), vs)
    ensures LinkingValues(LinkingCall(code, vs)) == vs && Code(LinkingCall(code, vs)) == code
  {
  }

  lemma LinkingFields(code: nat, vs: Values)
    requires Known(code) && GroupOf(code) == Linking && AllFit(LinkingSchema(code), vs)
    ensures Kept(code, vs)
  {
    LinkingBack(code, vs);
  }

  lemma ExtendingBack(code: nat, vs: Values)
    requires Known(code) && GroupOf(code) == Extending && AllFit(ExtendingSchema(code), vs)
    ensures ExtendingValues(ExtendingCall(code, vs)) == vs && Code(ExtendingCall(code, vs)) == code
  {
  }

  lemma ExtendingFields(code: nat, vs: Values)
    requires Known(code) && GroupOf(code) == Extending && AllFit(ExtendingSchema(code), vs)
    ensures Kept(code, vs)
  {
    ExtendingBack(code, vs);
  }

  lemma ListingBack(code: nat, vs: Values)
    requires Known(code) && GroupOf(code) == Listing && AllFit(ListingSchema(code), vs)
    ensures ListingValues(ListingCall(code, vs)) == vs && Code(ListingCall(code, vs)) == code
  {
    if code == 41 { EntriesBack(vs, 0); }
  }

  lemma ListingFields(code: nat, vs: Values)
    requires Known(code) && GroupOf(code) == Listing && AllFit(ListingSchema(code), vs)
    ensures Kept(code, vs)
  {
    ListingBack(code, vs);
  }

  lemma LockingBack(code: nat, vs: Values)
    requires Known(code) && GroupOf(code) == Locking && AllFit(LockingSchema(code), vs)
    ensures LockingValues(LockingCall(code, vs)) == vs && Code(LockingCall(code, vs)) == code
  {
  }

  lemma LockingFields(code: nat, vs: Values)
    requires Known(code) && GroupOf(code) == Locking && AllFit(LockingSchema(code), vs)
    ensures Kept(code, vs)
  {
    LockingBack(code, vs);
  }

  lemma TestingBack(code: nat, vs: Values)
    requires Known(code) && GroupOf(code) == Testing && AllFit(TestingSchema(code), vs)
    ensures TestingValues(TestingCall(code, vs)) == vs && Code(TestingCall(code, vs)) == code
  {
  }

  lemma TestingFields(code: nat, vs: Values)
    requires Known(code) && GroupOf(code) == Testing && AllFit(TestingSchema(code), vs)
    ensures Kept(code, vs)
  {
    TestingBack(code, vs);
  }

  lemma NamingBack(code: nat, vs: Values)
    requires Known(code) && GroupOf(code) == Naming && AllFit(NamingSchema(code), vs)
    ensures NamingValues(NamingCall(code, vs)) == vs && Code(NamingCall(code, vs)) == code
  {
  }

  lemma NamingFields(code: nat, vs: Values)
    requires Known(code) && GroupOf(code) == Naming && AllFit(NamingSchema(code), vs)
    ensures Kept(code, vs)
  {
    NamingBack(code, vs);
  }

  lemma AttachingBack(code: nat, vs: Values)
    requires Known(code) && GroupOf(code) == Attaching && AllFit(AttachingSchema(code), vs)
    ensures AttachingValues(AttachingCall(code, vs)) == vs && Code(AttachingCall(code, vs)) == code
  {
  }

  lemma AttachingFields(code: nat, vs: Values)
    requires Known(code) && GroupOf(code) == Attaching && AllFit(AttachingSchema(code), vs)
    ensures Kept(code, vs)
  {
    AttachingBack(code, vs);
  }

  lemma WalkingBack(code: nat, vs: Values)
    requires Known(code) && GroupOf(code) == Walking && AllFit(WalkingSchema(code), vs)
    ensures WalkingValues(WalkingCall(code, vs)) == vs && Code(WalkingCall(code, vs)) == code
  {
    if code == 110 { TextsBack(vs, 2); } else if code == 111 { QIdsBack(vs, 0); }
  }

  lemma WalkingFields(code: nat, vs: Values)
    requires Known(code) && GroupOf(code) == Walking && AllFit(WalkingSchema(code), vs)
    ensures Kept(code, vs)
  {
    WalkingBack(code, vs);
  }

  lemma BasicBack(code: nat, vs: Values)
    requires Known(code) && GroupOf(code) == Basic && AllFit(BasicSchema(code), vs)
    ensures BasicValues(BasicCall(code, vs)) == vs && Code(BasicCall(code, vs)) == code
  {
  }

  lemma BasicFields(code: nat, vs: Values)
    requires Known(code) && GroupOf(code) == Basic && AllFit(BasicSchema(code), vs)
    ensures Kept(code, vs)
  {
    BasicBack(code, vs);
  }

  ghost predicate Numbers(vs: Values, i: nat, n: nat) {
    i + n <= |vs| && forall j :: i <= j < i + n ==> vs[j].Single? && vs[j].atom.Num?
  }

  lemma QIdBack(vs: Values, i: nat)
    requires Numbers(vs, i, 3)
    ensures OfQId(QIdAt(vs, i)) == vs[i..i + 3]
  {
  }

  lemma StatBack(vs: Values, i: nat)
    requires Numbers(vs, i, 14)
    ensures OfStat(StatAt(vs, i)) == vs[i..i + 14]
  {
  }

  lemma AttributesNumbers(vs: Values)
    requires AllFit(AttributesSchema(25), vs)
    ensures |vs| == 22 && Numbers(vs, 0, 22)
  {
    forall j | 0 <= j < 22 ensures vs[j].Single? && vs[j].atom.Num? { assert ValueFits(AttributesSchema(25)[j], vs[j]); }
  }

  lemma AttributesBack(vs: Values)
    requires |vs| == 22 && Numbers(vs, 0, 22)
    ensures AttributesValues(AttributesCall(25, vs)) == vs[..18] + [N(0), N(0), N(0), N(0)]
  {
    QIdBack(vs, 1);
    StatBack(vs, 4);
    assert [N(NumAt(vs, 0))] == vs[..1];
    assert vs[..1] + vs[1..4] + vs[4..18] == vs[..18];
  }

  lemma AttributesFit(vs: Values, vs': Values)
    requires AllFit(AttributesSchema(25), vs) && vs' == vs[..18] + [N(0), N(0), N(0), N(0)]
    ensures AllFit(AttributesSchema(25), vs')
  {
    assert Fits(Uint(W8), Num(0)) by { assert Pow256(8) > 0; }
    forall i | 0 <= i < 22 ensures ValueFits(AttributesSchema(25)[i], vs'[i]) {
      assert ValueFits(AttributesSchema(25)[i], vs[i]);
      if i >= 18 { assert AttributesSchema(25)[i] == U64; }
    }
  }

  lemma AttributesFields(vs: Values)
    requires AllFit(AttributesSchema(25), vs)
    ensures Kept(25, vs)
  {
    AttributesNumbers(vs);
    AttributesBack(vs);
    AttributesFit(vs, AttributesValues(AttributesCall(25, vs)));
  }

  lemma FieldsKept(code: nat, vs: Values)
    requires Known(code) && AllFit(SchemaOf(code), vs)
    ensures Kept(code, vs)
  {
    match GroupOf(code)
    case Opening => OpeningFields(code, vs);
    case Creating => CreatingFields(code, vs);
    case Linking => LinkingFields(code, vs);
    case Attributes => AttributesFields(vs);
    case Extending => ExtendingFields(code, vs);
    case Listing => ListingFields(code, vs);
    case Locking => LockingFields(code, vs);
    case Testing => TestingFields(code, vs);
    case Naming => NamingFields(code, vs);
    case Attaching => AttachingFields(code, vs);
    case Walking => WalkingFields(code, vs);
    case Basic => BasicFields(code, vs);
  }

  // ----- directory data -----

  /** What `DirEntry::size` and `DirEntryData::size` compute. */
  function EntrySize(e: DirEntry): nat { 13 + 8 + 1 + 2 + |e.name| }

  function EntriesSize(es: seq<DirEntry>): nat { if es == [] then 0 else EntrySize(es[0]) + EntriesSize(es[1..]) }

  lemma EntryLength(e: DirEntry)
    ensures |EncodeRow(ENTRY_ROW, EntryAtoms(e))| == EntrySize(e)
  {
    var row, a := ENTRY_ROW, EntryAtoms(e);
    RowTail(row, a);
    RowTail(row[1..], a[1..]);
    RowTail(row[2..], a[2..]);
    RowTail(row[3..], a[3..]);
    RowTail(row[4..], a[4..]);
    RowTail(row[5..], a[5..]);
  }

  lemma RowTail(row: Row, a: Atoms)
    requires row != [] && a != []
    ensures |EncodeRow(row, a)| == |EncodeAtom(row[0], a[0])| + |EncodeRow(row[1..], a[1..])|
  {
  }

  /** The sizes add up to the number of bytes the entries take. */
  lemma {:induction false} EntriesLength(es: seq<DirEntry>)
    ensures |EncodeRows(ENTRY_ROW, EntryRows(es))| == EntriesSize(es)
    decreases |es|
  {
    if es != [] {
      EntryLength(es[0]);
      EntriesLength(es[1..]);
      assert EntryRows(es)[1..] == EntryRows(es[1..]);
    }
  }

  // ----- messages -----

  /** The body of a message, field by field. Directory data is led by the sum of the sizes of its entries, computed from
      their names before they are encoded. */
  function EncodeBody(f: FCall): seq<byte> {
    if f.RReadDir? then Le(EntriesSize(f.entries), 4) + EncodeRows(ENTRY_ROW, EntryRows(f.entries))
    else EncodeValues(SchemaOf(Code(f)), ValuesOf(f))
  }

  lemma BodyIsValues(f: FCall)
    ensures EncodeBody(f) == EncodeValues(SchemaOf(Code(f)), ValuesOf(f))
  {
    if f.RReadDir? {
      EntriesLength(f.entries);
      OneValue(ENTRIES, List(EntryRows(f.entries)));
    }
  }

  lemma OneValue(k: Wire.Kind, v: Value)
    ensures EncodeValues([k], [v]) == EncodeValue(k, v)
  {
    assert EncodeValues([k][1..], [v][1..]) == [];
  }

  function Framed(code: nat, tag: nat, body: seq<byte>): seq<byte> { Le(code, 1) + Le(tag, 2) + body }

  function EncodeMsg(m: Msg): seq<byte> {
    Framed(Code(m.body), m.tag, EncodeBody(m.body))
  }

  function ReadHead(s: Input): Option<(nat, nat, Input)> {
    var code := ReadInt(s, 1);
    if code.None? then None else
      var tag := ReadInt(code.value.1, 2);
      if tag.None? then None else Some((code.value.0, tag.value.0, tag.value.1))
  }

  function DecodeMsg(s: Input): Option<(Msg, Input)> {
    var head := ReadHead(s);
    if head.None? || !Known(head.value.0) then None else
      var (code, tag, rest) := head.value;
      SchemasOk(code);
      var fields := DecodeValues(SchemaOf(code), rest);
      if fields.None? then None else Some((Msg(tag, CallOf(code, fields.value.0)), fields.value.1))
  }

  /** Every field is within its width, its known flags or its length field. */
  predicate InBounds(m: Msg) { m.tag < Pow256(2) && AllFit(SchemaOf(Code(m.body)), ValuesOf(m.body)) }

  lemma HeadRoundTrip(code: nat, tag: nat, body: seq<byte>, tail: Input)
    requires code < Pow256(1) && tag < Pow256(2)
    ensures ReadHead(Framed(code, tag, body) + tail) == Some((code, tag, body + tail))
  {
    assert Framed(code, tag, body) + tail == Le(code, 1) + (Le(tag, 2) + (body + tail));
    ReadIntLe(code, 1, Le(tag, 2) + (body + tail));
    ReadIntLe(tag, 2, body + tail);
  }

  /** A message that fits, followed by anything, decodes to itself and leaves what followed. */
  lemma MsgRoundTrip(m: Msg, tail: Input)
    requires InBounds(m)
    ensures DecodeMsg(EncodeMsg(m) + tail) == Some((m, tail))
  {
    var code := Code(m.body);
    CallOfValues(m.body);
    SchemasOk(code);
    assert Pow256(1) == 256;
    BodyIsValues(m.body);
    HeadRoundTrip(code, m.tag, EncodeBody(m.body), tail);
    ValuesRoundTrip(SchemaOf(code), ValuesOf(m.body), tail);
  }

  /** Only messages that fit come out of the decoder, whatever goes in. */
  lemma DecodedInBounds(s: Input)
    requires DecodeMsg(s).Some?
    ensures InBounds(DecodeMsg(s).value.0)
  {
    var (code, tag, rest) := ReadHead(s).value;
    SchemasOk(code);
    DecodedValuesFit(SchemaOf(code), rest);
    FieldsKept(code, DecodeValues(SchemaOf(code), rest).value.0);
    FromLeBound(s[1..][..2]);
  }

  /** A message survives the wire if and only if every field fits. */
  lemma RoundTripIff(m: Msg, tail: Input)
    ensures DecodeMsg(EncodeMsg(m) + tail) == Some((m, tail)) <==> InBounds(m)
  {
    if InBounds(m) {
      MsgRoundTrip(m, tail);
    } else if DecodeMsg(EncodeMsg(m) + tail) == Some((m, tail)) {
      DecodedInBounds(EncodeMsg(m) + tail);
    }
  }

  /** No encoding is the start of another, so a stream of messages can be cut in only one way. */
  lemma EncodingsUnambiguous(a: Msg, b: Msg, rest: Input, rest': Input)
    requires InBounds(a) && InBounds(b) && EncodeMsg(a) + rest == EncodeMsg(b) + rest'
    ensures a == b && rest == rest'
  {
    MsgRoundTrip(a, rest);
    MsgRoundTrip(b, rest');
  }

  lemma CodeByte(f: FCall)
    ensures Code(f) < 256
  {
    CallOfValues(f);
  }

  /** The first byte is the message type and the next two the tag, the low byte first. */
  lemma HeadLayout(m: Msg)
    requires m.tag < 0x1_0000
    ensures |EncodeMsg(m)| >= 3 && EncodeMsg(m)[0] as nat == Code(m.body)
    ensures m.tag == EncodeMsg(m)[1] as nat + 256 * EncodeMsg(m)[2] as nat
  {
    CodeByte(m.body);
    HeadBytes(Code(m.body), m.tag, EncodeBody(m.body));
    TagBytes(m.tag);
  }

  lemma TagBytes(tag: nat)
    requires tag < 0x1_0000
    ensures Le(tag, 2)[0] as nat == tag % 256 && Le(tag, 2)[1] as nat == tag / 256
  {
    assert Le(tag, 2)[1..] == Le(tag / 256, 1);
  }

  lemma HeadBytes(code: nat, tag: nat, body: seq<byte>)
    requires code < 256
    ensures |Framed(code, tag, body)| >= 3
    ensures Framed(code, tag, body)[0] as nat == code
    ensures Framed(code, tag, body)[1] == Le(tag, 2)[0] && Framed(code, tag, body)[2] == Le(tag, 2)[1]
  {
  }

  lemma HeadCode(s: Input)
    requires s != [] && ReadHead(s).Some?
    ensures ReadHead(s).value.0 == s[0] as nat
  {
    assert s[..1][1..] == [] && FromLe(s[..1]) == s[0] as nat + 256 * FromLe([]);
  }

  /** A type not in use is refused. */
  lemma UnknownRefused(s: Input)
    requires s != [] && !Known(s[0] as nat)
    ensures DecodeMsg(s) == None
  {
    if ReadHead(s).Some? { HeadCode(s); }
  }
}
