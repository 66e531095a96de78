/** The wire forms of 9P2000.L (crates/rs9p/src/serialize.rs): little-endian integers, flag words, counted
    strings, data, counted lists, and lists framed by their length in bytes; and what decoding undoes. */
module Wire {
  import opened Common

  type Text = seq<byte>

  // ----- integers -----

  datatype Width = W1 | W2 | W4 | W8

  function Size(w: Width): nat { match w case W1 => 1 case W2 => 2 case W4 => 4 case W8 => 8 }

  function Pow256(n: nat): nat { if n == 0 then 1 else 256 * Pow256(n - 1) }

  /** The low `n` bytes of a number, least significant first. */
  function Le(x: nat, n: nat): (s: seq<byte>)
    ensures |s| == n
  {
    if n == 0 then [] else [(x % 256) as byte] + Le(x / 256, n - 1)
  }

  function FromLe(s: seq<byte>): nat { if s == [] then 0 else s[0] as nat + 256 * FromLe(s[1..]) }

  lemma {:induction false} LeRoundTrip(x: nat, n: nat)
    requires x < Pow256(n)
    ensures FromLe(Le(x, n)) == x
    decreases n
  {
    if n > 0 {
      LeRoundTrip(x / 256, n - 1);
      assert Le(x, n)[1..] == Le(x / 256, n - 1);
    }
  }

  /** Byte `i` of a number holds its bits from `8 * i` on. */
  lemma {:induction false} LeByte(x: nat, n: nat, i: nat)
    requires i < n
    ensures Pow256(i) > 0 && Le(x, n)[i] as nat == x / Pow256(i) % 256
    decreases n
  {
    if i > 0 {
      LeByte(x / 256, n - 1, i - 1);
      DivideTwice(x, Pow256(i - 1));
    }
  }

  lemma DivideTwice(x: nat, p: nat)
    requires p > 0
    ensures x / 256 / p == x / (256 * p)
  {
    var q, r := x / 256 / p, x / 256 % p;
    var low := x % 256;
    assert x == 256 * (q * p + r) + low;
    assert 256 * (q * p + r) + low == (256 * p) * q + (256 * r + low);
    assert 256 * r + low < 256 * p;
    Quotient(x, 256 * p, q, 256 * r + low);
  }

  lemma Quotient(x: nat, d: nat, q: nat, r: nat)
    requires d > 0 && x == d * q + r && r < d
    ensures x / d == q
  {
    var q', r' := x / d, x % d;
    assert x == d * q' + r';
    if q < q' { MultipleGrows(d, q, q'); }
    if q' < q { MultipleGrows(d, q', q); }
  }

  lemma {:induction false} MultipleGrows(d: nat, a: nat, b: nat)
    requires a < b
    ensures d * a + d <= d * b
    decreases b
  {
    assert d * b == d * (b - 1) + d;
    if a < b - 1 { MultipleGrows(d, a, b - 1); }
  }

  /** A digit at its place. */
  function Weight(digit: byte, place: nat): nat { digit as nat * Pow256(place) }

  lemma WeightShift(digit: byte, place: nat)
    ensures Weight(digit, 0) == digit as nat && Weight(digit, place + 1) == 256 * Weight(digit, place)
  {
    var d, p := digit as nat, Pow256(place);
    assert d * (256 * p) == 256 * (d * p);
  }

  /** The digits of a number to base 256, each at its place. */
  function Places(s: seq<byte>, n: nat): nat
    requires n <= |s|
  {
    if n == 0 then 0 else Places(s, n - 1) + Weight(s[n - 1], n - 1)
  }

  lemma {:induction false} FromLePlaces(s: seq<byte>)
    ensures FromLe(s) == Places(s, |s|)
    decreases |s|
  {
    if s != [] {
      FromLePlaces(s[1..]);
      PlacesShift(s, |s| - 1);
    }
  }

  lemma {:induction false} PlacesShift(s: seq<byte>, n: nat)
    requires n < |s|
    ensures Places(s, n + 1) == s[0] as nat + 256 * Places(s[1..], n)
  {
    if n == 0 {
      WeightShift(s[0], 0);
      assert Places(s, 1) == Places(s, 0) + Weight(s[0], 0);
    } else {
      PlacesShift(s, n - 1);
      WeightShift(s[n], n - 1);
      assert s[1..][n - 1] == s[n];
    }
  }

  lemma {:induction false} FromLeBound(s: seq<byte>)
    ensures FromLe(s) < Pow256(|s|)
    decreases |s|
  {
    if s != [] { FromLeBound(s[1..]); }
  }

  // ----- UTF-8 -----

  predicate Between(b: byte, lo: byte, hi: byte) { lo <= b <= hi }

  predicate Tails(s: seq<byte>, n: nat) { n < |s| && forall i :: 1 <= i <= n ==> Between(s[i], 0x80, 0xBF) }

  /** Well-formed UTF-8, section 4 of RFC 3629. */
  predicate Utf8(s: seq<byte>)
    decreases |s|
  {
    if s == [] then true
    else if s[0] < 0x80 then Utf8(s[1..])
    else if Between(s[0], 0xC2, 0xDF) then Tails(s, 1) && Utf8(s[2..])
    else if Between(s[0], 0xE0, 0xEF) then
      Tails(s, 2) && (s[0] == 0xE0 ==> s[1] >= 0xA0) && (s[0] == 0xED ==> s[1] <= 0x9F) && Utf8(s[3..])
    else if Between(s[0], 0xF0, 0xF4) then
      Tails(s, 3) && (s[0] == 0xF0 ==> s[1] >= 0x90) && (s[0] == 0xF4 ==> s[1] <= 0x8F) && Utf8(s[4..])
    else false
  }

  // ----- atoms -----

  /** An integer; a flag word, whose known bits are always the lowest ones, so that `known` is their mask and one
      less than a power of two; a string; or a block of data. */
  datatype Leaf = Uint(width: Width) | Flags(width: Width, known: nat) | Str | Blob

  datatype Atom = Num(n: nat) | Raw(bytes: seq<byte>)

  /** The width of the length in front of bytes. */
  function Prefix(l: Leaf): nat { if l.Str? then 2 else 4 }

  predicate Shaped(l: Leaf, a: Atom) { a.Num? <==> l.Uint? || l.Flags? }

  /** The atom survives the wire: it is within its width, its known bits or its length field. */
  predicate Fits(l: Leaf, a: Atom) {
    && Shaped(l, a)
    && match l
       case Uint(w) => a.n < Pow256(Size(w))
       case Flags(w, known) => a.n < Pow256(Size(w)) && a.n <= known
       case Str => |a.bytes| < Pow256(2) && Utf8(a.bytes)
       case Blob => |a.bytes| < Pow256(4)
  }

  /** Lengths are cut to the width of their field; the bytes are not. */
  function EncodeAtom(l: Leaf, a: Atom): seq<byte> {
    match a
    case Num(n) => Le(n, if l.Uint? || l.Flags? then Size(l.width) else 0)
    case Raw(bytes) => Le(|bytes|, Prefix(l)) + bytes
  }

  type Input = seq<byte>

  function ReadInt(s: Input, n: nat): Option<(nat, Input)> { if |s| < n then None else Some((FromLe(s[..n]), s[n..])) }

  function ReadBytes(s: Input, n: nat): Option<(Input, Input)> { if |s| < n then None else Some((s[..n], s[n..])) }

  /** A length of `n` bytes, then as many bytes. */
  function ReadCounted(s: Input, n: nat): (r: Option<(Input, Input)>)
    ensures r.Some? ==> |r.value.1| + n <= |s|
  {
    var len := ReadInt(s, n);
    if len.None? then None else ReadBytes(len.value.1, len.value.0)
  }

  function DecodeAtom(l: Leaf, s: Input): (r: Option<(Atom, Input)>)
    ensures r.Some? ==> |r.value.1| < |s|
  {
    match l
    case Uint(w) =>
      var r := ReadInt(s, Size(w));
      if r.None? then None else Some((Num(r.value.0), r.value.1))
    case Flags(w, known) =>
      var r := ReadInt(s, Size(w));
      if r.None? then None else Some((Num(r.value.0 % (known + 1)), r.value.1))
    case Str =>
      var r := ReadCounted(s, 2);
      if r.None? || !Utf8(r.value.0) then None else Some((Raw(r.value.0), r.value.1))
    case Blob =>
      var r := ReadCounted(s, 4);
      if r.None? then None else Some((Raw(r.value.0), r.value.1))
  }

  lemma ReadIntLe(x: nat, n: nat, tail: Input)
    requires x < Pow256(n)
    ensures ReadInt(Le(x, n) + tail, n) == Some((x, tail))
  {
    LeRoundTrip(x, n);
    assert (Le(x, n) + tail)[..n] == Le(x, n) && (Le(x, n) + tail)[n..] == tail;
  }

  lemma ModSmall(x: nat, m: nat)
    requires x < m
    ensures x % m == x
  {
  }

  lemma AtomRoundTrip(l: Leaf, a: Atom, tail: Input)
    requires Fits(l, a)
    ensures DecodeAtom(l, EncodeAtom(l, a) + tail) == Some((a, tail))
  {
    match a
    case Num(n) =>
      ReadIntLe(n, Size(l.width), tail);
      if l.Flags? { ModSmall(n, l.known + 1); }
    case Raw(bytes) =>
      assert Le(|bytes|, Prefix(l)) + bytes + tail == Le(|bytes|, Prefix(l)) + (bytes + tail);
      ReadIntLe(|bytes|, Prefix(l), bytes + tail);
      assert (bytes + tail)[..|bytes|] == bytes && (bytes + tail)[|bytes|..] == tail;
  }

  /** Whatever is decoded fits. */
  lemma DecodedAtomFits(l: Leaf, s: Input)
    requires DecodeAtom(l, s).Some? && (l.Flags? ==> l.known < Pow256(Size(l.width)))
    ensures Fits(l, DecodeAtom(l, s).value.0)
  {
    match l
    case Uint(w) => FromLeBound(s[..Size(w)]);
    case Flags(w, known) =>
    case _ => FromLeBound(s[..Prefix(l)]);
  }

  // ----- rows of atoms -----

  type Row = seq<Leaf>
  type Atoms = seq<Atom>

  predicate RowFits(row: Row, atoms: Atoms) {
    true == (|row| == |atoms| && forall i :: 0 <= i < |row| ==> Fits(row[i], atoms[i]))
  }

  /** Masks are no wider than their words. */
  predicate Masked(row: Row) { forall l :: l in row && l.Flags? ==> l.known < Pow256(Size(l.width)) }

  function EncodeRow(row: Row, atoms: Atoms): seq<byte> {
    if row == [] || atoms == [] then [] else EncodeAtom(row[0], atoms[0]) + EncodeRow(row[1..], atoms[1..])
  }

  function DecodeRow(row: Row, s: Input): (r: Option<(Atoms, Input)>)
    ensures r.Some? ==> |r.value.1| <= |s| && (row != [] ==> |r.value.1| < |s|)
    decreases |row|
  {
    if row == [] then Some(([], s)) else
      var first := DecodeAtom(row[0], s);
      if first.None? then None else
        var rest := DecodeRow(row[1..], first.value.1);
        if rest.None? then None else Some(([first.value.0] + rest.value.0, rest.value.1))
  }

  lemma {:induction false} RowRoundTrip(row: Row, atoms: Atoms, tail: Input)
    requires RowFits(row, atoms)
    ensures DecodeRow(row, EncodeRow(row, atoms) + tail) == Some((atoms, tail))
    decreases |row|
  {
    if row == [] {
      assert EncodeRow(row, atoms) + tail == tail;
    } else {
      var first, rest := EncodeAtom(row[0], atoms[0]), EncodeRow(row[1..], atoms[1..]);
      Regroup(first, rest, tail);
      AtomRoundTrip(row[0], atoms[0], rest + tail);
      RowRoundTrip(row[1..], atoms[1..], tail);
      RowStep(row, first + (rest + tail), atoms[0], rest + tail, atoms[1..], tail);
      FirstAndRest(atoms);
    }
  }

  lemma RowStep(row: Row, s: Input, a: Atom, t: Input, atoms: Atoms, tail: Input)
    requires row != [] && DecodeAtom(row[0], s) == Some((a, t)) && DecodeRow(row[1..], t) == Some((atoms, tail))
    ensures DecodeRow(row, s) == Some(([a] + atoms, tail))
  {
  }

  lemma Regroup(a: Input, b: Input, c: Input)
    ensures a + b + c == a + (b + c)
  {
  }

  lemma FirstAndRest<T>(s: seq<T>)
    requires s != []
    ensures s == [s[0]] + s[1..]
  {
  }

  lemma {:induction false} DecodedRowFits(row: Row, s: Input)
    requires Masked(row) && DecodeRow(row, s).Some?
    ensures RowFits(row, DecodeRow(row, s).value.0)
    decreases |row|
  {
    if row != [] {
      DecodedAtomFits(row[0], s);
      DecodedRowFits(row[1..], DecodeAtom(row[0], s).value.1);
    }
  }

  // ----- lists -----

  type Reader<T> = Input -> Option<(T, Input)>

  function Concat<T>(enc: T -> seq<byte>, xs: seq<T>): seq<byte> {
    if xs == [] then [] else enc(xs[0]) + Concat(enc, xs[1..])
  }

  /** `n` items, one after the other. */
  function Many<T>(dec: Reader<T>, n: nat, s: Input): (r: Option<(seq<T>, Input)>)
    ensures r.Some? ==> |r.value.0| == n
    decreases n
  {
    if n == 0 then Some(([], s)) else
      var first := dec(s);
      if first.None? then None else
        var rest := Many(dec, n - 1, first.value.1);
        if rest.None? then None else Some(([first.value.0] + rest.value.0, rest.value.1))
  }

  /** Items until the bytes are used up. Every item takes at least one byte. */
  function All<T>(dec: Reader<T>, s: Input): Option<seq<T>>
    decreases |s|
  {
    if s == [] then Some([]) else
      var first := dec(s);
      if first.None? || |first.value.1| >= |s| then None else
        var rest := All(dec, first.value.1);
        if rest.None? then None else Some([first.value.0] + rest.value)
  }

  /** `dec` undoes `enc` on `x` and leaves what follows. */
  ghost predicate Undoes<T(!new)>(enc: T -> seq<byte>, dec: Reader<T>, x: T) {
    enc(x) != [] && forall tail: Input :: dec(enc(x) + tail) == Some((x, tail))
  }

  lemma {:induction false} ManyRoundTrip<T(!new)>(enc: T -> seq<byte>, dec: Reader<T>, xs: seq<T>, tail: Input)
    requires forall x :: x in xs ==> Undoes(enc, dec, x)
    ensures Many(dec, |xs|, Concat(enc, xs) + tail) == Some((xs, tail))
    decreases |xs|
  {
    if xs == [] {
      assert Concat(enc, xs) + tail == tail;
    } else {
      var rest := Concat(enc, xs[1..]);
      assert Concat(enc, xs) + tail == enc(xs[0]) + (rest + tail);
      assert Undoes(enc, dec, xs[0]);
      ManyRoundTrip(enc, dec, xs[1..], tail);
      assert xs == [xs[0]] + xs[1..];
    }
  }

  lemma {:induction false} AllRoundTrip<T(!new)>(enc: T -> seq<byte>, dec: Reader<T>, xs: seq<T>)
    requires forall x :: x in xs ==> Undoes(enc, dec, x)
    ensures All(dec, Concat(enc, xs)) == Some(xs)
    decreases |xs|
  {
    if xs != [] {
      assert Undoes(enc, dec, xs[0]);
      AllRoundTrip(enc, dec, xs[1..]);
      assert xs == [xs[0]] + xs[1..];
    }
  }

  // ----- lists of rows -----

  type Rows = seq<Atoms>

  predicate RowsFit(row: Row, rows: Rows) { forall i :: 0 <= i < |rows| ==> RowFits(row, rows[i]) }

  function EncodeRows(row: Row, rows: Rows): seq<byte> { Concat((atoms: Atoms) => EncodeRow(row, atoms), rows) }

  function DecodeRows(row: Row, n: nat, s: Input): Option<(Rows, Input)> { Many((t: Input) => DecodeRow(row, t), n, s) }

  function DecodeAll(row: Row, s: Input): Option<Rows> { All((t: Input) => DecodeRow(row, t), s) }

  lemma RowsUndone(row: Row, rows: Rows)
    requires row != [] && RowsFit(row, rows)
    ensures forall x :: x in rows ==> Undoes((atoms: Atoms) => EncodeRow(row, atoms), (t: Input) => DecodeRow(row, t), x)
  {
    forall x | x in rows ensures Undoes((atoms: Atoms) => EncodeRow(row, atoms), (t: Input) => DecodeRow(row, t), x) {
      forall tail ensures DecodeRow(row, EncodeRow(row, x) + tail) == Some((x, tail)) { RowRoundTrip(row, x, tail); }
      RowRoundTrip(row, x, []);
    }
  }

  lemma RowsRoundTrip(row: Row, rows: Rows, tail: Input)
    requires row != [] && RowsFit(row, rows)
    ensures DecodeRows(row, |rows|, EncodeRows(row, rows) + tail) == Some((rows, tail))
    ensures DecodeAll(row, EncodeRows(row, rows)) == Some(rows)
  {
    RowsUndone(row, rows);
    ManyRoundTrip((atoms: Atoms) => EncodeRow(row, atoms), (t: Input) => DecodeRow(row, t), rows, tail);
    AllRoundTrip((atoms: Atoms) => EncodeRow(row, atoms), (t: Input) => DecodeRow(row, t), rows);
  }

  lemma {:induction false} DecodedRowsFit(row: Row, n: nat, s: Input)
    requires Masked(row) && DecodeRows(row, n, s).Some?
    ensures RowsFit(row, DecodeRows(row, n, s).value.0)
    decreases n
  {
    if n > 0 {
      DecodedRowFits(row, s);
      DecodedRowsFit(row, n - 1, DecodeRow(row, s).value.1);
    }
  }

  /** Every byte of the block is a byte of some row, so what is decoded encodes to as many bytes. */
  lemma {:induction false} DecodedAllFits(row: Row, s: Input)
    requires row != [] && Masked(row) && DecodeAll(row, s).Some?
    ensures RowsFit(row, DecodeAll(row, s).value) && |EncodeRows(row, DecodeAll(row, s).value)| == |s|
    decreases |s|
  {
    if s != [] {
      DecodedRowFits(row, s);
      DecodedRowLength(row, s);
      DecodedAllFits(row, DecodeRow(row, s).value.1);
      var rows := DecodeAll(row, s).value;
      assert rows[1..] == DecodeAll(row, DecodeRow(row, s).value.1).value;
    }
  }

  lemma DecodedAtomLength(l: Leaf, s: Input)
    requires DecodeAtom(l, s).Some?
    ensures |EncodeAtom(l, DecodeAtom(l, s).value.0)| + |DecodeAtom(l, s).value.1| == |s|
  {
  }

  lemma {:induction false} DecodedRowLength(row: Row, s: Input)
    requires DecodeRow(row, s).Some?
    ensures |EncodeRow(row, DecodeRow(row, s).value.0)| + |DecodeRow(row, s).value.1| == |s|
    decreases |row|
  {
    if row != [] {
      DecodedAtomLength(row[0], s);
      DecodedRowLength(row[1..], DecodeAtom(row[0], s).value.1);
      var atoms := DecodeRow(row, s).value.0;
      assert atoms[1..] == DecodeRow(row[1..], DecodeAtom(row[0], s).value.1).value.0;
    }
  }

  // ----- fields -----

  /** An atom, a list led by the number of its rows, or a list led by the number of its bytes. */
  datatype Kind = One(leaf: Leaf) | Counted(row: Row) | Framed(row: Row)

  datatype Value = Single(atom: Atom) | List(rows: Rows)

  predicate KindOk(k: Kind) { if k.One? then Masked([k.leaf]) else k.row != [] && Masked(k.row) }

  /** A framed list fits if its rows do and their bytes can be counted in four. */
  predicate ValueFits(k: Kind, v: Value) {
    match k
    case One(leaf) => v.Single? && Fits(leaf, v.atom)
    case Counted(row) => v.List? && RowsFit(row, v.rows) && |v.rows| < Pow256(2)
    case Framed(row) => v.List? && RowsFit(row, v.rows) && |EncodeRows(row, v.rows)| < Pow256(4)
  }

  function EncodeValue(k: Kind, v: Value): seq<byte> {
    match k
    case One(leaf) => if v.Single? then EncodeAtom(leaf, v.atom) else []
    case Counted(row) => if v.List? then Le(|v.rows|, 2) + EncodeRows(row, v.rows) else []
    case Framed(row) => if v.List? then Le(|EncodeRows(row, v.rows)|, 4) + EncodeRows(row, v.rows) else []
  }

  function DecodeValue(k: Kind, s: Input): (r: Option<(Value, Input)>)
    requires KindOk(k)
  {
    match k
    case One(leaf) =>
      var r := DecodeAtom(leaf, s);
      if r.None? then None else Some((Single(r.value.0), r.value.1))
    case Counted(row) =>
      var n := ReadInt(s, 2);
      if n.None? then None else
        var r := DecodeRows(row, n.value.0, n.value.1);
        if r.None? then None else Some((List(r.value.0), r.value.1))
    case Framed(row) =>
      var block := ReadCounted(s, 4);
      if block.None? then None else
        var r := DecodeAll(row, block.value.0);
        if r.None? then None else Some((List(r.value), block.value.1))
  }

  lemma ReadPrefix(x: nat, n: nat, body: seq<byte>, tail: Input)
    requires x < Pow256(n)
    ensures ReadInt(Le(x, n) + body + tail, n) == Some((x, body + tail))
  {
    Regroup(Le(x, n), body, tail);
    ReadIntLe(x, n, body + tail);
  }

  lemma ReadFrame(n: nat, body: seq<byte>, tail: Input)
    requires |body| < Pow256(n)
    ensures ReadCounted(Le(|body|, n) + body + tail, n) == Some((body, tail))
  {
    ReadPrefix(|body|, n, body, tail);
    assert (body + tail)[..|body|] == body && (body + tail)[|body|..] == tail;
  }

  lemma ValueRoundTrip(k: Kind, v: Value, tail: Input)
    requires KindOk(k) && ValueFits(k, v)
    ensures DecodeValue(k, EncodeValue(k, v) + tail) == Some((v, tail))
  {
    match k
    case One(leaf) => AtomRoundTrip(leaf, v.atom, tail);
    case Counted(row) =>
      ReadPrefix(|v.rows|, 2, EncodeRows(row, v.rows), tail);
      RowsRoundTrip(row, v.rows, tail);
    case Framed(row) =>
      ReadFrame(4, EncodeRows(row, v.rows), tail);
      RowsRoundTrip(row, v.rows, []);
  }

  lemma DecodedValueFits(k: Kind, s: Input)
    requires KindOk(k) && DecodeValue(k, s).Some?
    ensures ValueFits(k, DecodeValue(k, s).value.0)
  {
    match k
    case One(leaf) =>
      assert leaf in [leaf];
      DecodedAtomFits(leaf, s);
    case Counted(row) =>
      FromLeBound(s[..2]);
      DecodedRowsFit(row, ReadInt(s, 2).value.0, ReadInt(s, 2).value.1);
    case Framed(row) =>
      FromLeBound(s[..4]);
      DecodedAllFits(row, ReadCounted(s, 4).value.0);
  }

  // ----- sequences of fields -----

  type Schema = seq<Kind>
  type Values = seq<Value>

  predicate SchemaOk(schema: Schema) { forall k :: k in schema ==> KindOk(k) }

  predicate AllFit(schema: Schema, vs: Values) {
    |schema| == |vs| && forall i :: 0 <= i < |vs| ==> ValueFits(schema[i], vs[i])
  }

  function EncodeValues(schema: Schema, vs: Values): seq<byte> {
    if schema == [] || vs == [] then [] else EncodeValue(schema[0], vs[0]) + EncodeValues(schema[1..], vs[1..])
  }

  function DecodeValues(schema: Schema, s: Input): (r: Option<(Values, Input)>)
    requires SchemaOk(schema)
    decreases |schema|
  {
    if schema == [] then Some(([], s)) else
      var first := DecodeValue(schema[0], s);
      if first.None? then None else
        var rest := DecodeValues(schema[1..], first.value.1);
        if rest.None? then None else Some(([first.value.0] + rest.value.0, rest.value.1))
  }

  lemma {:induction false} ValuesRoundTrip(schema: Schema, vs: Values, tail: Input)
    requires SchemaOk(schema) && AllFit(schema, vs)
    ensures DecodeValues(schema, EncodeValues(schema, vs) + tail) == Some((vs, tail))
    decreases |schema|
  {
    if schema == [] {
      assert EncodeValues(schema, vs) + tail == tail;
    } else {
      var first, rest := EncodeValue(schema[0], vs[0]), EncodeValues(schema[1..], vs[1..]);
      Regroup(first, rest, tail);
      ValueRoundTrip(schema[0], vs[0], rest + tail);
      ValuesRoundTrip(schema[1..], vs[1..], tail);
      ValuesStep(schema, first + (rest + tail), vs[0], rest + tail, vs[1..], tail);
      FirstAndRest(vs);
    }
  }

  lemma ValuesStep(schema: Schema, s: Input, v: Value, t: Input, vs: Values, tail: Input)
    requires SchemaOk(schema) && schema != []
    requires DecodeValue(schema[0], s) == Some((v, t)) && DecodeValues(schema[1..], t) == Some((vs, tail))
    ensures DecodeValues(schema, s) == Some(([v] + vs, tail))
  {
  }

  lemma {:induction false} DecodedValuesFit(schema: Schema, s: Input)
    requires SchemaOk(schema) && DecodeValues(schema, s).Some?
    ensures AllFit(schema, DecodeValues(schema, s).value.0)
    decreases |schema|
  {
    if schema != [] {
      DecodedValueFits(schema[0], s);
      DecodedValuesFit(schema[1..], DecodeValue(schema[0], s).value.1);
    }
  }
}
