// Records on the wire: what the stream operators write field by field, and
// what they read back.
// Source: src/ipc/ipcserialize.h, src/ipc/mediaprotocol.h.
module WireFormat {
  import opened Common
  import opened IpcFraming

  // A QString as its UTF-16 units; a null string is told apart from an empty
  // one on the wire.
  type Unit = u: int | 0 <= u < 0x1_0000

  datatype Text = Null | Text(units: seq<Unit>)

  // How the length in front of a list is read. Qt's own lists have a quint32.
  // Elsewhere it is a qint32: a negative one reads as an empty list where the
  // loop alone uses it, and throws where memory is reserved or filled with it.
  datatype Length = Unsigned | Signed | Reserved

  // One field. A real number is its 8-byte image, which is how a stream of this
  // version writes floats too.
  datatype Value =
    | Int32(i: int)
    | Int64(i: int)
    | Flag(b: bool)
    | Real(image: Bytes)
    | Str(text: Text)
    | Many(length: Length, rows: seq<Record>)

  datatype Record = Record(fields: seq<Value>)

  datatype Kind =
    | KInt32
    | KInt64
    | KFlag
    | KReal
    | KStr
    | KMany(length: Length, fields: seq<Kind>)

  const NULL_TEXT := 0xFFFF_FFFF

  const TWO32 := 0x1_0000_0000

  // ---- What a value has to be to go on the wire ----

  function Limit(length: Length): int { if length == Unsigned then TWO32 else 0x8000_0000 }

  predicate Is(v: Value, k: Kind)
    decreases v
  {
    match v
    case Int32(i) => k == KInt32 && -0x8000_0000 <= i < 0x8000_0000
    case Int64(i) => k == KInt64 && -0x8000_0000_0000_0000 <= i < 0x8000_0000_0000_0000
    case Flag(_) => k == KFlag
    case Real(image) => k == KReal && |image| == 8
    case Str(text) => k == KStr && (text.Text? ==> 2 * |text.units| < NULL_TEXT)
    case Many(length, rows) =>
      && k.KMany? && k.length == length && |rows| < Limit(length)
      && forall i :: 0 <= i < |rows| ==> Are(rows[i].fields, k.fields)
  }

  predicate Are(vs: seq<Value>, ks: seq<Kind>)
    decreases vs
  {
    |vs| == |ks| && forall i :: 0 <= i < |vs| ==> Is(vs[i], ks[i])
  }

  // ---- Writing ----

  function PutUnits(us: seq<Unit>): Bytes {
    if us == [] then [] else Put16(us[0]) + PutUnits(us[1..])
  }

  function PutText(t: Text): Bytes {
    match t
    case Null => Put32(NULL_TEXT)
    case Text(units) => Put32(2 * |units|) + PutUnits(units)
  }

  function Put(v: Value): Bytes
    decreases v
  {
    match v
    case Int32(i) => Put32(i % TWO32)
    case Int64(i) => Put32(i / TWO32 % TWO32) + Put32(i % TWO32)
    case Flag(b) => [if b then 1 else 0]
    case Real(image) => image
    case Str(text) => PutText(text)
    case Many(_, rows) => Put32(|rows|) + PutRows(rows)
  }

  function PutAll(vs: seq<Value>): Bytes
    decreases vs
  {
    if vs == [] then [] else Put(vs[0]) + PutAll(vs[1..])
  }

  function PutRows(rows: seq<Record>): Bytes
    decreases rows
  {
    if rows == [] then [] else PutAll(rows[0].fields) + PutRows(rows[1..])
  }

  // ---- Reading ----

  // What was read and what is left; None once the stream has run dry, or where
  // reading throws.
  datatype Got<T> = Got(value: T, rest: Bytes)

  function TakeN(n: nat, b: Bytes): Option<Got<Bytes>> {
    if |b| < n then None else Some(Got(b[..n], b[n..]))
  }

  function Take32(b: Bytes): (r: Option<Got<nat>>)
    ensures r.Some? ==> |r.value.rest| < |b|
  {
    if |b| < 4 then None else Some(Got(Get32(b[..4]), b[4..]))
  }

  function Signed32(u: int): int { if u < 0x8000_0000 then u else u - TWO32 }

  // How many elements are read; None where the code throws.
  function CountIn(length: Length, u: nat): Option<nat> {
    match length
    case Unsigned => Some(u)
    case Signed => Some(Max(0, Signed32(u)))
    case Reserved => if Signed32(u) < 0 then None else Some(Signed32(u))
  }

  function GetUnits(b: Bytes): seq<Unit>
    decreases |b|
  {
    if |b| < 2 then []
    else
      var hi: int, lo: int := b[0], b[1];
      [hi * 0x100 + lo] + GetUnits(b[2..])
  }

  function TakeText(b: Bytes): Option<Got<Value>> {
    match Take32(b)
    case None => None
    case Some(len) =>
      if len.value == NULL_TEXT then Some(Got(Str(Null), len.rest))
      else if len.value % 2 == 1 then None
      else
        match TakeN(len.value, len.rest)
        case None => None
        case Some(units) => Some(Got(Str(Text(GetUnits(units.value))), units.rest))
  }

  function Take(k: Kind, b: Bytes): Option<Got<Value>>
    decreases k, 0, 0
  {
    match k
    case KInt32 =>
      (match Take32(b)
       case None => None
       case Some(u) => Some(Got(Int32(Signed32(u.value)), u.rest)))
    case KInt64 =>
      (match Take32(b)
       case None => None
       case Some(hi) =>
         match Take32(hi.rest)
         case None => None
         case Some(lo) => Some(Got(Int64(Signed32(hi.value) * TWO32 + lo.value), lo.rest)))
    case KFlag => if b == [] then None else Some(Got(Flag(b[0] != 0), b[1..]))
    case KReal =>
      (match TakeN(8, b)
       case None => None
       case Some(image) => Some(Got(Real(image.value), image.rest)))
    case KStr => TakeText(b)
    case KMany(length, fields) =>
      match Take32(b)
      case None => None
      case Some(n) =>
        match CountIn(length, n.value)
        case None => None
        case Some(count) =>
          match TakeRows(count, fields, n.rest)
          case None => None
          case Some(rows) => Some(Got(Many(length, rows.value), rows.rest))
  }

  function TakeAll(ks: seq<Kind>, b: Bytes): (r: Option<Got<seq<Value>>>)
    ensures r.Some? ==> |r.value.value| == |ks|
    decreases ks, 0, |ks|
  {
    if ks == [] then Some(Got([], b))
    else
      match Take(ks[0], b)
      case None => None
      case Some(first) =>
        match TakeAll(ks[1..], first.rest)
        case None => None
        case Some(more) => Some(Got([first.value] + more.value, more.rest))
  }

  function TakeRows(n: nat, ks: seq<Kind>, b: Bytes): Option<Got<seq<Record>>>
    decreases ks, 1, n
  {
    if n == 0 then Some(Got([], b))
    else
      match TakeAll(ks, b)
      case None => None
      case Some(first) =>
        match TakeRows(n - 1, ks, first.rest)
        case None => None
        case Some(more) => Some(Got([Record(first.value)] + more.value, more.rest))
  }

  // ---- The bytes ----

  lemma {:induction false} BigEndianJoin(a: Bytes, b: Bytes)
    ensures |b| == 4 ==> BigEndian(a + b) == TWO32 * BigEndian(a) + BigEndian(b)
  {
    if |b| == 4 {
      assert (a + b)[..|a| + 3] == a + b[..3] && (a + b[..3])[..|a| + 2] == a + b[..2];
      assert (a + b[..2])[..|a| + 1] == a + b[..1] && (a + b[..1])[..|a|] == a;
      assert b[..3][..2] == b[..2] && b[..2][..1] == b[..1] && b[..1][..0] == [];
      assert BigEndian(a + b[..1]) == 0x100 * BigEndian(a) + BigEndian(b[..1]);
      assert BigEndian(a + b[..2]) == 0x1_0000 * BigEndian(a) + BigEndian(b[..2]);
      assert BigEndian(a + b[..3]) == 0x100_0000 * BigEndian(a) + BigEndian(b[..3]);
    }
  }

  // Numbers stand with their most significant byte first, negative ones as their
  // two's complement; a flag is 1 or 0; a text is how many bytes it has and its
  // UTF-16 units, a null one the largest length alone; a list is how many rows it
  // has and the rows.
  lemma BytesOf(v: Value)
    ensures v.Int32? ==> |Put(v)| == 4 && BigEndian(Put(v)) == v.i % 0x1_0000_0000
    ensures v.Int64? ==> |Put(v)| == 8 && BigEndian(Put(v)) == v.i % 0x1_0000_0000_0000_0000
    ensures v.Flag? ==> Put(v) == [if v.b then 1 else 0]
    ensures v.Real? ==> Put(v) == v.image
    ensures v.Str? && v.text.Null? ==> Put(v) == [255, 255, 255, 255]
    ensures v.Str? && v.text.Text? && 2 * |v.text.units| < TWO32 ==>
              && |Put(v)| == 4 + 2 * |v.text.units| && BigEndian(Put(v)[..4]) == 2 * |v.text.units|
              && forall i :: 0 <= i < |v.text.units| ==> BigEndian(Put(v)[4 + 2 * i..6 + 2 * i]) == v.text.units[i]
    ensures v.Many? && |v.rows| < TWO32 ==> |Put(v)| >= 4 && BigEndian(Put(v)[..4]) == |v.rows| && Put(v)[4..] == PutRows(v.rows)
  {
    match v
    case Int32(i) => Put32Is(i % TWO32);
    case Int64(i) => WideBytes(i);
    case Str(Text(units)) =>
      if 2 * |units| < TWO32 {
        TextBytes(units);
      }
    case Many(_, rows) =>
      if |rows| < TWO32 {
        Put32Is(|rows|);
        assert Put(v)[..4] == Put32(|rows|) && Put(v)[4..] == PutRows(rows);
      }
    case _ =>
  }

  lemma WideBytes(i: int)
    ensures var b := Put(Int64(i)); |b| == 8 && BigEndian(b) == i % 0x1_0000_0000_0000_0000
  {
    var hi, lo := i / TWO32 % TWO32, i % TWO32;
    Put32Is(hi);
    Put32Is(lo);
    BigEndianJoin(Put32(hi), Put32(lo));
    hide BigEndian;
    assert i % 0x1_0000_0000_0000_0000 == hi * TWO32 + lo;
  }

  lemma Put32Is(n: nat)
    requires n < TWO32
    ensures BigEndian(Put32(n)) == n
  {
    Get32Put32(n);
    BigEndianOfFour(Put32(n));
  }

  lemma TextBytes(units: seq<Unit>)
    requires 2 * |units| < TWO32
    ensures var b := PutText(Text(units));
            && |b| == 4 + 2 * |units| && BigEndian(b[..4]) == 2 * |units|
            && forall i :: 0 <= i < |units| ==> BigEndian(b[4 + 2 * i..6 + 2 * i]) == units[i]
  {
    var b := PutText(Text(units));
    Put32Is(2 * |units|);
    UnitBytes(units);
    assert b[..4] == Put32(2 * |units|) && b[4..] == PutUnits(units);
    hide Put32, PutUnits;
    forall i | 0 <= i < |units| ensures BigEndian(b[4 + 2 * i..6 + 2 * i]) == units[i] {
      assert b[4 + 2 * i..6 + 2 * i] == b[4..][2 * i..2 * i + 2];
    }
  }

  lemma {:induction false} UnitBytes(units: seq<Unit>)
    ensures |PutUnits(units)| == 2 * |units|
    ensures forall i :: 0 <= i < |units| ==> BigEndian(PutUnits(units)[2 * i..2 * i + 2]) == units[i]
  {
    if units != [] {
      var b, rest := PutUnits(units), PutUnits(units[1..]);
      UnitBytes(units[1..]);
      UnitIs(units[0]);
      forall i | 0 <= i < |units| ensures BigEndian(b[2 * i..2 * i + 2]) == units[i] {
        if i == 0 {
          assert b[0..2] == Put16(units[0]);
        } else {
          assert b[2 * i..2 * i + 2] == rest[2 * (i - 1)..2 * (i - 1) + 2];
        }
      }
    }
  }

  lemma UnitIs(u: Unit)
    ensures BigEndian(Put16(u)) == u
  {
    var b := Put16(u);
    assert b[..1][..0] == [] && BigEndian(b[..1]) == u / 0x100;
  }

  // ---- Reading undoes writing ----

  lemma Reads32(n: nat, rest: Bytes)
    requires n < TWO32
    ensures Take32(Put32(n) + rest) == Some(Got(n, rest))
  {
    Get32Put32(n);
    assert (Put32(n) + rest)[..4] == Put32(n) && (Put32(n) + rest)[4..] == rest;
  }

  lemma SignBack64(i: int)
    requires -0x8000_0000_0000_0000 <= i < 0x8000_0000_0000_0000
    ensures Signed32(i / TWO32 % TWO32) * TWO32 + i % TWO32 == i
  {
  }

  lemma {:induction false} UnitsBack(us: seq<Unit>)
    ensures |PutUnits(us)| == 2 * |us| && GetUnits(PutUnits(us)) == us
  {
    if us != [] {
      UnitsBack(us[1..]);
      assert PutUnits(us)[2..] == PutUnits(us[1..]);
    }
  }

  lemma TextBack(t: Text, rest: Bytes)
    requires Is(Str(t), KStr)
    ensures TakeText(PutText(t) + rest) == Some(Got(Str(t), rest))
  {
    if t.Null? {
      Reads32(NULL_TEXT, rest);
    } else {
      var units := PutUnits(t.units);
      UnitsBack(t.units);
      assert PutText(t) + rest == Put32(2 * |t.units|) + (units + rest);
      Reads32(2 * |t.units|, units + rest);
      assert (units + rest)[..|units|] == units && (units + rest)[|units|..] == rest;
    }
  }

  lemma {:induction false} TakesBack(v: Value, k: Kind, rest: Bytes)
    requires Is(v, k)
    ensures Take(k, Put(v) + rest) == Some(Got(v, rest))
    decreases v
  {
    hide TakeRows, PutRows;
    match v
    case Int32(i) =>
      Reads32(i % TWO32, rest);
    case Int64(i) => Int64Back(i, rest);
    case Flag(b) => assert (Put(v) + rest)[1..] == rest;
    case Real(image) => assert (image + rest)[..8] == image && (image + rest)[8..] == rest;
    case Str(text) => TextBack(text, rest);
    case Many(length, rows) =>
      RowsBack(rows, k.fields, rest);
      ManyBack(length, rows, k.fields, rest);
  }

  lemma Int64Back(i: int, rest: Bytes)
    requires Is(Int64(i), KInt64)
    ensures Take(KInt64, Put(Int64(i)) + rest) == Some(Got(Int64(i), rest))
  {
    var hi, lo := i / TWO32 % TWO32, i % TWO32;
    assert Put(Int64(i)) + rest == Put32(hi) + (Put32(lo) + rest);
    hide Put32, Take32, Signed32;
    Reads32(hi, Put32(lo) + rest);
    Reads32(lo, rest);
    SignBack64(i);
  }

  lemma ManyBack(length: Length, rows: seq<Record>, ks: seq<Kind>, rest: Bytes)
    requires |rows| < Limit(length)
    requires TakeRows(|rows|, ks, PutRows(rows) + rest) == Some(Got(rows, rest))
    ensures Take(KMany(length, ks), Put(Many(length, rows)) + rest) == Some(Got(Many(length, rows), rest))
  {
    assert Put(Many(length, rows)) + rest == Put32(|rows|) + (PutRows(rows) + rest);
    hide Put32, Take32, TakeRows, PutRows;
    Reads32(|rows|, PutRows(rows) + rest);
  }

  // A negative length reads as an empty list, or throws.
  lemma NegativeLengths(ks: seq<Kind>, rest: Bytes)
    ensures Take(KMany(Signed, ks), Put32(0xFFFF_FFFF) + rest) == Some(Got(Many(Signed, []), rest))
    ensures Take(KMany(Reserved, ks), Put32(0xFFFF_FFFF) + rest) == None
  {
    Reads32(0xFFFF_FFFF, rest);
  }

  // A text is read unless its length is cut short, is odd (but for the one that
  // stands for no text) or is more than what is left.
  lemma TextTaken(b: Bytes)
    ensures Take(KStr, b).None?
            <==> |b| < 4 || (BigEndian(b[..4]) != 0xFFFF_FFFF && (BigEndian(b[..4]) % 2 == 1 || BigEndian(b[..4]) > |b| - 4))
  {
    if |b| >= 4 {
      BigEndianOfFour(b[..4]);
    }
    hide GetUnits, BigEndian, Get32;
  }

  lemma {:induction false} RowsBack(rows: seq<Record>, ks: seq<Kind>, rest: Bytes)
    requires forall i :: 0 <= i < |rows| ==> Are(rows[i].fields, ks)
    ensures TakeRows(|rows|, ks, PutRows(rows) + rest) == Some(Got(rows, rest))
    decreases rows
  {
    if rows == [] {
      assert PutRows(rows) + rest == rest;
    } else {
      hide Are;
      var more := PutRows(rows[1..]) + rest;
      assert PutRows(rows) + rest == PutAll(rows[0].fields) + more;
      AllBack(rows[0].fields, ks, more);
      RowsBack(rows[1..], ks, rest);
      assert [Record(rows[0].fields)] + rows[1..] == rows;
    }
  }

  // Whatever follows it, a record reads back as it was and leaves exactly what
  // follows.
  lemma {:induction false} AllBack(vs: seq<Value>, ks: seq<Kind>, rest: Bytes)
    requires Are(vs, ks)
    ensures TakeAll(ks, PutAll(vs) + rest) == Some(Got(vs, rest))
    decreases vs
  {
    if vs == [] {
      assert PutAll(vs) + rest == rest;
    } else {
      hide Put, Take;
      var more := PutAll(vs[1..]) + rest;
      assert PutAll(vs) + rest == Put(vs[0]) + more;
      TakesBack(vs[0], ks[0], more);
      AllBack(vs[1..], ks[1..], rest);
      assert [vs[0]] + vs[1..] == vs;
    }
  }

  // So a stream of records of known kinds can be taken apart in one way only.
  lemma ReadsOneWay(a: seq<Value>, b: seq<Value>, ks: seq<Kind>, rest: Bytes, rest': Bytes)
    requires Are(a, ks) && Are(b, ks) && PutAll(a) + rest == PutAll(b) + rest'
    ensures a == b && rest == rest'
  {
    AllBack(a, ks, rest);
    AllBack(b, ks, rest');
  }

  // ---- Whatever is read is well formed ----

  lemma {:induction false} UnitsCount(b: Bytes)
    ensures |GetUnits(b)| == |b| / 2
    decreases |b|
  {
    if |b| >= 2 {
      UnitsCount(b[2..]);
    }
  }

  lemma {:induction false} TakenIs(k: Kind, b: Bytes)
    ensures Take(k, b).Some? ==> Is(Take(k, b).value.value, k)
    decreases k, 0, 0
  {
    match k
    case KMany(length, fields) =>
      if |b| >= 4 {
        var n := Get32(b[..4]);
        Below32(b[..4]);
        if CountIn(length, n).Some? {
          TakenRowsAre(CountIn(length, n).value, fields, b[4..]);
        }
      }
    case KStr =>
      if |b| >= 4 {
        Below32(b[..4]);
        var units := b[4..][..Min(Get32(b[..4]), |b| - 4)];
        UnitsCount(units);
      }
    case KInt32 =>
      if |b| >= 4 { Below32(b[..4]); }
    case KInt64 =>
      if |b| >= 8 { Below32(b[..4]); Below32(b[4..][..4]); }
    case _ =>
  }

  lemma Below32(b: Bytes)
    requires |b| == 4
    ensures Get32(b) < TWO32
  {
    var b0: int, b1: int, b2: int, b3: int := b[0], b[1], b[2], b[3];
  }

  lemma {:induction false} TakenAre(ks: seq<Kind>, b: Bytes)
    ensures TakeAll(ks, b).Some? ==> Are(TakeAll(ks, b).value.value, ks)
    decreases ks, 0, |ks|
  {
    hide Take, Is;
    if ks != [] {
      TakenIs(ks[0], b);
      if Take(ks[0], b).Some? {
        TakenAre(ks[1..], Take(ks[0], b).value.rest);
      }
    }
  }

  lemma {:induction false} TakenRowsAre(n: nat, ks: seq<Kind>, b: Bytes)
    ensures var r := TakeRows(n, ks, b);
            r.Some? ==> |r.value.value| == n && forall i :: 0 <= i < n ==> Are(r.value.value[i].fields, ks)
    decreases ks, 1, n
  {
    hide TakeAll, Are;
    if n > 0 {
      TakenAre(ks, b);
      if TakeAll(ks, b).Some? {
        TakenRowsAre(n - 1, ks, TakeAll(ks, b).value.rest);
      }
    }
  }
}

// The records themselves: each operator<< as the list of fields it writes, each
// operator>> as the kinds it reads and where it puts them.
module WireRecords {
  import opened Common
  import opened WireFormat
  import MF = MediaFrameSpec

  type Qint32 = i: int | -0x8000_0000 <= i < 0x8000_0000

  type Qint64 = i: int | -0x8000_0000_0000_0000 <= i < 0x8000_0000_0000_0000

  type Number = b: Bytes | |b| == 8 witness [0, 0, 0, 0, 0, 0, 0, 0]

  type QString = t: Text | t.Text? ==> 2 * |t.units| < NULL_TEXT witness Null

  // ---- Fields as they are kept, whatever was read ----

  function Int32Of(v: Value): Qint32 { if v.Int32? && -0x8000_0000 <= v.i < 0x8000_0000 then v.i else 0 }

  function Int64Of(v: Value): Qint64 {
    if v.Int64? && -0x8000_0000_0000_0000 <= v.i < 0x8000_0000_0000_0000 then v.i else 0
  }

  function FlagOf(v: Value): bool { v.Flag? && v.b }

  function NumberOf(v: Value): Number { if v.Real? && |v.image| == 8 then v.image else [0, 0, 0, 0, 0, 0, 0, 0] }

  function TextOf(v: Value): QString {
    if v.Str? && (v.text.Text? ==> 2 * |v.text.units| < NULL_TEXT) then v.text else Null
  }

  function RowsOf(v: Value): seq<Record> { if v.Many? then v.rows else [] }

  // ---- Lists of one record type ----

  function Each<A, B>(l: seq<A>, f: A -> B): (r: seq<B>)
    ensures |r| == |l| && forall i :: 0 <= i < |l| ==> r[i] == f(l[i])
  {
    seq(|l|, i requires 0 <= i < |l| => f(l[i]))
  }

  // A list whose elements can be written and read back can be, too.
  lemma EachReadsBack<T>(length: Length, l: seq<T>, put: T -> Record, get: Record -> T, ks: seq<Kind>)
    requires |l| < Limit(length)
    requires forall i :: 0 <= i < |l| ==> get(put(l[i])) == l[i] && Are(put(l[i]).fields, ks)
    ensures Is(Many(length, Each(l, put)), KMany(length, ks))
    ensures Each(RowsOf(Many(length, Each(l, put))), get) == l
  {
    hide Are;
  }

  function First(r: Record): Value { if r.fields == [] then Flag(false) else r.fields[0] }

  lemma AreJoin(a: seq<Value>, b: seq<Value>, ka: seq<Kind>, kb: seq<Kind>)
    requires Are(a, ka) && Are(b, kb)
    ensures Are(a + b, ka + kb)
  {
    hide Is;
  }

  lemma AreFew(vs: seq<Value>, ks: seq<Kind>)
    requires |vs| == |ks| <= 7
    requires (|vs| > 0 ==> Is(vs[0], ks[0])) && (|vs| > 1 ==> Is(vs[1], ks[1])) && (|vs| > 2 ==> Is(vs[2], ks[2]))
    requires (|vs| > 3 ==> Is(vs[3], ks[3])) && (|vs| > 4 ==> Is(vs[4], ks[4])) && (|vs| > 5 ==> Is(vs[5], ks[5]))
    requires |vs| > 6 ==> Is(vs[6], ks[6])
    ensures Are(vs, ks)
  {
    hide Is;
  }

  lemma PlainIs()
    ensures forall i: Qint32 :: Is(Int32(i), KInt32)
    ensures forall i: Qint64 :: Is(Int64(i), KInt64)
    ensures forall b: bool :: Is(Flag(b), KFlag)
    ensures forall x: Number :: Is(Real(x), KReal)
    ensures forall t: QString :: Is(Str(t), KStr)
  {
  }

  function IntRecord(i: Qint32): Record { Record([Int32(i)]) }

  function FlagRecord(b: bool): Record { Record([Flag(b)]) }

  function TextRecord(t: QString): Record { Record([Str(t)]) }

  // ---- std::vector<bool> ----

  // writeBoolVec and readBoolVec.
  const BOOL_VEC := [KMany(Reserved, [KFlag])]

  function BoolVecFields(v: seq<bool>): seq<Value> { [Many(Reserved, Each(v, FlagRecord))] }

  function BoolVecFrom(vs: seq<Value>): seq<bool>
    requires |vs| == |BOOL_VEC|
  {
    Each(RowsOf(vs[0]), (r: Record) => FlagOf(First(r)))
  }

  lemma BoolVecReadsBack(v: seq<bool>, rest: Bytes)
    requires |v| < 0x8000_0000
    ensures var r := TakeAll(BOOL_VEC, PutAll(BoolVecFields(v)) + rest);
            r.Some? && BoolVecFrom(r.value.value) == v && r.value.rest == rest
  {
    EachReadsBack(Reserved, v, FlagRecord, (r: Record) => FlagOf(First(r)), [KFlag]);
    AllBack(BoolVecFields(v), BOOL_VEC, rest);
  }

  // ---- AddOptions ----

  datatype AddOptions = AddOptions(savePath: QString, filePriorities: seq<Qint32>, paused: bool)

  const ADD_OPTIONS := [KStr, KMany(Signed, [KInt32]), KFlag]

  function AddOptionsFields(o: AddOptions): seq<Value> {
    [Str(o.savePath), Many(Signed, Each(o.filePriorities, IntRecord)), Flag(o.paused)]
  }

  function AddOptionsFrom(vs: seq<Value>): AddOptions
    requires |vs| == |ADD_OPTIONS|
  {
    AddOptions(TextOf(vs[0]), Each(RowsOf(vs[1]), (r: Record) => Int32Of(First(r))), FlagOf(vs[2]))
  }

  lemma AddOptionsReadsBack(o: AddOptions, rest: Bytes)
    requires |o.filePriorities| < 0x8000_0000
    ensures var r := TakeAll(ADD_OPTIONS, PutAll(AddOptionsFields(o)) + rest);
            r.Some? && AddOptionsFrom(r.value.value) == o && r.value.rest == rest
  {
    EachReadsBack(Signed, o.filePriorities, IntRecord, (r: Record) => Int32Of(First(r)), [KInt32]);
    AllBack(AddOptionsFields(o), ADD_OPTIONS, rest);
  }

  // ---- TorrentInfo, without its handle ----

  datatype TorrentInfo = TorrentInfo(
    name: QString, savePath: QString, totalSize: Qint64, totalDone: Qint64, progress: Number,
    downloadRate: Qint32, uploadRate: Qint32, numPeers: Qint32, numSeeds: Qint32,
    stateString: QString, stateDetail: QString, stateDetailShort: QString,
    paused: bool, completed: bool, finished: bool, seeding: bool, filesMissing: bool, hasError: bool,
    diskFull: bool, fetchingMetadata: bool, fetchingSecs: Qint64, queued: bool, queuePos: Qint32,
    ratio: Number, availability: Number, totalUploaded: Qint64, addedTime: Qint64, completedTime: Qint64,
    category: QString, tags: seq<QString>)

  const TEXTS := KMany(Unsigned, [KStr])

  // The fields in the order of the operators' lines.
  const NAMES := [KStr, KStr, KInt64, KInt64]
  const RATES := [KReal, KInt32, KInt32]
  const PEERS := [KInt32, KInt32, KStr, KStr]
  const TOTALS := [KFlag, KFlag, KReal, KReal]
  const LABELS := [KInt64, KInt64, KStr, TEXTS]
  const QUEUE := [KFlag, KInt32, KFlag]
  const DONE := [KFlag, KFlag]
  const WHY := [KFlag, KInt64, KFlag, KStr, KFlag, KInt64]

  const TORRENT := NAMES + (RATES + (PEERS + (TOTALS + (LABELS + (QUEUE + (DONE + WHY))))))

  function NameFields(t: TorrentInfo): seq<Value> {
    [Str(t.name), Str(t.savePath), Int64(t.totalSize), Int64(t.totalDone)]
  }

  function RateFields(t: TorrentInfo): seq<Value> { [Real(t.progress), Int32(t.downloadRate), Int32(t.uploadRate)] }

  function PeerFields(t: TorrentInfo): seq<Value> {
    [Int32(t.numPeers), Int32(t.numSeeds), Str(t.stateString), Str(t.stateDetail)]
  }

  function TotalFields(t: TorrentInfo): seq<Value> {
    [Flag(t.paused), Flag(t.completed), Real(t.ratio), Real(t.availability)]
  }

  function LabelFields(t: TorrentInfo): seq<Value> {
    [Int64(t.totalUploaded), Int64(t.addedTime), Str(t.category), Many(Unsigned, Each(t.tags, TextRecord))]
  }

  function QueueFields(t: TorrentInfo): seq<Value> { [Flag(t.queued), Int32(t.queuePos), Flag(t.filesMissing)] }

  function DoneFields(t: TorrentInfo): seq<Value> { [Flag(t.finished), Flag(t.seeding)] }

  function WhyFields(t: TorrentInfo): seq<Value> {
    [Flag(t.fetchingMetadata), Int64(t.fetchingSecs), Flag(t.hasError), Str(t.stateDetailShort), Flag(t.diskFull),
     Int64(t.completedTime)]
  }

  function TorrentFields(t: TorrentInfo): (vs: seq<Value>)
    ensures |vs| == |TORRENT|
  {
    NameFields(t) + (RateFields(t) + (PeerFields(t) + (TotalFields(t) + (LabelFields(t) + (QueueFields(t)
    + (DoneFields(t) + WhyFields(t)))))))
  }

  function TextsOf(v: Value): seq<QString> { Each(RowsOf(v), (r: Record) => TextOf(First(r))) }

  function TorrentFrom(vs: seq<Value>): TorrentInfo
    requires |vs| == |TORRENT|
  {
    var name, savePath, totalSize, totalDone := TextOf(vs[0]), TextOf(vs[1]), Int64Of(vs[2]), Int64Of(vs[3]);
    var progress, dr, ur, np, ns := NumberOf(vs[4]), Int32Of(vs[5]), Int32Of(vs[6]), Int32Of(vs[7]), Int32Of(vs[8]);
    var stateString, stateDetail := TextOf(vs[9]), TextOf(vs[10]);
    var paused, completed, ratio, availability := FlagOf(vs[11]), FlagOf(vs[12]), NumberOf(vs[13]), NumberOf(vs[14]);
    var totalUploaded, addedTime, category, tags := Int64Of(vs[15]), Int64Of(vs[16]), TextOf(vs[17]), TextsOf(vs[18]);
    var queued, qp, filesMissing := FlagOf(vs[19]), Int32Of(vs[20]), FlagOf(vs[21]);
    var finished, seeding := FlagOf(vs[22]), FlagOf(vs[23]);
    var fetchingMetadata, fetchingSecs, hasError := FlagOf(vs[24]), Int64Of(vs[25]), FlagOf(vs[26]);
    var stateDetailShort, diskFull, completedTime := TextOf(vs[27]), FlagOf(vs[28]), Int64Of(vs[29]);
    TorrentInfo(name, savePath, totalSize, totalDone, progress, dr, ur, np, ns,
                stateString, stateDetail, stateDetailShort,
                paused, completed, finished, seeding, filesMissing, hasError, diskFull,
                fetchingMetadata, fetchingSecs, queued, qp,
                ratio, availability, totalUploaded, addedTime, completedTime, category, tags)
  }

  lemma TagsReadBack(tags: seq<QString>)
    requires |tags| < TWO32
    ensures Is(Many(Unsigned, Each(tags, TextRecord)), TEXTS)
    ensures TextsOf(Many(Unsigned, Each(tags, TextRecord))) == tags
  {
    EachReadsBack(Unsigned, tags, TextRecord, (r: Record) => TextOf(First(r)), [KStr]);
  }

  lemma FrontFieldsAre(t: TorrentInfo)
    ensures Are(NameFields(t), NAMES) && Are(RateFields(t), RATES) && Are(PeerFields(t), PEERS) &&
        Are(TotalFields(t), TOTALS)
  {
    PlainIs();
    hide Are, Is;
    AreFew(NameFields(t), NAMES);
    AreFew(RateFields(t), RATES);
    AreFew(PeerFields(t), PEERS);
    AreFew(TotalFields(t), TOTALS);
  }

  lemma BackFieldsAre(t: TorrentInfo)
    requires |t.tags| < TWO32
    ensures Are(LabelFields(t), LABELS) && Are(QueueFields(t), QUEUE) && Are(DoneFields(t), DONE) && Are(WhyFields(t), WHY)
  {
    TagsReadBack(t.tags);
    PlainIs();
    hide Are, Is;
    AreFew(LabelFields(t), LABELS);
    AreFew(QueueFields(t), QUEUE);
    AreFew(DoneFields(t), DONE);
    AreFew(WhyFields(t), WHY);
  }

  lemma FrontJoins(t: TorrentInfo, tail: seq<Value>, ks: seq<Kind>)
    requires Are(tail, ks)
    ensures Are(NameFields(t) + (RateFields(t) + (PeerFields(t) + tail)), NAMES + (RATES + (PEERS + ks)))
  {
    FrontFieldsAre(t);
    hide Are, NameFields, RateFields, PeerFields;
    AreJoin(PeerFields(t), tail, PEERS, ks);
    AreJoin(RateFields(t), PeerFields(t) + tail, RATES, PEERS + ks);
    AreJoin(NameFields(t), RateFields(t) + (PeerFields(t) + tail), NAMES, RATES + (PEERS + ks));
  }

  lemma TorrentFieldsAre(t: TorrentInfo)
    requires |t.tags| < TWO32
    ensures Are(TorrentFields(t), TORRENT)
  {
    FrontFieldsAre(t);
    BackFieldsAre(t);
    hide Are, NameFields, RateFields, PeerFields, TotalFields, LabelFields, QueueFields, DoneFields, WhyFields;
    AreJoin(DoneFields(t), WhyFields(t), DONE, WHY);
    AreJoin(QueueFields(t), DoneFields(t) + WhyFields(t), QUEUE, DONE + WHY);
    AreJoin(LabelFields(t), QueueFields(t) + (DoneFields(t) + WhyFields(t)), LABELS, QUEUE + (DONE + WHY));
    AreJoin(TotalFields(t), LabelFields(t) + (QueueFields(t) + (DoneFields(t) + WhyFields(t))),
            TOTALS, LABELS + (QUEUE + (DONE + WHY)));
    FrontJoins(t, TotalFields(t) + (LabelFields(t) + (QueueFields(t) + (DoneFields(t) + WhyFields(t)))),
               TOTALS + (LABELS + (QUEUE + (DONE + WHY))));
  }

  // Every field comes back where it came from.
  lemma TorrentFieldsMatch(t: TorrentInfo)
    requires |t.tags| < TWO32
    ensures TorrentFrom(TorrentFields(t)) == t
  {
    TagsReadBack(t.tags);
    hide Each, TextsOf;
  }

  lemma TorrentReadsBack(t: TorrentInfo, rest: Bytes)
    requires |t.tags| < TWO32
    ensures var r := TakeAll(TORRENT, PutAll(TorrentFields(t)) + rest);
            r.Some? && TorrentFrom(r.value.value) == t && r.value.rest == rest
  {
    TorrentFieldsAre(t);
    TorrentFieldsMatch(t);
    hide TakeAll, PutAll, TorrentFields, TorrentFrom;
    AllBack(TorrentFields(t), TORRENT, rest);
  }

  // ---- EngineSnapshot ----

  datatype DetailedStats = DetailedStats(
    dhtNodes: Qint32, peersCount: Qint32, totalWasted: Qint64, diskReadQueue: Qint32, diskWriteQueue: Qint32,
    hasIncomingConnections: bool)

  datatype EngineSnapshot = EngineSnapshot(
    hashes: seq<QString>, rows: seq<TorrentInfo>,
    globalUploaded: Qint64, globalDownloaded: Qint64, sessionUploaded: Qint64, sessionDownloaded: Qint64,
    globalRatio: Number, totalTorrentsAdded: Qint32, portStatus: Qint32, listenPort: Qint32,
    dhtEnabled: bool, altSpeedsActive: bool, detailed: DetailedStats)

  const STATS := [KInt32, KInt32, KInt64, KInt32, KInt32, KFlag]
  const LISTS := [TEXTS, KMany(Signed, TORRENT)]
  const GLOBALS := [KInt64, KInt64, KInt64, KInt64]
  const PORTS := [KReal, KInt32, KInt32, KInt32]
  const MODES := [KFlag, KFlag]

  const SNAPSHOT := LISTS + (GLOBALS + (PORTS + (MODES + STATS)))

  function StatsFields(d: DetailedStats): seq<Value> {
    [Int32(d.dhtNodes), Int32(d.peersCount), Int64(d.totalWasted), Int32(d.diskReadQueue), Int32(d.diskWriteQueue),
     Flag(d.hasIncomingConnections)]
  }

  function TorrentRecord(t: TorrentInfo): Record { Record(TorrentFields(t)) }

  // What `TorrentInfo t;` holds before it is read into.
  const ZERO: Number := [0, 0, 0, 0, 0, 0, 0, 0]

  const NO_TORRENT := TorrentInfo(
    Null, Null, 0, 0, ZERO, 0, 0, 0, 0, Null, Null, Null, false, false, false, false, false, false,
    false, false, -1, false, 0, ZERO, ZERO, 0, 0, 0, Null, [])

  function TorrentOf(r: Record): TorrentInfo {
    if |r.fields| == |TORRENT| then TorrentFrom(r.fields) else NO_TORRENT
  }

  function ListFields(k: EngineSnapshot): seq<Value> {
    [Many(Unsigned, Each(k.hashes, TextRecord)), Many(Signed, Each(k.rows, TorrentRecord))]
  }

  function GlobalFields(k: EngineSnapshot): seq<Value> {
    [Int64(k.globalUploaded), Int64(k.globalDownloaded), Int64(k.sessionUploaded), Int64(k.sessionDownloaded)]
  }

  function PortFields(k: EngineSnapshot): seq<Value> {
    [Real(k.globalRatio), Int32(k.totalTorrentsAdded), Int32(k.portStatus), Int32(k.listenPort)]
  }

  function ModeFields(k: EngineSnapshot): seq<Value> { [Flag(k.dhtEnabled), Flag(k.altSpeedsActive)] }

  function SnapshotFields(k: EngineSnapshot): (vs: seq<Value>)
    ensures |vs| == |SNAPSHOT|
  {
    ListFields(k) + (GlobalFields(k) + (PortFields(k) + (ModeFields(k) + StatsFields(k.detailed))))
  }

  function SnapshotFrom(vs: seq<Value>): EngineSnapshot
    requires |vs| == |SNAPSHOT|
  {
    var hashes, rows := TextsOf(vs[0]), Each(RowsOf(vs[1]), TorrentOf);
    var gu, gd, su, sd := Int64Of(vs[2]), Int64Of(vs[3]), Int64Of(vs[4]), Int64Of(vs[5]);
    var ratio, added, status, port := NumberOf(vs[6]), Int32Of(vs[7]), Int32Of(vs[8]), Int32Of(vs[9]);
    var dht, alt := FlagOf(vs[10]), FlagOf(vs[11]);
    var dhtNodes, peers, wasted, rq, wq, incoming :=
      Int32Of(vs[12]), Int32Of(vs[13]), Int64Of(vs[14]), Int32Of(vs[15]), Int32Of(vs[16]), FlagOf(vs[17]);
    EngineSnapshot(hashes, rows, gu, gd, su, sd, ratio, added, status, port, dht, alt,
                   DetailedStats(dhtNodes, peers, wasted, rq, wq, incoming))
  }

  // Sizes the counts on the wire can hold.
  predicate Countable(k: EngineSnapshot) {
    && |k.hashes| < TWO32 && |k.rows| < 0x8000_0000
    && forall i :: 0 <= i < |k.rows| ==> |k.rows[i].tags| < TWO32
  }

  lemma TorrentRowsReadBack(rows: seq<TorrentInfo>)
    requires |rows| < 0x8000_0000 && forall i :: 0 <= i < |rows| ==> |rows[i].tags| < TWO32
    ensures Is(Many(Signed, Each(rows, TorrentRecord)), KMany(Signed, TORRENT))
    ensures Each(RowsOf(Many(Signed, Each(rows, TorrentRecord))), TorrentOf) == rows
  {
    forall i | 0 <= i < |rows|
      ensures TorrentOf(TorrentRecord(rows[i])) == rows[i] && Are(TorrentRecord(rows[i]).fields, TORRENT)
    {
      TorrentFieldsAre(rows[i]);
      TorrentFieldsMatch(rows[i]);
    }
    hide TorrentFields, TorrentFrom;
    EachReadsBack(Signed, rows, TorrentRecord, TorrentOf, TORRENT);
  }

  lemma ListsAre(k: EngineSnapshot)
    requires Countable(k)
    ensures Are(ListFields(k), LISTS)
  {
    hide Are, Is, Each, TextsOf, TorrentFields, TorrentFrom;
    TagsReadBack(k.hashes);
    TorrentRowsReadBack(k.rows);
    AreFew(ListFields(k), LISTS);
  }

  lemma SnapshotPartsAre(k: EngineSnapshot)
    requires Countable(k)
    ensures Are(ListFields(k), LISTS) && Are(GlobalFields(k), GLOBALS) && Are(PortFields(k), PORTS)
    ensures Are(ModeFields(k), MODES) && Are(StatsFields(k.detailed), STATS)
  {
    ListsAre(k);
    PlainIs();
    hide Are, Is, Each, TextsOf, TorrentFields, ListFields;
    AreFew(GlobalFields(k), GLOBALS);
    AreFew(PortFields(k), PORTS);
    AreFew(ModeFields(k), MODES);
    AreFew(StatsFields(k.detailed), STATS);
  }

  lemma SnapshotFieldsAre(k: EngineSnapshot)
    requires Countable(k)
    ensures Are(SnapshotFields(k), SNAPSHOT)
  {
    SnapshotPartsAre(k);
    hide Are, Is, Each, ListFields, GlobalFields, PortFields, ModeFields, StatsFields;
    AreJoin(ModeFields(k), StatsFields(k.detailed), MODES, STATS);
    AreJoin(PortFields(k), ModeFields(k) + StatsFields(k.detailed), PORTS, MODES + STATS);
    AreJoin(GlobalFields(k), PortFields(k) + (ModeFields(k) + StatsFields(k.detailed)), GLOBALS, PORTS + (MODES + STATS));
    AreJoin(ListFields(k), GlobalFields(k) + (PortFields(k) + (ModeFields(k) + StatsFields(k.detailed))),
            LISTS, GLOBALS + (PORTS + (MODES + STATS)));
  }

  lemma ListsMatch(k: EngineSnapshot)
    requires Countable(k)
    ensures TextsOf(ListFields(k)[0]) == k.hashes && Each(RowsOf(ListFields(k)[1]), TorrentOf) == k.rows
  {
    hide Is, Each, TextsOf, TorrentFields, TorrentFrom;
    TagsReadBack(k.hashes);
    TorrentRowsReadBack(k.rows);
  }

  lemma SnapshotFieldsMatch(k: EngineSnapshot)
    requires Countable(k)
    ensures SnapshotFrom(SnapshotFields(k)) == k
  {
    ListsMatch(k);
    hide Each, TextsOf, TorrentFields, TorrentFrom, TorrentOf, RowsOf, Is, ListFields;
  }

  // The hashes stay parallel to the rows: both lists come back whole.
  lemma SnapshotReadsBack(k: EngineSnapshot, rest: Bytes)
    requires Countable(k)
    ensures var r := TakeAll(SNAPSHOT, PutAll(SnapshotFields(k)) + rest);
            r.Some? && SnapshotFrom(r.value.value) == k && r.value.rest == rest
  {
    SnapshotFieldsAre(k);
    SnapshotFieldsMatch(k);
    hide TakeAll, PutAll, SnapshotFields, SnapshotFrom;
    AllBack(SnapshotFields(k), SNAPSHOT, rest);
  }

  // ---- The media child's records ----

  datatype Track = Track(language: Qint32, title: QString)

  datatype Tracks = Tracks(audio: seq<Track>, subtitles: seq<Track>, activeAudio: Qint32, activeSubtitle: Qint32)

  const TRACK := [KInt32, KStr]
  const TRACKS := [KMany(Unsigned, TRACK), KMany(Unsigned, TRACK), KInt32, KInt32]

  function TrackRecord(t: Track): Record { Record([Int32(t.language), Str(t.title)]) }

  function TrackOf(r: Record): Track {
    if |r.fields| == 2 then Track(Int32Of(r.fields[0]), TextOf(r.fields[1])) else Track(0, Null)
  }

  function TracksFields(v: Tracks): seq<Value> {
    [Many(Unsigned, Each(v.audio, TrackRecord)), Many(Unsigned, Each(v.subtitles, TrackRecord)),
     Int32(v.activeAudio), Int32(v.activeSubtitle)]
  }

  function TracksFrom(vs: seq<Value>): Tracks
    requires |vs| == |TRACKS|
  {
    Tracks(Each(RowsOf(vs[0]), TrackOf), Each(RowsOf(vs[1]), TrackOf), Int32Of(vs[2]), Int32Of(vs[3]))
  }

  lemma TrackListReadsBack(l: seq<Track>)
    requires |l| < TWO32
    ensures Is(Many(Unsigned, Each(l, TrackRecord)), KMany(Unsigned, TRACK))
    ensures Each(RowsOf(Many(Unsigned, Each(l, TrackRecord))), TrackOf) == l
  {
    EachReadsBack(Unsigned, l, TrackRecord, TrackOf, TRACK);
  }

  lemma TracksReadBack(v: Tracks, rest: Bytes)
    requires |v.audio| < TWO32 && |v.subtitles| < TWO32
    ensures var r := TakeAll(TRACKS, PutAll(TracksFields(v)) + rest);
            r.Some? && TracksFrom(r.value.value) == v && r.value.rest == rest
  {
    TrackListReadsBack(v.audio);
    TrackListReadsBack(v.subtitles);
    PlainIs();
    hide Are, Is, TakeAll, PutAll, Each, TrackRecord, TrackOf;
    AreFew(TracksFields(v), TRACKS);
    AllBack(TracksFields(v), TRACKS, rest);
  }

  datatype State = State(
    playbackState: Qint32, mediaStatus: Qint32, error: Qint32, errorString: QString, duration: Qint64, position: Qint64,
    seekable: bool, hasVideo: bool, playbackRate: Number)

  const STATUS := [KInt32, KInt32, KInt32, KStr]
  const PLAYBACK := [KInt64, KInt64, KFlag, KFlag, KReal]

  function StateFields(v: State): (vs: seq<Value>)
    ensures |vs| == |STATUS + PLAYBACK|
  {
    [Int32(v.playbackState), Int32(v.mediaStatus), Int32(v.error), Str(v.errorString)]
    + [Int64(v.duration), Int64(v.position), Flag(v.seekable), Flag(v.hasVideo), Real(v.playbackRate)]
  }

  function StateFrom(vs: seq<Value>): State
    requires |vs| == |STATUS + PLAYBACK|
  {
    State(Int32Of(vs[0]), Int32Of(vs[1]), Int32Of(vs[2]), TextOf(vs[3]), Int64Of(vs[4]), Int64Of(vs[5]),
          FlagOf(vs[6]), FlagOf(vs[7]), NumberOf(vs[8]))
  }

  lemma StateReadsBack(v: State, rest: Bytes)
    ensures var r := TakeAll(STATUS + PLAYBACK, PutAll(StateFields(v)) + rest);
            r.Some? && StateFrom(r.value.value) == v && r.value.rest == rest
  {
    PlainIs();
    hide Are, Is, TakeAll, PutAll;
    var a := [Int32(v.playbackState), Int32(v.mediaStatus), Int32(v.error), Str(v.errorString)];
    var b := [Int64(v.duration), Int64(v.position), Flag(v.seekable), Flag(v.hasVideo), Real(v.playbackRate)];
    AreFew(a, STATUS);
    AreFew(b, PLAYBACK);
    AreJoin(a, b, STATUS, PLAYBACK);
    AllBack(StateFields(v), STATUS + PLAYBACK, rest);
  }

  // A frame's header always carries four planes, used or not.
  const SHAPE := [KInt32, KInt32, KInt32, KInt32, KInt64, KInt64, KInt32]
  const PLANE := [KInt32, KInt64, KInt64]

  const HEADER := SHAPE + (PLANE + (PLANE + (PLANE + PLANE)))

  function ShapeFields(h: MF.FrameHeader): seq<Value> {
    [Int32(h.slot as int), Int32(h.pixelFormat as int), Int32(h.width as int), Int32(h.height as int),
     Int64(h.startUs as int), Int64(h.endUs as int), Int32(h.planeCount as int)]
  }

  function PlaneFields(p: MF.Plane): seq<Value> {
    [Int32(p.stride as int), Int64(p.offset as int), Int64(p.bytes as int)]
  }

  function HeaderFields(h: MF.FrameHeader): (vs: seq<Value>)
    requires |h.planes| == MF.MAX_PLANES
    ensures |vs| == |HEADER|
  {
    var p := h.planes;
    ShapeFields(h) + (PlaneFields(p[0]) + (PlaneFields(p[1]) + (PlaneFields(p[2]) + PlaneFields(p[3]))))
  }

  function PlaneAt(vs: seq<Value>, at: nat): MF.Plane
    requires at + 3 <= |vs|
  {
    MF.Plane(Int32Of(vs[at]) as MF.Int32, Int64Of(vs[at + 1]) as MF.Int64, Int64Of(vs[at + 2]) as MF.Int64)
  }

  function HeaderFrom(vs: seq<Value>): MF.FrameHeader
    requires |vs| == |HEADER|
  {
    MF.FrameHeader(Int32Of(vs[0]) as MF.Int32, Int32Of(vs[1]) as MF.Int32, Int32Of(vs[2]) as MF.Int32,
        Int32Of(vs[3]) as MF.Int32,
                   Int64Of(vs[4]) as MF.Int64, Int64Of(vs[5]) as MF.Int64, Int32Of(vs[6]) as MF.Int32,
                   [PlaneAt(vs, 7), PlaneAt(vs, 10), PlaneAt(vs, 13), PlaneAt(vs, 16)])
  }

  lemma HeaderFieldsMatch(h: MF.FrameHeader)
    requires |h.planes| == MF.MAX_PLANES
    ensures HeaderFrom(HeaderFields(h)) == h
  {
    assert h.planes == [h.planes[0], h.planes[1], h.planes[2], h.planes[3]];
  }

  lemma HeaderReadsBack(h: MF.FrameHeader, rest: Bytes)
    requires |h.planes| == MF.MAX_PLANES
    ensures var r := TakeAll(HEADER, PutAll(HeaderFields(h)) + rest);
            r.Some? && HeaderFrom(r.value.value) == h && r.value.rest == rest
  {
    HeaderFieldsMatch(h);
    hide TakeAll, PutAll, HeaderFields, HeaderFrom;
    AllBack(HeaderFields(h), HEADER, rest);
  }
}

// The stream the operators append to and consume.
module WireStream {
  import opened Common
  import opened IpcFraming
  import opened WireFormat

  lemma PutAllNext(vs: seq<Value>, i: nat)
    requires i < |vs|
    ensures PutAll(vs[..i + 1]) == PutAll(vs[..i]) + Put(vs[i])
  {
    assert vs[..i + 1] == vs[..i] + [vs[i]];
    PutAllAppend(vs[..i], vs[i]);
  }

  lemma {:induction false} PutAllAppend(vs: seq<Value>, v: Value)
    ensures PutAll(vs + [v]) == PutAll(vs) + Put(v)
    decreases |vs|
  {
    hide Put;
    if vs == [] {
      assert vs + [v] == [v] && [v][1..] == [];
    } else {
      assert (vs + [v])[1..] == vs[1..] + [v];
      PutAllAppend(vs[1..], v);
    }
  }

  lemma {:induction false} PutRowsAppend(rows: seq<Record>, r: Record)
    ensures PutRows(rows + [r]) == PutRows(rows) + PutAll(r.fields)
    decreases |rows|
  {
    hide PutAll;
    if rows == [] {
      assert rows + [r] == [r] && [r][1..] == [];
    } else {
      assert (rows + [r])[1..] == rows[1..] + [r];
      PutRowsAppend(rows[1..], r);
    }
  }

  class DataStream {
    var bytes: Bytes

    constructor ()
      ensures bytes == []
    {
      bytes := [];
    }

    method Write(v: Value)
      modifies this
      ensures bytes == old(bytes) + Put(v)
      decreases v
    {
      match v
      case Many(_, rows) =>
        bytes := bytes + Put32(|rows|);
        for i := 0 to |rows|
          invariant bytes == old(bytes) + (Put32(|rows|) + PutRows(rows[..i]))
        {
          assert rows[..i + 1] == rows[..i] + [rows[i]];
          PutRowsAppend(rows[..i], rows[i]);
          WriteAll(rows[i].fields);
        }
        assert rows[..|rows|] == rows;
      case _ => bytes := bytes + Put(v);
    }

    method WriteAll(vs: seq<Value>)
      modifies this
      ensures bytes == old(bytes) + PutAll(vs)
      decreases vs
    {
      for i := 0 to |vs|
        invariant bytes == old(bytes) + PutAll(vs[..i])
      {
        PutAllNext(vs, i);
        Write(vs[i]);
      }
      assert vs[..|vs|] == vs;
    }

    // None once the stream has run dry, or where the code throws; what is left of
    // the stream is then no matter.
    method Read(k: Kind) returns (v: Option<Value>)
      modifies this
      ensures match Take(k, old(bytes))
              case None => v.None?
              case Some(got) => v == Some(got.value) && bytes == got.rest
      decreases k, 0, 0
    {
      if !k.KMany? {
        var got := Take(k, bytes);
        if got.None? {
          return None;
        }
        bytes := got.value.rest;
        return Some(got.value.value);
      }
      var n := Take32(bytes);
      if n.None? {
        return None;
      }
      bytes := n.value.rest;
      var count := CountIn(k.length, n.value.value);
      if count.None? {
        return None;
      }
      var rows := ReadRows(count.value, k.fields);
      return if rows.None? then None else Some(Many(k.length, rows.value));
    }

    method ReadAll(ks: seq<Kind>) returns (vs: Option<seq<Value>>)
      modifies this
      ensures match TakeAll(ks, old(bytes))
              case None => vs.None?
              case Some(got) => vs == Some(got.value) && bytes == got.rest
      decreases ks, 0, 1
    {
      var out := [];
      ghost var all := TakeAll(ks, bytes);
      JoinedNone(all);
      assert ks[0..] == ks;
      hide Take;
      for i := 0 to |ks|
        invariant all == Joined(out, TakeAll(ks[i..], bytes))
      {
        assert ks[i..][0] == ks[i] && ks[i..][1..] == ks[i + 1..];
        var v := Read(ks[i]);
        if v.None? {
          return None;
        }
        JoinedMore(out, v.value, TakeAll(ks[i + 1..], bytes));
        out := out + [v.value];
      }
      assert ks[|ks|..] == [] && out + [] == out;
      return Some(out);
    }

    // The rest of a list, behind what was read of it so far.
    static ghost function Joined<T>(front: seq<T>, rest: Option<Got<seq<T>>>): Option<Got<seq<T>>> {
      match rest
      case None => None
      case Some(got) => Some(Got(front + got.value, got.rest))
    }

    static lemma JoinedNone<T>(rest: Option<Got<seq<T>>>)
      ensures Joined([], rest) == rest
    {
      if rest.Some? {
        assert [] + rest.value.value == rest.value.value;
      }
    }

    static lemma JoinedMore<T>(front: seq<T>, x: T, rest: Option<Got<seq<T>>>)
      ensures rest.Some? ==>
                Joined(front, Some(Got([x] + rest.value.value, rest.value.rest))) == Joined(front + [x], rest)
    {
      if rest.Some? {
        assert front + ([x] + rest.value.value) == (front + [x]) + rest.value.value;
      }
    }

    method ReadRows(n: nat, ks: seq<Kind>) returns (rows: Option<seq<Record>>)
      modifies this
      ensures match TakeRows(n, ks, old(bytes))
              case None => rows.None?
              case Some(got) => rows == Some(got.value) && bytes == got.rest
      decreases ks, 1, n
    {
      var out := [];
      ghost var all := TakeRows(n, ks, bytes);
      JoinedNone(all);
      hide TakeAll;
      for i := 0 to n
        invariant all == Joined(out, TakeRows(n - i, ks, bytes))
      {
        var fields := ReadAll(ks);
        if fields.None? {
          return None;
        }
        JoinedMore(out, Record(fields.value), TakeRows(n - i - 1, ks, bytes));
        out := out + [Record(fields.value)];
      }
      assert out + [] == out;
      return Some(out);
    }
  }
}
