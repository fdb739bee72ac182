// Text out of bytes, a piece at a time, with nothing remembered in between: what
// QString::fromUtf8 makes of each piece, and when that is what it makes of the
// whole. (Table 3-7 of the Unicode Standard, version 15.0, says which bytes are
// well formed.) A char is a code point here.
module Utf8 {
  import opened Common

  // A byte that belongs to no character becomes this.
  const BROKEN: char := '\U{FFFD}'

  // A byte order mark is dropped where the bytes begin with one.
  const MARK: Bytes := [0xEF, 0xBB, 0xBF]
  const MARK_CHAR: char := '\U{FEFF}'

  predicate Marked(b: Bytes) { MARK <= b }

  predicate Continues(b: Byte) { 0x80 <= b < 0xC0 }

  predicate Pair(b: Bytes) { |b| >= 2 && 0xC2 <= b[0] < 0xE0 && Continues(b[1]) }

  predicate Triple(b: Bytes) {
    && |b| >= 3 && 0xE0 <= b[0] < 0xF0 && Continues(b[1]) && Continues(b[2])
    && (b[0] == 0xE0 ==> b[1] >= 0xA0) && (b[0] == 0xED ==> b[1] < 0xA0)
  }

  predicate Quad(b: Bytes) {
    && |b| >= 4 && 0xF0 <= b[0] < 0xF5 && Continues(b[1]) && Continues(b[2]) && Continues(b[3])
    && (b[0] == 0xF0 ==> b[1] >= 0x90) && (b[0] == 0xF4 ==> b[1] < 0x90)
  }

  // How many bytes the character at the start has; 0 if there is none.
  function Width(b: Bytes): (n: nat)
    ensures n <= |b| && n <= 4
  {
    if b != [] && b[0] < 0x80 then 1 else if Pair(b) then 2 else if Triple(b) then 3 else if Quad(b) then 4 else 0
  }

  function CharAt(b: Bytes): char
    requires Width(b) > 0
  {
    var b0: int := b[0];
    if b0 < 0x80 then b0 as char
    else
      var b1: int := b[1];
      if Pair(b) then ((b0 - 0xC0) * 0x40 + (b1 - 0x80)) as char
      else
        var b2: int := b[2];
        if Triple(b) then ((b0 - 0xE0) * 0x1000 + (b1 - 0x80) * 0x40 + (b2 - 0x80)) as char
        else
          var b3: int := b[3];
          ((b0 - 0xF0) * 0x40000 + (b1 - 0x80) * 0x1000 + (b2 - 0x80) * 0x40 + (b3 - 0x80)) as char
  }

  function Decode(b: Bytes): string
    decreases |b|
  {
    if b == [] then ""
    else if Width(b) == 0 then [BROKEN] + Decode(b[1..])
    else [CharAt(b)] + Decode(b[Width(b)..])
  }

  function FromUtf8(b: Bytes): string { if Marked(b) then Decode(b[3..]) else Decode(b) }

  // ---- Writing ----

  function CharBytes(c: char): Bytes {
    var u := c as int;
    if u < 0x80 then [u]
    else if u < 0x800 then [0xC0 + u / 0x40, 0x80 + u % 0x40]
    else if u < 0x10000 then [0xE0 + u / 0x40 / 0x40, 0x80 + u / 0x40 % 0x40, 0x80 + u % 0x40]
    else [0xF0 + u / 0x40 / 0x40 / 0x40, 0x80 + u / 0x40 / 0x40 % 0x40, 0x80 + u / 0x40 % 0x40, 0x80 + u % 0x40]
  }

  function TextBytes(text: string): Bytes {
    if text == "" then [] else CharBytes(text[0]) + TextBytes(text[1..])
  }

  lemma CharBack(c: char, rest: Bytes)
    ensures Width(CharBytes(c) + rest) == |CharBytes(c)| > 0 && CharAt(CharBytes(c) + rest) == c
  {
    var u := c as int;
    var b := CharBytes(c) + rest;
    if u < 0x80 {
    } else if u < 0x800 {
      assert Pair(b);
    } else if u < 0x10000 {
      assert Triple(b);
    } else {
      assert Quad(b);
    }
  }

  // What is written reads back.
  lemma {:induction false} TextBack(text: string)
    ensures Decode(TextBytes(text)) == text
  {
    if text != "" {
      var rest := TextBytes(text[1..]);
      CharBack(text[0], rest);
      TextBack(text[1..]);
      hide Width, CharAt, CharBytes;
      assert TextBytes(text)[|CharBytes(text[0])|..] == rest;
    }
  }

  lemma {:induction false} TextBytesAdd(a: string, b: string)
    ensures TextBytes(a + b) == TextBytes(a) + TextBytes(b)
  {
    if a == "" {
      assert a + b == b;
    } else {
      assert (a + b)[1..] == a[1..] + b;
      TextBytesAdd(a[1..], b);
      hide CharBytes;
    }
  }

  // Whatever follows.
  lemma {:induction false} TextThen(text: string, rest: Bytes)
    ensures Decode(TextBytes(text) + rest) == text + Decode(rest)
  {
    if text == "" {
      assert TextBytes(text) + rest == rest && "" + Decode(rest) == Decode(rest);
    } else {
      var c, more := CharBytes(text[0]), TextBytes(text[1..]) + rest;
      CharBack(text[0], more);
      TextThen(text[1..], rest);
      assert TextBytes(text) + rest == c + more by {
        hide CharBytes;
      }
      DecodeFirst(c, more);
      hide *;
      assert [text[0]] + (text[1..] + Decode(rest)) == text + Decode(rest);
    }
  }

  lemma DecodeFirst(c: Bytes, more: Bytes)
    requires c != [] && Width(c + more) == |c|
    ensures Decode(c + more) == [CharAt(c + more)] + Decode(more)
  {
    assert (c + more)[|c|..] == more;
    hide Width, CharAt;
  }

  // ---- A cut in two ----

  // A character begins in `a`, i bytes on, and ends in `b`.
  predicate Reaches(a: Bytes, b: Bytes, i: nat) { i < |a| && Width(a[i..] + b) > |a| - i }

  ghost predicate CutsCharacter(a: Bytes, b: Bytes) { exists i: nat :: Reaches(a, b, i) }

  function AllBroken(n: nat): (r: string)
    ensures |r| == n && forall k :: 0 <= k < n ==> r[k] == BROKEN
  {
    seq(n, _ => BROKEN)
  }

  // How many byte order marks a text has, as characters.
  function Marks(text: string): nat { multiset(text)[MARK_CHAR] }

  lemma MarksAdd(a: string, b: string)
    ensures Marks(a + b) == Marks(a) + Marks(b)
  {
  }

  // What a front sees of the character the whole begins with.
  lemma WidthOfFront(a: Bytes, b: Bytes)
    ensures Width(a + b) <= |a| ==> Width(a) == Width(a + b)
    ensures 0 < Width(a + b) <= |a| ==> CharAt(a) == CharAt(a + b)
    ensures Width(a + b) > |a| ==> Width(a) == 0
  {
    var c := a + b;
    assert forall k :: 0 <= k < |a| ==> c[k] == a[k];
  }

  lemma WidthContinues(b: Bytes, k: nat)
    requires 0 < k < Width(b)
    ensures Continues(b[k])
  {
  }

  lemma ContinuesNone(b: Bytes)
    requires b != [] && Continues(b[0])
    ensures Width(b) == 0
  {
  }

  // Bytes that only continue a character are broken without its first.
  lemma {:induction false} OrphansDecode(o: Bytes, rest: Bytes)
    requires forall k :: 0 <= k < |o| ==> Continues(o[k])
    ensures Decode(o + rest) == AllBroken(|o|) + Decode(rest)
  {
    if o == [] {
      assert o + rest == rest && AllBroken(0) == "";
      assert AllBroken(0) + Decode(rest) == Decode(rest);
    } else {
      ContinuesNone(o + rest);
      assert (o + rest)[1..] == o[1..] + rest;
      OrphansDecode(o[1..], rest);
      hide Width, Decode;
      OneBroken(|o|, Decode(rest));
    }
  }

  lemma OneBroken(n: nat, rest: string)
    requires n > 0
    ensures AllBroken(n) == [BROKEN] + AllBroken(n - 1)
    ensures AllBroken(n) + rest == [BROKEN] + (AllBroken(n - 1) + rest)
  {
    assert AllBroken(n) == [BROKEN] + AllBroken(n - 1);
  }

  // The first character lies on both sides of the cut.
  lemma FirstIsCut(a: Bytes, b: Bytes)
    requires a != [] && Width(a + b) > |a|
    ensures var w := Width(a + b);
            && Decode(a) == AllBroken(|a|) && Decode(b) == AllBroken(w - |a|) + Decode(b[w - |a|..])
            && Decode(a + b) == [CharAt(a + b)] + Decode(b[w - |a|..])
  {
    var c, w := a + b, Width(a + b);
    forall k | 0 < k < w ensures Continues(c[k]) { WidthContinues(c, k); }
    WidthOfFront(a, b);
    var o := b[..w - |a|];
    assert forall k :: 0 <= k < |a[1..]| ==> a[1..][k] == c[k + 1];
    assert forall k :: 0 <= k < |o| ==> o[k] == c[|a| + k];
    assert c[w..] == b[w - |a|..] && b == o + b[w - |a|..];
    hide Width, CharAt;
    OrphansDecode(o, b[w - |a|..]);
    OrphansDecode(a[1..], []);
    assert a[1..] + [] == a[1..] && AllBroken(|a| - 1) + "" == AllBroken(|a| - 1);
    OneBroken(|a|, "");
  }

  // After the first character the cut is where it was.
  lemma CutLater(a: Bytes, b: Bytes, w: nat)
    requires 0 < w <= |a| && w == if Width(a + b) == 0 then 1 else Width(a + b)
    ensures CutsCharacter(a, b) <==> CutsCharacter(a[w..], b)
  {
    if CutsCharacter(a, b) {
      var i: nat :| Reaches(a, b, i);
      if i < w {
        ReachesNot(a, b, w, i);
      }
      assert a[i..] == a[w..][i - w..];
      assert Reaches(a[w..], b, i - w);
    }
    if CutsCharacter(a[w..], b) {
      var i: nat :| Reaches(a[w..], b, i);
      assert a[w..][i..] == a[i + w..];
      assert Reaches(a, b, i + w);
    }
  }

  lemma ReachesNot(a: Bytes, b: Bytes, w: nat, i: nat)
    requires i < w <= |a| && w == if Width(a + b) == 0 then 1 else Width(a + b)
    ensures !Reaches(a, b, i)
  {
    var c := a + b;
    if i == 0 {
      assert a[0..] + b == c;
    } else {
      WidthContinues(c, i);
      assert (a[i..] + b)[0] == c[i];
      ContinuesNone(a[i..] + b);
    }
    hide Width;
  }

  // Text cut between characters is the text; cut inside one it is longer. And no
  // byte order mark is made by cutting.
  lemma {:induction false} CutDecodes(a: Bytes, b: Bytes)
    ensures !CutsCharacter(a, b) ==> Decode(a + b) == Decode(a) + Decode(b)
    ensures CutsCharacter(a, b) ==> |Decode(a)| + |Decode(b)| > |Decode(a + b)|
    ensures Marks(Decode(a)) + Marks(Decode(b)) <= Marks(Decode(a + b))
    decreases |a|
  {
    if a == [] {
      assert a + b == b && Decode(a) + Decode(b) == Decode(b);
      assert Marks("") == 0;
    } else if Width(a + b) > |a| {
      FirstIsCut(a, b);
      assert a[0..] + b == a + b;
      assert Reaches(a, b, 0);
      hide Decode, Width, CharAt;
      CutMarks(a, b);
    } else {
      var w := if Width(a + b) == 0 then 1 else Width(a + b);
      CutLater(a, b, w);
      CutDecodes(a[w..], b);
      hide Decode, Width, CutsCharacter, Marks;
      CutAfter(a, b, w);
    }
  }

  // The first character is the same on both sides of the equation.
  lemma CutAfter(a: Bytes, b: Bytes, w: nat)
    requires 0 < w <= |a| && w == if Width(a + b) == 0 then 1 else Width(a + b)
    ensures Decode(a[w..] + b) == Decode(a[w..]) + Decode(b) ==> Decode(a + b) == Decode(a) + Decode(b)
    ensures |Decode(a)| == 1 + |Decode(a[w..])| && |Decode(a + b)| == 1 + |Decode(a[w..] + b)|
    ensures Marks(Decode(a)) - Marks(Decode(a[w..])) == Marks(Decode(a + b)) - Marks(Decode(a[w..] + b))
  {
    WidthOfFront(a, b);
    assert (a + b)[w..] == a[w..] + b;
    FirstOff(a, w);
    FirstOff(a + b, w);
    var c := if Width(a) == 0 then BROKEN else CharAt(a);
    assert Decode(a + b) == [c] + Decode(a[w..] + b);
    hide Decode, Width, CharAt, Marks;
    Prepended(c, Decode(a[w..]), Decode(a[w..] + b), Decode(b));
  }

  lemma Prepended(c: char, x: string, xy: string, y: string)
    ensures xy == x + y ==> [c] + xy == ([c] + x) + y
    ensures Marks([c] + x) - Marks(x) == Marks([c] + xy) - Marks(xy)
  {
    MarksAdd([c], x);
    MarksAdd([c], xy);
    hide Marks;
  }

  lemma FirstOff(a: Bytes, w: nat)
    requires a != [] && w == if Width(a) == 0 then 1 else Width(a)
    ensures Decode(a) == [if Width(a) == 0 then BROKEN else CharAt(a)] + Decode(a[w..])
  {
  }

  lemma CutMarks(a: Bytes, b: Bytes)
    requires a != [] && Width(a + b) > |a|
    ensures Marks(Decode(a)) + Marks(Decode(b)) + (if Marked(a + b) then 1 else 0) <= Marks(Decode(a + b))
  {
    hide Width, CharAt, Decode, Marked, Marks;
    var w := Width(a + b);
    FirstIsCut(a, b);
    if Marked(a + b) {
      MarkAt(a + b);
    }
    CutLosesMarks(CharAt(a + b), |a|, w - |a|, Decode(b[w - |a|..]));
  }

  lemma CutLosesMarks(c: char, m: nat, n: nat, rest: string)
    ensures Marks(AllBroken(m)) + Marks(AllBroken(n) + rest) + (if c == MARK_CHAR then 1 else 0) <= Marks([c] + rest)
  {
    MarksAdd(AllBroken(n), rest);
    MarksAdd([c], rest);
    NoneMarked(m);
    NoneMarked(n);
    MarkCounts();
    hide Marks, AllBroken;
  }

  lemma NoneMarked(n: nat)
    ensures Marks(AllBroken(n)) == 0
  {
  }

  lemma MarkCounts()
    ensures Marks([MARK_CHAR]) == 1
  {
  }

  lemma MarkAt(b: Bytes)
    requires Marked(b)
    ensures Width(b) == 3 && CharAt(b) == MARK_CHAR && Decode(b) == [MARK_CHAR] + Decode(b[3..])
  {
    assert b[0] == 0xEF && b[1] == 0xBB && b[2] == 0xBF;
    assert Triple(b);
  }

  // ---- Any number of pieces ----

  // Each piece read by itself.
  function Texts(pieces: seq<Bytes>): (r: seq<string>)
    ensures |r| == |pieces| && forall i :: 0 <= i < |r| ==> r[i] == FromUtf8(pieces[i])
  {
    seq(|pieces|, i requires 0 <= i < |pieces| => FromUtf8(pieces[i]))
  }

  // The same, keeping byte order marks.
  function Decodes(pieces: seq<Bytes>): (r: seq<string>)
    ensures |r| == |pieces| && forall i :: 0 <= i < |r| ==> r[i] == Decode(pieces[i])
  {
    seq(|pieces|, i requires 0 <= i < |pieces| => Decode(pieces[i]))
  }

  // No piece ends inside a character that goes on in the next.
  ghost predicate Uncut(pieces: seq<Bytes>) {
    pieces == [] || (!CutsCharacter(pieces[0], Concat(pieces[1..])) && Uncut(pieces[1..]))
  }

  function MarksDropped(pieces: seq<Bytes>): nat {
    if pieces == [] then 0 else (if Marked(pieces[0]) then 1 else 0) + MarksDropped(pieces[1..])
  }

  lemma {:induction false} PiecesDecode(pieces: seq<Bytes>)
    ensures Uncut(pieces) ==> Concat(Decodes(pieces)) == Decode(Concat(pieces))
    ensures |Concat(Decodes(pieces))| >= |Decode(Concat(pieces))|
    ensures !Uncut(pieces) ==> |Concat(Decodes(pieces))| > |Decode(Concat(pieces))|
    ensures Marks(Concat(Decodes(pieces))) <= Marks(Decode(Concat(pieces)))
    decreases |pieces|
  {
    if pieces != [] {
      var rest := pieces[1..];
      assert Decodes(pieces)[1..] == Decodes(rest);
      PiecesDecode(rest);
      CutDecodes(pieces[0], Concat(rest));
      hide Decode, CutsCharacter, Marks;
      MarksAdd(Decode(pieces[0]), Concat(Decodes(rest)));
    }
  }

  // A mark that is dropped is one character less.
  lemma DropOne(b: Bytes)
    ensures Decode(b) == if Marked(b) then [MARK_CHAR] + FromUtf8(b) else FromUtf8(b)
    ensures |FromUtf8(b)| + (if Marked(b) then 1 else 0) == |Decode(b)|
    ensures Marks(FromUtf8(b)) + (if Marked(b) then 1 else 0) == Marks(Decode(b))
  {
    if Marked(b) {
      MarkAt(b);
      hide Decode, Marks;
      MarksAdd([MARK_CHAR], Decode(b[3..]));
      MarkCounts();
    }
  }

  lemma {:induction false} DropAll(pieces: seq<Bytes>)
    ensures |Concat(Texts(pieces))| + MarksDropped(pieces) == |Concat(Decodes(pieces))|
    ensures Marks(Concat(Texts(pieces))) + MarksDropped(pieces) == Marks(Concat(Decodes(pieces)))
    ensures MarksDropped(pieces) == 0 ==> Texts(pieces) == Decodes(pieces)
    ensures MarksDropped(pieces) == 0 <==> forall i :: 0 <= i < |pieces| ==> !Marked(pieces[i])
    decreases |pieces|
  {
    if pieces != [] {
      DropAll(pieces[1..]);
      DropFirst(pieces);
      hide Marks, Texts, Decodes, Concat, Marked;
      NoneOrSome(pieces);
    }
  }

  lemma DropFirst(pieces: seq<Bytes>)
    requires pieces != []
    ensures var p, rest := pieces[0], pieces[1..]; var n := if Marked(p) then 1 else 0;
            && |Concat(Texts(pieces))| + n - |Concat(Texts(rest))| == |Concat(Decodes(pieces))| - |Concat(Decodes(rest))|
            && Marks(Concat(Texts(pieces))) + n - Marks(Concat(Texts(rest)))
               == Marks(Concat(Decodes(pieces))) - Marks(Concat(Decodes(rest)))
            && (n == 0 && Texts(rest) == Decodes(rest) ==> Texts(pieces) == Decodes(pieces))
  {
    var p, rest := pieces[0], pieces[1..];
    DropOne(p);
    FirstText(pieces);
    hide FromUtf8, Decode, Marks, Texts, Decodes, Concat, Marked;
    MarksAdd(Decode(p), Concat(Decodes(rest)));
    MarksAdd(FromUtf8(p), Concat(Texts(rest)));
    if !Marked(p) && Texts(rest) == Decodes(rest) {
      assert Texts(pieces) == [FromUtf8(p)] + Texts(rest) && Decodes(pieces) == [Decode(p)] + Decodes(rest);
    }
  }

  lemma FirstText(pieces: seq<Bytes>)
    requires pieces != []
    ensures var p, rest := pieces[0], pieces[1..];
            && Concat(Texts(pieces)) == FromUtf8(p) + Concat(Texts(rest)) && Texts(pieces) == [FromUtf8(p)] + Texts(rest)
            && Concat(Decodes(pieces)) == Decode(p) + Concat(Decodes(rest)) && Decodes(pieces) == [Decode(p)] + Decodes(rest)
            && (!Marked(p) ==> FromUtf8(p) == Decode(p))
  {
    hide Decode;
    assert Texts(pieces)[1..] == Texts(pieces[1..]) && Decodes(pieces)[1..] == Decodes(pieces[1..]);
  }

  lemma NoneOrSome(pieces: seq<Bytes>)
    requires pieces != []
    ensures (forall i :: 0 <= i < |pieces| ==> !Marked(pieces[i]))
            <==> !Marked(pieces[0]) && forall i :: 0 <= i < |pieces[1..]| ==> !Marked(pieces[1..][i])
  {
    hide Marked;
    assert forall i :: 0 < i < |pieces| ==> pieces[i] == pieces[1..][i - 1];
    assert forall i :: 0 <= i < |pieces[1..]| ==> pieces[1..][i] == pieces[i + 1];
  }

  // No piece but the first begins with a byte order mark.
  predicate NoMarkLater(pieces: seq<Bytes>) { forall i :: 0 < i < |pieces| ==> !Marked(pieces[i]) }

  // A cut inside the mark the whole begins with is not made good later.
  lemma MarkIsCut(pieces: seq<Bytes>)
    requires pieces != [] && 0 < |pieces[0]| < 3 && Marked(Concat(pieces))
    ensures !Uncut(pieces) && Concat(Texts(pieces)) != FromUtf8(Concat(pieces))
  {
    var p, rest := pieces[0], pieces[1..];
    var whole := Concat(pieces);
    MarkAt(whole);
    assert p[0..] + Concat(rest) == whole;
    assert Reaches(p, Concat(rest), 0);
    CutMarks(p, Concat(rest));
    PiecesDecode(rest);
    FirstText(pieces);
    MarksAdd(Decode(p), Concat(Decodes(rest)));
    PiecesDecode(pieces);
    DropAll(pieces);
    DropOne(whole);
    assert !Uncut(pieces);
    hide *;
  }

  lemma FirstDropped(pieces: seq<Bytes>)
    requires pieces != [] && Uncut(pieces) && NoMarkLater(pieces)
    requires Marked(pieces[0]) <==> Marked(Concat(pieces))
    ensures Concat(Texts(pieces)) == FromUtf8(Concat(pieces))
  {
    var p, rest := pieces[0], pieces[1..];
    var x := Concat(Decodes(rest));
    PiecesDecode(pieces);
    NoneDroppedLater(pieces);
    DropAll(rest);
    DropOne(p);
    DropOne(Concat(pieces));
    FirstText(pieces);
    hide *;
    if Marked(p) {
      WithoutFirst(MARK_CHAR, FromUtf8(p), x, FromUtf8(Concat(pieces)));
    }
  }

  lemma WithoutFirst(c: char, front: string, back: string, whole: string)
    requires [c] + whole == ([c] + front) + back
    ensures whole == front + back
  {
    assert whole == ([c] + whole)[1..] && front + back == (([c] + front) + back)[1..];
  }

  // Equal texts have as many marks and are as long.
  lemma SameTextUncut(pieces: seq<Bytes>)
    requires pieces != [] && (Marked(pieces[0]) <==> Marked(Concat(pieces)))
    requires Concat(Texts(pieces)) == FromUtf8(Concat(pieces))
    ensures Uncut(pieces) && MarksDropped(pieces[1..]) == 0
  {
    PiecesDecode(pieces);
    DropAll(pieces);
    DropOne(Concat(pieces));
    hide Marks, Decode, Texts, Decodes, Concat, FromUtf8, Uncut;
  }

  // Whatever the bytes are: the pieces' texts, one after the other, are the text
  // of the whole exactly when no cut falls inside a character and no later
  // piece begins with a byte order mark.
  lemma ReadsAsOnce(pieces: seq<Bytes>)
    requires forall i :: 0 <= i < |pieces| ==> pieces[i] != []
    ensures Concat(Texts(pieces)) == FromUtf8(Concat(pieces)) <==> Uncut(pieces) && NoMarkLater(pieces)
  {
    hide Texts, FromUtf8, Uncut;
    if pieces == [] {
      NothingReadsAsOnce();
    } else {
      NoneDroppedLater(pieces);
      if Marked(Concat(pieces)) && |pieces[0]| < 3 {
        MarkIsCut(pieces);
      } else {
        MarkInFront(pieces[0], Concat(pieces[1..]));
        if Uncut(pieces) && NoMarkLater(pieces) {
          FirstDropped(pieces);
        }
        if Concat(Texts(pieces)) == FromUtf8(Concat(pieces)) {
          SameTextUncut(pieces);
        }
      }
    }
  }

  lemma NothingReadsAsOnce()
    ensures Concat(Texts([])) == FromUtf8(Concat([])) && Uncut([])
  {
  }

  lemma NoneDroppedLater(pieces: seq<Bytes>)
    requires pieces != []
    ensures NoMarkLater(pieces) <==> MarksDropped(pieces[1..]) == 0
  {
    var rest := pieces[1..];
    DropAll(rest);
    assert forall i :: 0 < i < |pieces| ==> pieces[i] == rest[i - 1];
    assert forall i :: 0 <= i < |rest| ==> rest[i] == pieces[i + 1];
  }

  lemma MarkInFront(p: Bytes, rest: Bytes)
    requires !(Marked(p + rest) && |p| < 3)
    ensures Marked(p) <==> Marked(p + rest)
  {
    if Marked(p + rest) {
      assert p == (p + rest)[..|p|];
    }
  }

  // ---- Pieces of a text ----

  lemma {:induction false} CutsText(text: string, a: Bytes, b: Bytes) returns (after: string)
    requires TextBytes(text) == a + b
    ensures CutsCharacter(a, b) <==> b != [] && Continues(b[0])
    ensures !CutsCharacter(a, b) ==> TextBytes(after) == b
    decreases |text|
  {
    after := text;
    if a == [] {
      assert a + b == b;
      if text != "" {
        CharBack(text[0], TextBytes(text[1..]));
        StartsAnew(b);
      }
    } else {
      var w := |CharBytes(text[0])|;
      CharBack(text[0], TextBytes(text[1..]));
      if w > |a| {
        assert a[0..] + b == a + b;
        assert Reaches(a, b, 0);
        WidthContinues(a + b, |a|);
        assert (a + b)[|a|] == b[0];
      } else {
        CutLater(a, b, w);
        assert TextBytes(text)[w..] == TextBytes(text[1..]) && (a + b)[w..] == a[w..] + b;
        after := CutsText(text[1..], a[w..], b);
      }
    }
  }

  lemma StartsAnew(b: Bytes)
    requires Width(b) > 0
    ensures !Continues(b[0])
  {
  }

  // Each piece but the first begins with the first byte of a character.
  predicate BeginAnew(pieces: seq<Bytes>) {
    forall i :: 0 < i < |pieces| ==> pieces[i] != [] && !Continues(pieces[i][0])
  }

  lemma {:induction false} TextUncut(text: string, pieces: seq<Bytes>)
    requires (forall i :: 0 <= i < |pieces| ==> pieces[i] != []) && Concat(pieces) == TextBytes(text)
    ensures Uncut(pieces) <==> BeginAnew(pieces)
    decreases |pieces|
  {
    if pieces != [] {
      var rest := pieces[1..];
      var after := CutsText(text, pieces[0], Concat(rest));
      assert forall i :: 0 <= i < |rest| ==> rest[i] == pieces[i + 1];
      assert forall i :: 0 < i < |pieces| ==> pieces[i] == rest[i - 1];
      hide CutsCharacter;
      if rest == [] {
        assert Concat(rest) == [];
      } else {
        assert Concat(rest)[0] == rest[0][0];
        if !CutsCharacter(pieces[0], Concat(rest)) {
          TextUncut(after, rest);
        } else {
          assert Continues(pieces[1][0]);
        }
      }
    }
  }

  // A text that was written as UTF-8 and is read in pieces reads as it would at
  // once exactly when every later piece begins with a character's first byte and
  // none with a byte order mark.
  lemma TextReadsAsOnce(text: string, pieces: seq<Bytes>)
    requires (forall i :: 0 <= i < |pieces| ==> pieces[i] != []) && Concat(pieces) == TextBytes(text)
    ensures Concat(Texts(pieces)) == FromUtf8(TextBytes(text)) <==> BeginAnew(pieces) && NoMarkLater(pieces)
  {
    ReadsAsOnce(pieces);
    TextUncut(text, pieces);
  }

  // Which is the text, but for a mark it begins with.
  lemma TextOfBytes(text: string)
    ensures FromUtf8(TextBytes(text)) == if text != "" && text[0] == MARK_CHAR then text[1..] else text
  {
    TextBack(text);
    var b := TextBytes(text);
    DropOne(b);
    if text != "" {
      CharBack(text[0], TextBytes(text[1..]));
      NotMarked(b);
      if text[0] == MARK_CHAR {
        assert CharBytes(text[0]) == MARK && b == MARK + TextBytes(text[1..]);
        assert Marked(b);
        hide *;
        assert ([text[0]] + FromUtf8(b))[1..] == FromUtf8(b);
      }
    }
    hide Width, CharAt, CharBytes, Decode, TextBytes;
  }

  // Two bytes of one character in two pieces read as two broken ones.
  lemma AccentCut()
    ensures TextBytes("\U{00E9}") == [0xC3, 0xA9] == Concat([[0xC3], [0xA9]])
    ensures Concat(Texts([[0xC3], [0xA9]])) == [BROKEN, BROKEN]
  {
    assert [[0xC3], [0xA9]][1..] == [[0xA9]] && [[0xA9]][1..] == [];
    var t := Texts([[0xC3], [0xA9]]);
    assert t[0] == [BROKEN] && t[1] == [BROKEN] && t[1..] == [[BROKEN]] && t[1..][1..] == [];
  }

  lemma NotMarked(b: Bytes)
    ensures Width(b) > 0 && CharAt(b) != MARK_CHAR ==> !Marked(b)
  {
    if Marked(b) {
      MarkAt(b);
    }
  }

  lemma BrokenAfter(text: string, rest: Bytes)
    requires text != "" ==> text[0] != MARK_CHAR
    requires |rest| < 3
    ensures FromUtf8(TextBytes(text) + rest) == text + Decode(rest)
  {
    TextThen(text, rest);
    if text != "" {
      NoMarkInFront(text, rest);
    }
    hide Decode, TextBytes;
  }

  lemma NoMarkInFront(text: string, rest: Bytes)
    requires text != "" && text[0] != MARK_CHAR
    ensures !Marked(TextBytes(text) + rest)
  {
    var c, more := CharBytes(text[0]), TextBytes(text[1..]) + rest;
    assert TextBytes(text) + rest == c + more by {
      hide CharBytes;
    }
    CharBack(text[0], more);
    NotMarked(c + more);
    hide CharBytes, CharAt, Width, TextBytes, Marked;
  }
}
