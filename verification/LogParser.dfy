// The log window reads the file as it grows: whole lines become entries, the
// unfinished one waits, and only the running session's last entries stay.
// Source: src/bridges/qmllogbridge.cpp.
module LogParserSpec {
  import opened Common
  import opened Utf8

  const CAP := 20000

  const OPENED := "--- log opened ---"

  datatype Entry = Entry(time: string, level: int, mod: string, msg: string, raw: string)

  datatype Log = Log(partial: string, entries: seq<Entry>, session: string)

  const EMPTY := Log("", [], "")

  // What the code takes from its regular expressions and the calendar: a
  // line's stamp, level word (in capitals) and text; a "[module]" in front of a
  // text; the file, line and text of a QML warning; and a stamp's local time.
  datatype Patterns = Patterns(
    head: string -> Option<(string, string, string)>,
    tag: string -> Option<(string, string)>,
    qmlPath: string -> Option<(string, string, string)>,
    clock: string -> Option<string>)

  // ---- One line ----

  predicate Contains(s: string, part: string) {
    part <= s || (s != "" && Contains(s[1..], part))
  }

  function Chop(line: string): string {
    if line != "" && line[|line| - 1] == '\r' then line[..|line| - 1] else line
  }

  function LevelOf(word: string): int {
    if word == "ERROR" || word == "CRITICAL" || word == "FATAL" then 3
    else if "WARN" <= word then 2
    else if word == "INFO" then 1
    else 0
  }

  function TimeOf(ps: Patterns, stamp: string): string {
    match ps.clock(stamp)
    case Some(time) => time
    case None => if |stamp| < 11 then "" else stamp[11..Min(19, |stamp|)]
  }

  function Located(found: (string, string, string)): string {
    found.0 + found.1 + " \U{2014} " + found.2
  }

  function EntryOf(ps: Patterns, line: string, stamp: string, word: string, text: string): Entry {
    var tag := ps.tag(text);
    var (mod0, rest0) := if tag.Some? then tag.value else ("", text);
    var path := ps.qmlPath(rest0);
    var (mod, rest1) := if path.Some? then ("qml", Located(path.value)) else (mod0, rest0);
    var again := ps.qmlPath(rest1);
    var rest := if mod == "qml" && again.Some? then Located(again.value) else rest1;
    Entry(TimeOf(ps, stamp), LevelOf(word), mod, rest, line)
  }

  // A stamped line makes an entry, any other continues the last one. A line
  // that says the log was opened drops everything before it.
  function Step(ps: Patterns, g: Log, line: string): Log {
    var l := Chop(line);
    if l == "" then g
    else
      match ps.head(l)
      case None =>
        if g.entries == [] then g
        else
          var last := g.entries[|g.entries| - 1];
          g.(entries := g.entries[|g.entries| - 1 := last.(msg := last.msg + "\n" + l, raw := last.raw + "\n" + l)])
      case Some((stamp, word, text)) =>
        var e := EntryOf(ps, l, stamp, word, text);
        var opens := Contains(text, OPENED);
        var session := if opens then "" else g.session;
        Log(g.partial, (if opens then [] else g.entries) + [e],
            if e.mod == "versions" && session == "" then e.time[..Min(5, |e.time|)] + "\t" + e.msg else session)
  }

  function Fold(ps: Patterns, g: Log, lines: seq<string>): Log
    decreases |lines|
  {
    if lines == [] then g else Fold(ps, Step(ps, g, lines[0]), lines[1..])
  }

  function Newest(entries: seq<Entry>): seq<Entry> {
    if |entries| > CAP then entries[|entries| - CAP..] else entries
  }

  function Capped(g: Log): Log { g.(entries := Newest(g.entries)) }

  // ---- A text as lines ----

  function Break(text: string): (k: nat)
    ensures k <= |text|
    ensures k < |text| ==> text[k] == '\n'
    ensures k < |text| <==> '\n' in text
  {
    if text == "" || text[0] == '\n' then 0 else 1 + Break(text[1..])
  }

  // The lines that have ended, and what follows the last of them.
  function Lines(text: string): seq<string> {
    if '\n' !in text then [] else [text[..Break(text)]] + Lines(text[Break(text) + 1..])
  }

  function Tail(text: string): (t: string)
    ensures '\n' !in t
  {
    if '\n' !in text then text else Tail(text[Break(text) + 1..])
  }

  function Parse(ps: Patterns, g: Log, chunk: string): Log {
    var text := g.partial + chunk;
    if '\n' !in text then g.(partial := text)
    else Capped(Fold(ps, g, Lines(text))).(partial := Tail(text))
  }

  // ---- Chunks do not matter ----

  lemma BreakInFront(a: string, b: string)
    requires '\n' in a
    ensures '\n' in a + b
    ensures Break(a + b) == Break(a) && (a + b)[..Break(a)] == a[..Break(a)] &&
        (a + b)[Break(a) + 1..] == a[Break(a) + 1..] + b
  {
    if a[0] != '\n' {
      assert (a + b)[1..] == a[1..] + b;
      BreakInFront(a[1..], b);
    }
  }

  lemma {:induction false} LinesAppend(a: string, b: string)
    ensures Lines(a + b) == Lines(a) + Lines(Tail(a) + b) && Tail(a + b) == Tail(Tail(a) + b)
    decreases |a|
  {
    hide Lines, Tail, Break;
    FirstLine(a);
    if '\n' in a {
      var rest := a[Break(a) + 1..];
      BreakInFront(a, b);
      FirstLine(a + b);
      LinesAppend(rest, b);
      Regroup([a[..Break(a)]], Lines(rest), Lines(Tail(rest) + b));
    } else {
      assert [] + Lines(a + b) == Lines(a + b);
    }
  }

  lemma Regroup<T>(x: seq<T>, y: seq<T>, z: seq<T>)
    ensures x + (y + z) == (x + y) + z
  {
  }

  lemma FirstLine(text: string)
    ensures if '\n' in text then
              var rest := text[Break(text) + 1..];
              Lines(text) == [text[..Break(text)]] + Lines(rest) && Tail(text) == Tail(rest)
            else Lines(text) == [] && Tail(text) == text
  {
    hide Break;
  }

  lemma {:induction false} FoldAppend(ps: Patterns, g: Log, a: seq<string>, b: seq<string>)
    ensures Fold(ps, g, a + b) == Fold(ps, Fold(ps, g, a), b)
    decreases |a|
  {
    hide Step;
    if a == [] {
      assert a + b == b;
    } else {
      assert (a + b)[1..] == a[1..] + b;
      FoldAppend(ps, Step(ps, g, a[0]), a[1..], b);
    }
  }

  // Cutting to the newest entries early loses nothing that would have stayed.
  lemma StepCapped(ps: Patterns, g: Log, line: string)
    ensures Capped(Step(ps, Capped(g), line)) == Capped(Step(ps, g, line))
  {
    hide Contains, EntryOf, Chop;
    var l := Chop(line);
    if l != "" && ps.head(l).Some? {
      NewestOfMore(g.entries, EntryOf(ps, l, ps.head(l).value.0, ps.head(l).value.1, ps.head(l).value.2));
    } else if l != "" && g.entries != [] {
      var last := g.entries[|g.entries| - 1];
      NewestLast(g.entries, last.(msg := last.msg + "\n" + l, raw := last.raw + "\n" + l));
    }
    hide Newest;
  }

  lemma NewestLast(entries: seq<Entry>, e: Entry)
    requires entries != []
    ensures var kept := Newest(entries);
            && kept != [] && kept[|kept| - 1] == entries[|entries| - 1]
            && Newest(kept[|kept| - 1 := e]) == Newest(entries[|entries| - 1 := e])
  {
  }

  lemma NewestOfMore(entries: seq<Entry>, e: Entry)
    ensures Newest(Newest(entries) + [e]) == Newest(entries + [e])
  {
  }

  lemma {:induction false} FoldCapped(ps: Patterns, g: Log, lines: seq<string>)
    ensures Capped(Fold(ps, Capped(g), lines)) == Capped(Fold(ps, g, lines))
    decreases |lines|
  {
    hide Step;
    if lines != [] {
      FoldCapped(ps, Step(ps, Capped(g), lines[0]), lines[1..]);
      StepCapped(ps, g, lines[0]);
      FoldCapped(ps, Step(ps, g, lines[0]), lines[1..]);
    }
  }

  // Lines never look at the unfinished one.
  lemma {:induction false} FoldPartial(ps: Patterns, g: Log, partial: string, lines: seq<string>)
    ensures Fold(ps, g.(partial := partial), lines) == Fold(ps, g, lines).(partial := partial)
    decreases |lines|
  {
    if lines != [] {
      hide Contains, EntryOf, Chop;
      FoldPartial(ps, Step(ps, g, lines[0]), partial, lines[1..]);
    }
  }

  predicate Good(g: Log) { '\n' !in g.partial && |g.entries| <= CAP }

  // Two chunks in a row do what one of both does.
  lemma TwoChunks(ps: Patterns, g: Log, a: string, b: string)
    requires Good(g)
    ensures Parse(ps, Parse(ps, g, a), b) == Parse(ps, g, a + b)
  {
    hide Fold, Lines, Tail, Break;
    var text := g.partial + a;
    assert text + b == g.partial + (a + b);
    if '\n' in text {
      LinesAppend(text, b);
      assert '\n' in text + b;
      var first := Fold(ps, g, Lines(text));
      var next := Tail(text) + b;
      FoldAppend(ps, g, Lines(text), Lines(next));
      FoldPartial(ps, Capped(first), Tail(text), Lines(next));
      FoldCapped(ps, first, Lines(next));
      NoBreakNoLines(ps, first, next);
    } else {
      FoldPartial(ps, g, text, Lines(text + b));
    }
  }

  lemma NoBreakNoLines(ps: Patterns, g: Log, text: string)
    ensures '\n' !in text ==> Lines(text) == [] && Tail(text) == text && Fold(ps, g, Lines(text)) == g
  {
  }

  function ParseAll(ps: Patterns, g: Log, chunks: seq<string>): Log
    decreases |chunks|
  {
    if chunks == [] then g else ParseAll(ps, Parse(ps, g, chunks[0]), chunks[1..])
  }

  // However the text is cut up, the entries, the unfinished line and the
  // session line end up as if it had come in one piece.
  lemma {:induction false} ChunksDoNotMatter(ps: Patterns, g: Log, chunks: seq<string>)
    requires Good(g)
    ensures ParseAll(ps, g, chunks) == Parse(ps, g, Concat(chunks))
    decreases |chunks|
  {
    hide Fold, Lines, Tail;
    if chunks == [] {
      assert g.partial + "" == g.partial;
    } else {
      ChunksDoNotMatter(ps, Parse(ps, g, chunks[0]), chunks[1..]);
      TwoChunks(ps, g, chunks[0], Concat(chunks[1..]));
    }
  }

  // ---- What a parse keeps ----

  // The lines that stay: from the last one that opened the log on, or else
  // from the first stamped one.
  function Kept(ps: Patterns, lines: seq<string>): seq<string> {
    if lines == [] then []
    else
      var before := Kept(ps, lines[..|lines| - 1]);
      var l := Chop(lines[|lines| - 1]);
      if l == "" || (before == [] && ps.head(l).None?) then before
      else if ps.head(l).Some? && Contains(ps.head(l).value.2, OPENED) then [l]
      else before + [l]
  }

  function Stamped(ps: Patterns, lines: seq<string>): nat {
    if lines == [] then 0
    else Stamped(ps, lines[..|lines| - 1]) + if ps.head(lines[|lines| - 1]).Some? then 1 else 0
  }

  function Unlines(lines: seq<string>): string {
    if lines == [] then ""
    else if |lines| == 1 then lines[0]
    else Unlines(lines[..|lines| - 1]) + "\n" + lines[|lines| - 1]
  }

  function Raws(entries: seq<Entry>): seq<string> {
    if entries == [] then [] else Raws(entries[..|entries| - 1]) + [entries[|entries| - 1].raw]
  }

  lemma FoldLast(ps: Patterns, g: Log, lines: seq<string>)
    requires lines != []
    ensures Fold(ps, g, lines) == Step(ps, Fold(ps, g, lines[..|lines| - 1]), lines[|lines| - 1])
  {
    var n := |lines| - 1;
    FoldAppend(ps, g, lines[..n], [lines[n]]);
    assert lines[..n] + [lines[n]] == lines && [lines[n]][1..] == [];
  }

  // The kept lines, the entries' raw text and their number agree.
  predicate Shows(ps: Patterns, entries: seq<Entry>, kept: seq<string>) {
    && (entries == [] <==> kept == [])
    && Unlines(Raws(entries)) == Unlines(kept)
    && |entries| == Stamped(ps, kept)
  }

  lemma ShowsNew(ps: Patterns, entries: seq<Entry>, kept: seq<string>, e: Entry)
    requires Shows(ps, entries, kept) && ps.head(e.raw).Some?
    ensures Shows(ps, entries + [e], kept + [e.raw])
  {
    assert (entries + [e])[..|entries|] == entries && (kept + [e.raw])[..|kept|] == kept;
    assert (Raws(entries) + [e.raw])[..|Raws(entries)|] == Raws(entries);
    assert Raws(entries) == [] <==> entries == [];
  }

  lemma ShowsMore(ps: Patterns, entries: seq<Entry>, kept: seq<string>, l: string, e: Entry)
    requires Shows(ps, entries, kept) && ps.head(l).None? && entries != []
    requires e.raw == entries[|entries| - 1].raw + "\n" + l
    ensures Shows(ps, entries[|entries| - 1 := e], kept + [l])
  {
    var n := |entries| - 1;
    var front := Raws(entries[..n]);
    var last := entries[n].raw;
    assert entries[n := e][..n] == entries[..n] && (kept + [l])[..|kept|] == kept;
    assert (front + [e.raw])[..|front|] == front && (front + [last])[..|front|] == front;
    if front != [] {
      assert Unlines(front + [e.raw]) == Unlines(front) + "\n" + (last + "\n" + l);
      assert Unlines(front) + "\n" + (last + "\n" + l) == (Unlines(front) + "\n" + last) + "\n" + l;
    }
  }

  // Nothing of the running session is lost or made up: the entries' raw text,
  // line after line, is the kept text, and each stamped line starts one entry.
  lemma {:induction false} EntriesShowTheText(ps: Patterns, g: Log, lines: seq<string>)
    requires g.entries == []
    ensures Shows(ps, Fold(ps, g, lines).entries, Kept(ps, lines))
    decreases |lines|
  {
    if lines == [] {
    } else {
      var n := |lines| - 1;
      var before := Fold(ps, g, lines[..n]);
      EntriesShowTheText(ps, g, lines[..n]);
      FoldLast(ps, g, lines);
      StepShows(ps, before, Kept(ps, lines[..n]), lines, n);
    }
  }

  lemma StepShows(ps: Patterns, before: Log, kept: seq<string>, lines: seq<string>, n: nat)
    requires n == |lines| - 1 && kept == Kept(ps, lines[..n]) && Shows(ps, before.entries, kept)
    ensures Shows(ps, Step(ps, before, lines[n]).entries, Kept(ps, lines))
  {
    hide Contains, EntryOf, Shows;
    var l := Chop(lines[n]);
    if l != "" && ps.head(l).Some? {
      var e := Step(ps, before, lines[n]).entries[|Step(ps, before, lines[n]).entries| - 1];
      RawIsLine(ps, l);
      ShowsNothing(ps);
      ShowsNew(ps, before.entries, kept, e);
      ShowsNew(ps, [], [], e);
      assert [] + [e] == [e] && [] + [l] == [l];
    } else if l != "" && before.entries != [] {
      var m := |before.entries| - 1;
      ShowsMore(ps, before.entries, kept, l, Step(ps, before, lines[n]).entries[m]);
      ShowsEmptiness(ps, before.entries, kept);
    } else {
      ShowsEmptiness(ps, before.entries, kept);
    }
  }

  lemma RawIsLine(ps: Patterns, l: string)
    ensures forall stamp, word, text :: EntryOf(ps, l, stamp, word, text).raw == l
  {
  }

  lemma ShowsNothing(ps: Patterns)
    ensures Shows(ps, [], [])
  {
  }

  lemma ShowsEmptiness(ps: Patterns, entries: seq<Entry>, kept: seq<string>)
    requires Shows(ps, entries, kept)
    ensures entries == [] <==> kept == []
  {
  }

  // A line that opens the log makes everything before it irrelevant.
  lemma OnlyTheRunningSession(ps: Patterns, g: Log, before: seq<string>, open: string, after: seq<string>)
    requires ps.head(Chop(open)).Some? && Chop(open) != "" && Contains(ps.head(Chop(open)).value.2, OPENED)
    ensures Fold(ps, g, before + [open] + after) == Fold(ps, EMPTY.(partial := g.partial), [open] + after)
  {
    var h := Fold(ps, g, before);
    hide Contains, EntryOf;
    FoldAppend(ps, g, before, [open] + after);
    FoldPartial(ps, g, g.partial, before);
    assert g.(partial := g.partial) == g;
    assert before + [open] + after == before + ([open] + after);
    assert Step(ps, h, open) == Step(ps, EMPTY.(partial := g.partial), open);
  }

  // ---- Following the file ----

  // One look at the log file: its size, taken first, and the bytes it had when
  // it was read after that. Other threads and processes append to it meanwhile.
  datatype Look = Look(size: nat, content: Bytes)

  datatype Follower = Follower(log: Log, lastSize: nat)

  // Nothing new, more at the end, or a file that shrank and starts over. What is
  // kept is the size seen, what is parsed is all there was to read.
  function Poll(ps: Patterns, f: Follower, look: Look): Follower {
    if look.size == f.lastSize then f
    else
      var again := look.size < f.lastSize;
      var log := if again then Log("", [], f.log.session) else f.log;
      var from := if again then 0 else Min(f.lastSize, |look.content|);
      Follower(Parse(ps, log, FromUtf8(look.content[from..])), look.size)
  }

  function PollAll(ps: Patterns, f: Follower, looks: seq<Look>): Follower
    decreases |looks|
  {
    if looks == [] then f else PollAll(ps, Poll(ps, f, looks[0]), looks[1..])
  }

  // Looks that each found the file larger, at a file that is only appended to.
  // (One that finds the size it knows does nothing.)
  predicate Grows(lastSize: nat, before: Bytes, looks: seq<Look>)
    decreases |looks|
  {
    looks == []
    || (&& before <= looks[0].content && |before| <= looks[0].size <= |looks[0].content| && lastSize < looks[0].size
        && Grows(looks[0].size, looks[0].content, looks[1..]))
  }

  // What the looks read, piece by piece.
  function Pieces(lastSize: nat, looks: seq<Look>): (r: seq<Bytes>)
    ensures |r| == |looks|
    decreases |looks|
  {
    if looks == [] then []
    else [looks[0].content[Min(lastSize, |looks[0].content|)..]] + Pieces(looks[0].size, looks[1..])
  }

  lemma {:induction false} PollsParse(ps: Patterns, f: Follower, before: Bytes, looks: seq<Look>)
    requires Grows(f.lastSize, before, looks)
    ensures PollAll(ps, f, looks).log == ParseAll(ps, f.log, Texts(Pieces(f.lastSize, looks)))
    decreases |looks|
  {
    hide Parse;
    if looks != [] {
      var pieces := Pieces(f.lastSize, looks);
      PollsParse(ps, Poll(ps, f, looks[0]), looks[0].content, looks[1..]);
      assert pieces[1..] == Pieces(looks[0].size, looks[1..]);
      assert Texts(pieces)[1..] == Texts(pieces[1..]);
    }
  }

  // Nothing was appended between the two halves of any look but the last.
  predicate NoneBetween(looks: seq<Look>) {
    forall i :: 0 <= i < |looks| - 1 ==> looks[i].size == |looks[i].content|
  }

  lemma {:induction false} ReadLength(lastSize: nat, before: Bytes, looks: seq<Look>)
    requires Grows(lastSize, before, looks) && looks != [] && lastSize <= |before|
    ensures |Concat(Pieces(lastSize, looks))| >= |looks[|looks| - 1].content| - lastSize
    ensures |Concat(Pieces(lastSize, looks))| == |looks[|looks| - 1].content| - lastSize <==> NoneBetween(looks)
    decreases |looks|
  {
    var piece, rest := looks[0].content[lastSize..], looks[1..];
    assert Pieces(lastSize, looks)[1..] == Pieces(looks[0].size, rest);
    if rest != [] {
      ReadLength(looks[0].size, looks[0].content, rest);
      assert rest[|rest| - 1] == looks[|looks| - 1];
      assert NoneBetween(looks) <==> looks[0].size == |looks[0].content| && NoneBetween(rest) by {
        assert forall i :: 0 < i < |looks| ==> looks[i] == rest[i - 1];
      }
    } else {
      assert Concat<Byte>([]) == [];
    }
  }

  lemma {:induction false} ReadWhole(lastSize: nat, before: Bytes, looks: seq<Look>)
    requires Grows(lastSize, before, looks) && looks != [] && lastSize <= |before| && NoneBetween(looks)
    ensures looks[0].content <= looks[|looks| - 1].content
    ensures Concat(Pieces(lastSize, looks)) == looks[|looks| - 1].content[lastSize..]
    decreases |looks|
  {
    var rest := looks[1..];
    assert Pieces(lastSize, looks)[1..] == Pieces(looks[0].size, rest);
    if rest != [] {
      assert forall i :: 0 < i < |looks| ==> looks[i] == rest[i - 1];
      ReadWhole(looks[0].size, looks[0].content, rest);
      SplitAfter(looks[0].content, looks[|looks| - 1].content, lastSize);
    } else {
      assert Concat<Byte>([]) == [];
    }
  }

  lemma SplitAfter(a: Bytes, b: Bytes, n: nat)
    requires n <= |a| && a <= b
    ensures a[n..] + b[|a|..] == b[n..]
  {
    assert b == a + b[|a|..];
  }

  // The file is read as if once exactly when nothing is appended between taking
  // its size and reading it, at any look but the last. What is, is read again.
  lemma ReadOnceExactly(looks: seq<Look>)
    requires Grows(0, [], looks) && looks != []
    ensures Concat(Pieces(0, looks)) == looks[|looks| - 1].content <==> NoneBetween(looks)
  {
    ReadLength(0, [], looks);
    if NoneBetween(looks) {
      ReadWhole(0, [], looks);
    }
  }

  lemma {:induction false} PiecesNotEmpty(lastSize: nat, before: Bytes, looks: seq<Look>)
    requires Grows(lastSize, before, looks)
    ensures forall i :: 0 <= i < |looks| ==> Pieces(lastSize, looks)[i] != []
    decreases |looks|
  {
    if looks != [] {
      PiecesNotEmpty(looks[0].size, looks[0].content, looks[1..]);
    }
  }

  // With nothing appended in between, the text read is the file's, whatever its
  // bytes, exactly when no look ends inside a character and none begins with a
  // byte order mark that is not the file's own.
  lemma TextReadExactly(looks: seq<Look>)
    requires Grows(0, [], looks) && looks != [] && NoneBetween(looks)
    ensures Concat(Texts(Pieces(0, looks))) == FromUtf8(looks[|looks| - 1].content)
            <==> Uncut(Pieces(0, looks)) && NoMarkLater(Pieces(0, looks))
  {
    hide Uncut, Texts, FromUtf8, Pieces;
    ReadOnceExactly(looks);
    PiecesNotEmpty(0, [], looks);
    ReadsAsOnce(Pieces(0, looks));
  }

  // In a file of well-formed text: exactly when each look but the first begins
  // with a character's first byte, and none of them with a byte order mark.
  lemma WellFormedReadExactly(looks: seq<Look>, text: string)
    requires Grows(0, [], looks) && looks != [] && NoneBetween(looks) && looks[|looks| - 1].content == TextBytes(text)
    ensures Concat(Texts(Pieces(0, looks))) == FromUtf8(TextBytes(text))
            <==> BeginAnew(Pieces(0, looks)) && NoMarkLater(Pieces(0, looks))
  {
    hide Texts, FromUtf8, Pieces;
    ReadOnceExactly(looks);
    PiecesNotEmpty(0, [], looks);
    TextReadsAsOnce(text, Pieces(0, looks));
  }

  // And the log is then that of the whole file, parsed once.
  lemma PollsReadTheFile(ps: Patterns, looks: seq<Look>)
    requires Grows(0, [], looks) && looks != [] && NoneBetween(looks)
    requires Uncut(Pieces(0, looks)) && NoMarkLater(Pieces(0, looks))
    ensures PollAll(ps, Follower(EMPTY, 0), looks).log == Parse(ps, EMPTY, FromUtf8(looks[|looks| - 1].content))
  {
    hide Parse, PollAll, Pieces, Uncut, Texts, FromUtf8;
    PollsReadThePieces(ps, looks);
    TextReadExactly(looks);
  }

  // ---- A file that shrank ----

  lemma {:induction false} SessionApart(ps: Patterns, g: Log, session: string, lines: seq<string>)
    ensures var a, b := Fold(ps, g, lines), Fold(ps, g.(session := session), lines);
            a.entries == b.entries && a.partial == b.partial
    decreases |lines|
  {
    if lines != [] {
      var h, k := Step(ps, g, lines[0]), Step(ps, g.(session := session), lines[0]);
      assert h.entries == k.entries && h.partial == k.partial;
      hide Step;
      SessionApart(ps, h, k.session, lines[1..]);
      assert h.(session := k.session) == k;
    }
  }

  // A look that finds the file smaller than it was starts over: entries and
  // unfinished line are those of the file as it is now. One that finds the size
  // it knows changes nothing.
  lemma ShrunkStartsOver(ps: Patterns, f: Follower, look: Look)
    ensures look.size < f.lastSize ==>
              var g, h := Poll(ps, f, look), Parse(ps, EMPTY, FromUtf8(look.content));
              g.lastSize == look.size && g.log.entries == h.entries && g.log.partial == h.partial
    ensures look.size == f.lastSize ==> Poll(ps, f, look) == f
  {
    var text := FromUtf8(look.content);
    assert look.content[0..] == look.content;
    hide FromUtf8;
    ParsedAnew(ps, f.log.session, text);
    ParsedAnew(ps, "", text);
    SessionApart(ps, EMPTY, f.log.session, Lines(text));
    hide Parse, Fold, Lines, Tail;
  }

  // What a parse from nothing leaves.
  lemma ParsedAnew(ps: Patterns, session: string, text: string)
    ensures var g, lines := Parse(ps, Log("", [], session), text), Lines(text);
            && g.entries == Newest(Fold(ps, EMPTY.(session := session), lines).entries) && g.partial == Tail(text)
  {
    var g := Log("", [], session);
    assert "" + text == text;
    FoldPartial(ps, g, Tail(text), Lines(text));
    NoBreakNoLines(ps, g, text);
    hide Fold;
  }

  // And whatever is appended when: the log is that of the bytes read, what was
  // appended in between twice.
  lemma PollsReadThePieces(ps: Patterns, looks: seq<Look>)
    requires Grows(0, [], looks)
    ensures PollAll(ps, Follower(EMPTY, 0), looks).log == Parse(ps, EMPTY, Concat(Texts(Pieces(0, looks))))
  {
    hide Parse, PollAll, Pieces;
    PollsParse(ps, Follower(EMPTY, 0), [], looks);
    ChunksDoNotMatter(ps, EMPTY, Texts(Pieces(0, looks)));
  }

  // One line in the file when its size is taken, a second when it is read: the
  // next look at the file parses the second line again.
  lemma AppendedBetween(ps: Patterns, first: Bytes, second: Bytes)
    requires first != [] && second != []
    ensures var looks := [Look(|first|, first + second), Look(|first + second|, first + second)];
            && Grows(0, [], looks) && !NoneBetween(looks)
            && PollAll(ps, Follower(EMPTY, 0), looks).log
               == Parse(ps, EMPTY, FromUtf8(first + second) + FromUtf8(second))
  {
    var both := first + second;
    var looks := [Look(|first|, both), Look(|both|, both)];
    assert looks[1..] == [looks[1]] && looks[1..][1..] == [] && both[0..] == both && both[|first|..] == second;
    assert Grows(|first|, both, looks[1..]);
    assert Pieces(0, looks) == [both, second];
    hide Parse, FromUtf8;
    PollsReadThePieces(ps, looks);
    TwoTexts(both, second);
  }

  lemma TwoTexts(a: Bytes, b: Bytes)
    ensures Texts([a, b]) == [FromUtf8(a), FromUtf8(b)] && Concat(Texts([a, b])) == FromUtf8(a) + FromUtf8(b)
  {
    hide FromUtf8;
    var t := Texts([a, b]);
    assert t == [FromUtf8(a), FromUtf8(b)] && t[1..] == [FromUtf8(b)] && t[1..][1..] == [];
    assert Concat(t[1..]) == FromUtf8(b) + Concat(t[1..][1..]) == FromUtf8(b);
  }

  // ---- Lines that make entries ----

  // One line that is stamped, and does not open the log.
  predicate EntryLine(ps: Patterns, l: string) {
    && l != "" && '\n' !in l && l[|l| - 1] != '\r' && l[0] != MARK_CHAR
    && ps.head(l).Some? && !Contains(ps.head(l).value.2, OPENED)
  }

  lemma OneEntry(ps: Patterns, g: Log, l: string)
    requires EntryLine(ps, l)
    ensures |Step(ps, g, l).entries| == |g.entries| + 1
  {
    hide Contains, EntryOf;
  }

  lemma {:induction false} LinesMakeEntries(ps: Patterns, g: Log, lines: seq<string>)
    requires forall i :: 0 <= i < |lines| ==> EntryLine(ps, lines[i])
    ensures |Fold(ps, g, lines).entries| == |g.entries| + |lines|
    decreases |lines|
  {
    if lines != [] {
      OneEntry(ps, g, lines[0]);
      hide Step, EntryLine;
      LinesMakeEntries(ps, Step(ps, g, lines[0]), lines[1..]);
    }
  }

  lemma {:induction false} LineAndRest(line: string, rest: string)
    requires '\n' !in line
    ensures Lines((line + "\n") + rest) == [line] + Lines(rest)
  {
    var text := (line + "\n") + rest;
    BreakAfter(line, "\n" + rest);
    assert text == line + ("\n" + rest);
    assert text[|line|] == '\n' && text[..|line|] == line && text[|line| + 1..] == rest;
  }

  lemma {:induction false} BreakAfter(line: string, rest: string)
    requires '\n' !in line && rest != "" && rest[0] == '\n'
    ensures Break(line + rest) == |line|
  {
    if line == "" {
      assert line + rest == rest;
    } else {
      assert (line + rest)[1..] == line[1..] + rest;
      BreakAfter(line[1..], rest);
    }
  }

  lemma EntriesOf(ps: Patterns, text: string, lines: seq<string>)
    requires Lines(text) == lines && 0 < |lines| <= CAP
    requires forall i :: 0 <= i < |lines| ==> EntryLine(ps, lines[i])
    ensures |Parse(ps, EMPTY, text).entries| == |lines|
  {
    hide EntryLine;
    assert "" + text == text;
    LinesMakeEntries(ps, EMPTY, lines);
    hide Fold;
  }

  lemma TwoLines(ps: Patterns, x: string, y: string)
    requires EntryLine(ps, x) && EntryLine(ps, y)
    ensures |Parse(ps, EMPTY, (x + "\n") + (y + "\n")).entries| == 2
    ensures |Parse(ps, EMPTY, ((x + "\n") + (y + "\n")) + (y + "\n")).entries| == 3
  {
    var u, v := x + "\n", y + "\n";
    LinesOfThem(x, y);
    hide *;
    EntriesOfTwo(ps, u + v, x, y);
    EntriesOfThree(ps, (u + v) + v, x, y, y);
  }

  lemma EntriesOfTwo(ps: Patterns, text: string, x: string, y: string)
    requires Lines(text) == [x] + [y] && EntryLine(ps, x) && EntryLine(ps, y)
    ensures |Parse(ps, EMPTY, text).entries| == 2
  {
    hide Lines, Parse, EntryLine;
    EntriesOf(ps, text, [x] + [y]);
  }

  lemma EntriesOfThree(ps: Patterns, text: string, x: string, y: string, z: string)
    requires Lines(text) == ([x] + [y]) + [z] && EntryLine(ps, x) && EntryLine(ps, y) && EntryLine(ps, z)
    ensures |Parse(ps, EMPTY, text).entries| == 3
  {
    hide Lines, Parse, EntryLine;
    EntriesOf(ps, text, ([x] + [y]) + [z]);
  }

  lemma LinesOfThem(x: string, y: string)
    requires '\n' !in x && '\n' !in y
    ensures var u, v := x + "\n", y + "\n"; Lines(u + v) == [x] + [y] && Lines((u + v) + v) == ([x] + [y]) + [y]
  {
    var u, v := x + "\n", y + "\n";
    LastLine(y);
    LineAndRest(y, v);
    LineAndRest(x, v);
    LineAndRest(x, v + v);
    hide *;
    Regroup(u, v, v);
    Regroup([x], [y], [y]);
  }

  lemma LastLine(line: string)
    requires '\n' !in line
    ensures Lines(line + "\n") == [line]
  {
    LineAndRest(line, "");
    assert Lines("") == [];
    assert (line + "\n") + "" == line + "\n";
  }

  // A line read back from the bytes it was written as.
  lemma LineBack(line: string)
    requires line != "" && line[0] != MARK_CHAR
    ensures FromUtf8(TextBytes(line)) == line && TextBytes(line) != []
  {
    TextOfBytes(line);
    CharBack(line[0], TextBytes(line[1..]));
  }

  // Line x is in the file when its size is taken, line y when it is read. The
  // next look leaves three entries; the file has two lines.
  lemma AppendedLineTwice(ps: Patterns, x: string, y: string) returns (looks: seq<Look>)
    requires EntryLine(ps, x) && EntryLine(ps, y)
    ensures Grows(0, [], looks) && looks != [] && !NoneBetween(looks)
    ensures |PollAll(ps, Follower(EMPTY, 0), looks).log.entries| == 3
    ensures |Parse(ps, EMPTY, FromUtf8(looks[|looks| - 1].content)).entries| == 2
  {
    var u, v := x + "\n", y + "\n";
    var first, second := TextBytes(u), TextBytes(v);
    looks := [Look(|first|, first + second), Look(|first + second|, first + second)];
    LineBack(u);
    LineBack(v);
    LineBack(u + v);
    TextBytesAdd(u, v);
    AppendedBetween(ps, first, second);
    TwoLines(ps, x, y);
    hide *;
  }

  // ---- Real lines ----

  predicate Digit(c: char) { '0' <= c <= '9' }

  predicate WordChar(c: char) { Digit(c) || 'a' <= c <= 'z' || 'A' <= c <= 'Z' || c == '_' }

  function DigitsAt(s: string): (n: nat)
    ensures n <= |s|
  {
    if s == "" || !Digit(s[0]) then 0 else 1 + DigitsAt(s[1..])
  }

  function WordAt(s: string): (n: nat)
    ensures n <= |s|
  {
    if s == "" || !WordChar(s[0]) then 0 else 1 + WordAt(s[1..])
  }

  const SHAPE := "0000-00-00T00:00:00"

  predicate Shaped(s: string) {
    |s| >= |SHAPE| && forall k :: 0 <= k < |SHAPE| ==> if SHAPE[k] == '0' then Digit(s[k]) else s[k] == SHAPE[k]
  }

  // A fraction of a second, or none.
  function Fraction(s: string): (n: nat)
    ensures n <= |s|
  {
    if s != "" && s[0] == '.' && DigitsAt(s[1..]) > 0 then 1 + DigitsAt(s[1..]) else 0
  }

  function Upper(s: string): string {
    if s == "" then ""
    else [if 'a' <= s[0] <= 'z' then (s[0] as int - 32) as char else s[0]] + Upper(s[1..])
  }

  // What the expression for a line's head matches: a stamp, a word in brackets,
  // and the rest of the line.
  function Head(line: string): Option<(string, string, string)> {
    if !Shaped(line) then None
    else
      var t := |SHAPE| + Fraction(line[|SHAPE|..]);
      if !("Z [" <= line[t..]) then None
      else
        var n := WordAt(line[t + 3..]);
        var close := t + 3 + n;
        if n == 0 || close == |line| || line[close] != ']' then None
        else
          var from := if close + 1 < |line| && line[close + 1] == ' ' then close + 2 else close + 1;
          Some((line[..t + 1], Upper(line[t + 3..close]), line[from..]))
  }

  // The stamped lines of a log that names no modules and no QML files.
  const PLAIN := Patterns(Head, (l: string) => None, (l: string) => None, (s: string) => None)

  const STAMP := "2026-10-15T11:45:23Z [INFO] "

  lemma StampHead(c: char)
    ensures Head(STAMP + [c]) == Some((STAMP[..20], "INFO", [c]))
  {
    var line := STAMP + [c];
    StampShaped(c);
    hide Shaped, Head;
    assert line[19..][0] == 'Z' && line[19..][1] == ' ' && line[19..][2] == '[';
    InfoAt(line[22..]);
    assert line[22..26] == "INFO" && Upper("INFO") == "INFO";
    assert line[28..] == [c] && line[..20] == STAMP[..20];
    HeadOf(line);
  }

  lemma HeadOf(line: string)
    requires Shaped(line) && |line| == 29 && line[19] == 'Z' && line[20] == ' ' && line[21] == '['
    requires WordAt(line[22..]) == 4 && line[26] == ']' && line[27] == ' '
    ensures Head(line) == Some((line[..20], Upper(line[22..26]), line[28..]))
  {
    hide Shaped, WordAt, Upper;
    assert Fraction(line[19..]) == 0;
    assert line[19..][..3] == "Z [";
  }

  lemma StampShaped(c: char)
    ensures Shaped(STAMP + [c])
  {
  }

  lemma InfoAt(s: string)
    requires |s| >= 5 && s[0] == 'I' && s[1] == 'N' && s[2] == 'F' && s[3] == 'O' && s[4] == ']'
    ensures WordAt(s) == 4
  {
    assert s[1..][1..] == s[2..] && s[2..][1..] == s[3..] && s[3..][1..] == s[4..];
    assert WordAt(s[4..]) == 0;
    assert WordAt(s[3..]) == 1;
    assert WordAt(s[2..]) == 2;
    assert WordAt(s[1..]) == 3;
  }

  lemma StampedLine(c: char)
    requires c != '\n' && c != '\r'
    ensures EntryLine(PLAIN, STAMP + [c])
  {
    StampHead(c);
    var line := STAMP + [c];
    hide Head;
    assert line[0] == '2' && line[|line| - 1] == c;
    assert '\n' !in STAMP;
    assert !(OPENED <= [c]) && [c][1..] == "" && !(OPENED <= "");
    assert !Contains("", OPENED);
  }

  // Such a pair of lines: two with a stamp, a level and a letter.
  lemma SecondLineTwice() returns (looks: seq<Look>)
    ensures Grows(0, [], looks) && looks != [] && !NoneBetween(looks)
    ensures |PollAll(PLAIN, Follower(EMPTY, 0), looks).log.entries| == 3
    ensures |Parse(PLAIN, EMPTY, FromUtf8(looks[|looks| - 1].content)).entries| == 2
  {
    hide *;
    StampedLine('a');
    StampedLine('b');
    looks := AppendedLineTwice(PLAIN, STAMP + ['a'], STAMP + ['b']);
  }

  // ---- A character cut in two ----

  lemma OnlyPartial(ps: Patterns, text: string)
    requires '\n' !in text
    ensures Parse(ps, EMPTY, text).partial == text
  {
    assert "" + text == text;
  }

  // A line that goes on with an e with an acute accent, of which the first look
  // sees one byte: two broken characters stand in the log for the one in the file.
  lemma CharacterCut(ps: Patterns, line: string)
    requires '\n' !in line && (line != "" ==> line[0] != MARK_CHAR)
    ensures var front, both := TextBytes(line) + [0xC3], TextBytes(line + "\U{00E9}");
            var looks := [Look(|front|, front), Look(|both|, both)];
            && Grows(0, [], looks) && NoneBetween(looks) && Pieces(0, looks) == [front, [0xA9]]
            && !BeginAnew([front, [0xA9]])
            && PollAll(ps, Follower(EMPTY, 0), looks).log.partial == line + ([BROKEN] + [BROKEN])
            && Parse(ps, EMPTY, FromUtf8(both)).partial == line + "\U{00E9}"
  {
    var front, accent := TextBytes(line) + [0xC3], line + "\U{00E9}";
    var looks := [Look(|front|, front), Look(|TextBytes(accent)|, TextBytes(accent))];
    AccentAfter(line);
    CutPieces(front, [0xA9]);
    GoesOn(front);
    PollsReadThePieces(ps, looks);
    TwoTexts(front, [0xA9]);
    OnlyPartial(ps, accent);
    OnlyPartial(ps, line + ([BROKEN] + [BROKEN]));
    hide *;
    Regroup(line, [BROKEN], [BROKEN]);
  }

  lemma GoesOn(front: Bytes)
    requires front != []
    ensures !BeginAnew([front, [0xA9]])
  {
    assert [front, [0xA9]][1] == [0xA9];
  }

  lemma AccentAfter(line: string)
    requires line != "" ==> line[0] != MARK_CHAR
    ensures TextBytes(line + "\U{00E9}") == (TextBytes(line) + [0xC3]) + [0xA9]
    ensures FromUtf8(TextBytes(line + "\U{00E9}")) == line + "\U{00E9}"
    ensures FromUtf8(TextBytes(line) + [0xC3]) == line + [BROKEN] && FromUtf8([0xA9]) == [BROKEN]
  {
    AccentCut();
    TextBytesAdd(line, "\U{00E9}");
    assert TextBytes(line) + [0xC3, 0xA9] == (TextBytes(line) + [0xC3]) + [0xA9];
    LineBack(line + "\U{00E9}");
    BrokenAfter(line, [0xC3]);
    assert Decode([0xC3]) == [BROKEN] && FromUtf8([0xA9]) == [BROKEN];
  }

  lemma CutPieces(front: Bytes, back: Bytes)
    requires front != [] && back != []
    ensures var looks := [Look(|front|, front), Look(|front + back|, front + back)];
            Grows(0, [], looks) && NoneBetween(looks) && Pieces(0, looks) == [front, back]
  {
    var looks := [Look(|front|, front), Look(|front + back|, front + back)];
    assert looks[1..] == [looks[1]] && looks[1..][1..] == [];
    assert front[0..] == front && (front + back)[|front|..] == back;
    assert Grows(|front|, front, looks[1..]);
  }
}

module LogParser {
  import opened Common
  import opened LogParserSpec
  import opened Utf8

  // QString::lastIndexOf and QString::split, for the line feed.
  function LastBreak(text: string): (k: int)
    ensures -1 <= k < |text|
    ensures k == -1 <==> '\n' !in text
    ensures k >= 0 ==> text[k] == '\n' && '\n' !in text[k + 1..]
  {
    if text == "" then -1
    else if text[|text| - 1] == '\n' then |text| - 1
    else
      assert text == text[..|text| - 1] + [text[|text| - 1]];
      LastBreak(text[..|text| - 1])
  }

  function Split(text: string): seq<string> {
    if '\n' !in text then [text] else [text[..Break(text)]] + Split(text[Break(text) + 1..])
  }

  lemma BreakOfLine(line: string, rest: string)
    requires '\n' !in line
    ensures Break(line + "\n" + rest) == |line|
  {
    if line != "" {
      assert (line + "\n" + rest)[1..] == line[1..] + "\n" + rest;
      BreakOfLine(line[1..], rest);
    }
  }

  // Splitting what comes before the last line feed gives the ended lines.
  lemma {:induction false} SplitIsLines(text: string, tail: string)
    requires '\n' !in tail
    ensures Lines(text + "\n" + tail) == Split(text) && Tail(text + "\n" + tail) == tail
    decreases |text|
  {
    var whole := text + "\n" + tail;
    assert whole[|text|] == '\n';
    if '\n' in text {
      var k := Break(text);
      BreakInFront(text, "\n" + tail);
      assert whole == text + ("\n" + tail);
      assert text[k + 1..] + ("\n" + tail) == text[k + 1..] + "\n" + tail;
      SplitIsLines(text[k + 1..], tail);
    } else {
      BreakOfLine(text, tail);
      assert whole[|text| + 1..] == tail && whole[..|text|] == text;
    }
  }

  class QmlLogBridge {
    const ps: Patterns
    var partial: string
    var entries: seq<Entry>
    var sessionLine: string
    var lastSize: nat

    ghost function State(): Log
      reads this
    {
      Log(partial, entries, sessionLine)
    }

    constructor (ps: Patterns)
      ensures this.ps == ps && State() == EMPTY && lastSize == 0
    {
      this.ps := ps;
      partial, entries, sessionLine, lastSize := "", [], "", 0;
    }

    method Parse(chunk: string)
      modifies this
      ensures State() == LogParserSpec.Parse(ps, old(State()), chunk) && lastSize == old(lastSize)
    {
      hide Fold, Lines, Tail, Break, Split, Contains;
      var text := partial + chunk;
      var end := LastBreak(text);
      partial := text[end + 1..];
      if end < 0 {
        return;
      }
      SplitIsLines(text[..end], text[end + 1..]);
      assert text == text[..end] + "\n" + text[end + 1..];
      var lines := Split(text[..end]);
      ghost var all := Fold(ps, State(), lines);
      FoldPartial(ps, old(State()), partial, lines);
      assert lines[0..] == lines;
      for i := 0 to |lines|
        invariant Fold(ps, State(), lines[i..]) == all && partial == text[end + 1..] && lastSize == old(lastSize)
      {
        FoldNext(ps, State(), lines, i);
        TakesLine(lines[i]);
      }
      FoldNone(ps, State());
      assert lines[|lines|..] == [];
      if |entries| > CAP {
        entries := entries[|entries| - CAP..];
      }
    }

    static lemma FoldNext(ps: Patterns, g: Log, lines: seq<string>, i: nat)
      requires i < |lines|
      ensures Fold(ps, g, lines[i..]) == Fold(ps, Step(ps, g, lines[i]), lines[i + 1..])
    {
      assert lines[i..][1..] == lines[i + 1..];
    }

    static lemma FoldNone(ps: Patterns, g: Log)
      ensures Fold(ps, g, []) == g
    {
    }

    // The body of the loop over the lines.
    method TakesLine(whole: string)
      modifies this
      ensures State() == Step(ps, old(State()), whole) && lastSize == old(lastSize)
    {
      var line := Chop(whole);
      if line == "" {
        return;
      }
      var m := ps.head(line);
      if m.None? {
        if entries != [] {
          var last := entries[|entries| - 1];
          entries := entries[|entries| - 1 := last.(msg := last.msg + "\n" + line, raw := last.raw + "\n" + line)];
        }
        return;
      }
      var (stamp, word, rest) := m.value;
      if Contains(rest, OPENED) {
        entries := [];
        sessionLine := "";
      }
      var mod := "";
      var tag := ps.tag(rest);
      if tag.Some? {
        mod, rest := tag.value.0, tag.value.1;
      }
      var path := ps.qmlPath(rest);
      if path.Some? {
        mod, rest := "qml", Located(path.value);
      }
      if mod == "qml" {
        var again := ps.qmlPath(rest);
        if again.Some? {
          rest := Located(again.value);
        }
      }
      var e := Entry(TimeOf(ps, stamp), LevelOf(word), mod, rest, line);
      if e.mod == "versions" && sessionLine == "" {
        sessionLine := e.time[..Min(5, |e.time|)] + "\t" + rest;
      }
      entries := entries + [e];
    }

    // `size` is what the file said, `content` what it had when it was read.
    method Poll(size: nat, content: Bytes)
      modifies this
      ensures Follower(State(), lastSize)
              == LogParserSpec.Poll(ps, Follower(old(State()), old(lastSize)), Look(size, content))
    {
      hide LogParserSpec.Parse;
      if size == lastSize {
        return;
      }
      if size < lastSize {
        lastSize, entries, partial := 0, [], "";
      }
      var chunk := FromUtf8(content[Min(lastSize, |content|)..]);
      lastSize := size;
      Parse(chunk);
    }
  }
}
