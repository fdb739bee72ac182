// What an entry of the log says: when, how bad, from where and what, taken from
// its first line, with the lines that continue it put behind.
// Source: src/bridges/qmllogbridge.cpp.
module LogEntries {
  import opened Common
  import opened LogParserSpec

  // The level is 3 for errors, 2 for warnings, 1 for information and 0 for the rest.
  predicate LevelIs(word: string, level: int) {
    && (level == 3 <==> word == "ERROR" || word == "CRITICAL" || word == "FATAL")
    && (level == 2 <==> |word| >= 4 && word[..4] == "WARN")
    && (level == 1 <==> word == "INFO")
    && 0 <= level <= 3
  }

  // The local time if the stamp is one, else the clock digits in it.
  predicate TimeIs(ps: Patterns, stamp: string, time: string) {
    match ps.clock(stamp)
    case Some(local) => time == local
    case None => if |stamp| >= 19 then time == stamp[11..19] else |stamp| >= 11 ==> time == stamp[11..]
  }

  // A QML warning in the text is put as file, line and text.
  function Put(ps: Patterns, text: string): string {
    match ps.qmlPath(text)
    case Some((file, at, what)) => file + at + " \U{2014} " + what
    case None => text
  }

  // The module is the one in brackets, or qml for a QML warning; the message is
  // what follows, a QML warning put short, also one inside another.
  predicate SaysIs(ps: Patterns, text: string, mod: string, msg: string) {
    var rest := if ps.tag(text).Some? then ps.tag(text).value.1 else text;
    && mod == (if ps.qmlPath(rest).Some? then "qml" else if ps.tag(text).Some? then ps.tag(text).value.0 else "")
    && msg == if mod == "qml" then Put(ps, Put(ps, rest)) else rest
  }

  // The entry a stamped line makes.
  predicate Tells(ps: Patterns, l: string, e: Entry) {
    ps.head(l).Some?
    && var (stamp, word, text) := ps.head(l).value;
       e.raw == l && TimeIs(ps, stamp, e.time) && LevelIs(word, e.level) && SaysIs(ps, text, e.mod, e.msg)
  }

  // An entry with the lines that continue its first.
  predicate Continued(ps: Patterns, e: Entry, first: Entry, tail: string) {
    Tells(ps, first.raw, first) && (tail == "" || tail[0] == '\n')
    && e == first.(msg := first.msg + tail, raw := first.raw + tail)
  }

  ghost predicate EntryOk(ps: Patterns, e: Entry) { exists first, tail :: Continued(ps, e, first, tail) }

  // The session line is made from the first entry of the module "versions".
  predicate SessionFrom(first: Entry, session: string) {
    session == first.time[..Min(5, |first.time|)] + "\t" + first.msg
  }

  ghost predicate SessionOk(ps: Patterns, entries: seq<Entry>, session: string) {
    if session == "" then forall k :: 0 <= k < |entries| ==> entries[k].mod != "versions"
    else exists k, first, tail :: FirstVersion(ps, entries, session, k, first, tail)
  }

  predicate FirstVersion(ps: Patterns, entries: seq<Entry>, session: string, k: int, first: Entry, tail: string) {
    && 0 <= k < |entries| && entries[k].mod == "versions" && (forall j :: 0 <= j < k ==> entries[j].mod != "versions")
    && Continued(ps, entries[k], first, tail) && SessionFrom(first, session)
  }

  ghost predicate LogOk(ps: Patterns, g: Log) {
    (forall k :: 0 <= k < |g.entries| ==> EntryOk(ps, g.entries[k])) && SessionOk(ps, g.entries, g.session)
  }

  // A text holds another where it goes on with it somewhere.
  lemma {:induction false} HoldsExactly(s: string, part: string)
    ensures Contains(s, part) <==> exists i: nat :: i <= |s| && part <= s[i..]
  {
    assert s[0..] == s;
    if s != "" {
      HoldsExactly(s[1..], part);
      assert forall i: nat :: i < |s| ==> s[1..][i..] == s[i + 1..];
      if exists i: nat :: i <= |s| && part <= s[i..] {
        var i: nat :| i <= |s| && part <= s[i..];
        assert i > 0 ==> s[1..][i - 1..] == s[i..];
      }
    }
  }

  // A line is the same with a carriage return at its end, and an empty one is none.
  lemma ReturnsAside(ps: Patterns, g: Log, line: string)
    requires line == "" || line[|line| - 1] != '\r'
    ensures Step(ps, g, line + "\r") == Step(ps, g, line) && (line == "" ==> Step(ps, g, line) == g)
  {
    assert Chop(line + "\r") == line == Chop(line);
    hide Chop, EntryOf, Contains;
  }

  // Unstamped lines are put behind the last entry, or dropped if there is none; a
  // stamped one makes an entry, which stands alone if it opens the log.
  lemma LineGoes(ps: Patterns, g: Log, line: string)
    requires line != "" && line[|line| - 1] != '\r'
    ensures var h, n := Step(ps, g, line), |g.entries|;
            if ps.head(line).None? then
              if n == 0 then h == g
              else h.entries[..n - 1] == g.entries[..n - 1] && |h.entries| == n && h.session == g.session
                   && h.entries[n - 1].raw == g.entries[n - 1].raw + "\n" + line
                   && h.entries[n - 1].msg == g.entries[n - 1].msg + "\n" + line
            else if exists i: nat :: i <= |ps.head(line).value.2| && OPENED <= ps.head(line).value.2[i..] then
              |h.entries| == 1 && h.entries[0].raw == line
            else |h.entries| == n + 1 && h.entries[..n] == g.entries && h.entries[n].raw == line
  {
    if ps.head(line).Some? {
      HoldsExactly(ps.head(line).value.2, OPENED);
    }
    hide Contains;
  }

  lemma EntryTells(ps: Patterns, l: string)
    requires ps.head(l).Some?
    ensures var (stamp, word, text) := ps.head(l).value; Tells(ps, l, EntryOf(ps, l, stamp, word, text))
  {
    var (stamp, word, text) := ps.head(l).value;
    LevelSaid(word);
  }

  lemma LevelSaid(word: string)
    ensures LevelIs(word, LevelOf(word))
  {
    if "WARN" <= word {
      assert word[0] == 'W';
    }
    assert "ERROR"[0] == 'E' && "CRITICAL"[0] == 'C' && "FATAL"[0] == 'F' && "INFO"[0] == 'I';
    assert |word| >= 4 ==> (word[..4] == "WARN" <==> "WARN" <= word);
  }

  // A new entry goes last, or, if it opens the log, alone.
  lemma NewEntryOk(ps: Patterns, g: Log, l: string, opens: bool)
    requires LogOk(ps, g) && ps.head(l).Some?
    ensures var (stamp, word, text) := ps.head(l).value; var e := EntryOf(ps, l, stamp, word, text);
            var session := if opens then "" else g.session; var entries := (if opens then [] else g.entries) + [e];
            LogOk(ps, Log(g.partial, entries,
                          if e.mod == "versions" && session == "" then e.time[..Min(5, |e.time|)] + "\t" + e.msg else session))
  {
    var (stamp, word, text) := ps.head(l).value;
    var e := EntryOf(ps, l, stamp, word, text);
    EntryTells(ps, l);
    hide EntryOf, Tells;
    assert e.msg + "" == e.msg && e.raw + "" == e.raw;
    assert Continued(ps, e, e, "");
    EntryAdded(ps, if opens then [] else g.entries, if opens then "" else g.session, e);
  }

  lemma EntryAdded(ps: Patterns, before: seq<Entry>, session: string, e: Entry)
    requires (forall k :: 0 <= k < |before| ==> EntryOk(ps, before[k])) && SessionOk(ps, before, session)
    requires Continued(ps, e, e, "")
    ensures var entries := before + [e];
            && (forall k :: 0 <= k < |entries| ==> EntryOk(ps, entries[k]))
            && SessionOk(ps, entries, if e.mod == "versions" && session == "" then e.time[..Min(5, |e.time|)] + "\t" + e.msg
                                      else session)
  {
    hide Tells;
    var entries := before + [e];
    assert EntryOk(ps, e);
    hide EntryOk;
    if e.mod == "versions" && session == "" {
      assert FirstVersion(ps, entries, e.time[..Min(5, |e.time|)] + "\t" + e.msg, |before|, e, "");
    } else if session != "" {
      var k, first, tail :| FirstVersion(ps, before, session, k, first, tail);
      assert FirstVersion(ps, entries, session, k, first, tail);
    }
  }

  lemma ContinuedOk(ps: Patterns, g: Log, l: string)
    requires LogOk(ps, g) && g.entries != []
    ensures var last := g.entries[|g.entries| - 1];
            LogOk(ps, g.(entries := g.entries[|g.entries| - 1 := last.(msg := last.msg + "\n" + l, raw := last.raw + "\n" + l)]))
  {
    var n := |g.entries| - 1;
    var last := g.entries[n];
    var longer := last.(msg := last.msg + "\n" + l, raw := last.raw + "\n" + l);
    var entries := g.entries[n := longer];
    var first, tail :| Continued(ps, last, first, tail);
    GoesOn(ps, last, first, tail, l);
    hide Tells;
    if g.session != "" {
      var k, f, t :| FirstVersion(ps, g.entries, g.session, k, f, t);
      if k == n {
        GoesOn(ps, last, f, t, l);
        assert FirstVersion(ps, entries, g.session, k, f, t + "\n" + l);
      } else {
        assert FirstVersion(ps, entries, g.session, k, f, t);
      }
    }
  }

  lemma GoesOn(ps: Patterns, e: Entry, first: Entry, tail: string, l: string)
    requires Continued(ps, e, first, tail)
    ensures Continued(ps, e.(msg := e.msg + "\n" + l, raw := e.raw + "\n" + l), first, tail + "\n" + l)
  {
    hide Tells;
    assert (first.msg + tail) + "\n" + l == first.msg + (tail + "\n" + l);
    assert (first.raw + tail) + "\n" + l == first.raw + (tail + "\n" + l);
  }

  lemma StepOk(ps: Patterns, g: Log, line: string)
    requires LogOk(ps, g)
    ensures LogOk(ps, Step(ps, g, line))
  {
    var l := Chop(line);
    hide EntryOf, Contains, LogOk;
    if l != "" {
      if ps.head(l).Some? {
        NewEntryOk(ps, g, l, Contains(ps.head(l).value.2, OPENED));
      } else if g.entries != [] {
        ContinuedOk(ps, g, l);
      }
    }
  }

  // Every entry of a log says what its first line says, and the session line is
  // the running session's.
  lemma {:induction false} EntriesTell(ps: Patterns, g: Log, lines: seq<string>)
    requires LogOk(ps, g)
    ensures LogOk(ps, Fold(ps, g, lines))
    decreases |lines|
  {
    if lines != [] {
      StepOk(ps, g, lines[0]);
      hide Step, LogOk;
      EntriesTell(ps, Step(ps, g, lines[0]), lines[1..]);
    }
  }

  lemma EmptyOk(ps: Patterns)
    ensures LogOk(ps, EMPTY)
  {
  }

  // In the parser's own terms: of the entries of the whole text the latest 20000
  // are kept, or all if there are fewer, and each says what its first line says.
  lemma ParsedEntriesTell(ps: Patterns, text: string)
    ensures var all, kept := Fold(ps, EMPTY, Lines(text)).entries, Parse(ps, EMPTY, text).entries;
            && kept == all[Max(0, |all| - 20000)..]
            && forall k :: 0 <= k < |kept| ==> EntryOk(ps, kept[k])
  {
    EmptyOk(ps);
    EntriesTell(ps, EMPTY, Lines(text));
    ParsedAnew(ps, "", text);
    hide Parse, Fold, EntryOk, SessionOk, Lines, Tail;
  }
}
