// Torrents of one show, or of one film collection, share a row of the library;
// and how rows and the torrents on them are ordered.
// Source: src/bridges/librarygroups.cpp, src/bridges/librarygroups.h.
module LibraryGroupsSpec {
  import opened Common

  // `name` is the torrent's name with its case folded, character by character,
  // which is all the case-insensitive comparison looks at.
  datatype Member = Member(tmdbId: int, nameKey: string, season: int, episode: int,
                           collectionId: int, year: int, name: string)

  datatype Row = Row(groupKey: string, members: seq<int>, group: bool, child: bool)

  // QString::number of a number that is not negative.
  function Number(n: nat): (s: string)
    ensures s != [] && forall c :: c in s ==> '0' <= c <= '9'
  {
    if n < 10 then ['0' + n as char] else Number(n / 10) + ['0' + (n % 10) as char]
  }

  // The number a run of digits stands for.
  function Value(s: string): int {
    if s == [] then 0 else 10 * Value(s[..|s| - 1]) + (s[|s| - 1] as int - '0' as int)
  }

  lemma {:induction false} NumberReadsBack(n: nat)
    ensures Value(Number(n)) == n
  {
    if n >= 10 {
      NumberReadsBack(n / 10);
      assert Number(n)[..|Number(n)| - 1] == Number(n / 10);
    }
  }

  // ---- Keys ----

  // The show the first resolved member with this name belongs to, 0 for none.
  function ResolvedId(members: seq<Member>, name: string): int {
    if members == [] then 0
    else if members[0].tmdbId > 0 && members[0].nameKey == name then members[0].tmdbId
    else ResolvedId(members[1..], name)
  }

  // The show a torrent is of: its own, or the one its name is tied to.
  function ShowOf(members: seq<Member>, m: Member): int {
    if m.tmdbId <= 0 && m.nameKey != "" then ResolvedId(members, m.nameKey) else m.tmdbId
  }

  function KeyOf(members: seq<Member>, m: Member): string {
    var id := ShowOf(members, m);
    if id > 0 then "tmdb:" + Number(id)
    else if m.nameKey != "" then "name:" + m.nameKey
    else if m.collectionId > 0 then "col:" + Number(m.collectionId)
    else ""
  }

  function Keys(members: seq<Member>): (k: seq<string>)
    ensures |k| == |members| && forall i :: 0 <= i < |k| ==> k[i] == KeyOf(members, members[i])
  {
    seq(|members|, i requires 0 <= i < |members| => KeyOf(members, members[i]))
  }

  // One show; or no show and one name; or neither and one collection.
  predicate Together(members: seq<Member>, x: Member, y: Member) {
    var a, b := ShowOf(members, x), ShowOf(members, y);
    if a > 0 || b > 0 then a == b
    else if x.nameKey != "" || y.nameKey != "" then x.nameKey == y.nameKey
    else x.collectionId > 0 && x.collectionId == y.collectionId
  }

  // A shared key says exactly that: no show, name or collection can be taken
  // for another by its text.
  lemma SharedKey(members: seq<Member>, x: Member, y: Member)
    ensures KeyOf(members, x) != "" && KeyOf(members, x) == KeyOf(members, y) <==> Together(members, x, y)
  {
    var a, b := ShowOf(members, x), ShowOf(members, y);
    SameNumber(if a > 0 then a else 0, if b > 0 then b else 0);
    SameNumber(if x.collectionId > 0 then x.collectionId else 0, if y.collectionId > 0 then y.collectionId else 0);
    hide Number, ShowOf;
    SameTail("tmdb:", if a > 0 then Number(a) else "", if b > 0 then Number(b) else "");
    SameTail("name:", x.nameKey, y.nameKey);
    SameTail("col:", if x.collectionId > 0 then Number(x.collectionId) else "",
        if y.collectionId > 0 then Number(y.collectionId) else "");
    FirstLetter(members, x);
    FirstLetter(members, y);
  }

  lemma SameNumber(a: nat, b: nat)
    ensures Number(a) == Number(b) <==> a == b
  {
    NumberReadsBack(a);
    NumberReadsBack(b);
  }

  lemma SameTail(front: string, a: string, b: string)
    ensures front + a == front + b <==> a == b
  {
    assert (front + a)[|front|..] == a && (front + b)[|front|..] == b;
  }

  // The kinds of key differ in their first letter.
  lemma FirstLetter(members: seq<Member>, m: Member)
    ensures var key := KeyOf(members, m);
            if ShowOf(members, m) > 0 then key != "" && key[0] == 't'
            else if m.nameKey != "" then key != "" && key[0] == 'n'
            else if m.collectionId > 0 then key != "" && key[0] == 'c'
            else key == ""
  {
    hide Number, ShowOf;
  }

  // A name some torrent's show is known by is tied to a show: every other
  // torrent of that name goes with the first of them.
  lemma {:induction false} NamedAlike(members: seq<Member>, name: string)
    ensures (exists i :: 0 <= i < |members| && members[i].tmdbId > 0 && members[i].nameKey == name)
            <==> ResolvedId(members, name) > 0
  {
    if members != [] {
      NamedAlike(members[1..], name);
      if ResolvedId(members[1..], name) > 0 {
        var i :| 0 <= i < |members[1..]| && members[1..][i].tmdbId > 0 && members[1..][i].nameKey == name;
        assert members[i + 1] == members[1..][i];
      }
      forall i | 0 < i < |members| && members[i].tmdbId > 0 && members[i].nameKey == name
        ensures ResolvedId(members[1..], name) > 0
      {
        assert members[1..][i - 1] == members[i];
      }
    }
  }

  // ---- The order inside a group ----

  // QString::compare on folded names: negative, zero or positive.
  function CompareNames(a: string, b: string): int {
    if a == [] then (if b == [] then 0 else -1)
    else if b == [] then 1
    else if a[0] != b[0] then (if a[0] < b[0] then -1 else 1)
    else CompareNames(a[1..], b[1..])
  }

  predicate Less(x: Member, y: Member) {
    if x.season != y.season then x.season < y.season
    else if x.episode != y.episode then x.episode < y.episode
    else if x.year != y.year then x.year < y.year
    else CompareNames(x.name, y.name) < 0
  }

  // Where stable_sort puts a before b when both are in its input, in index order.
  predicate Before(members: seq<Member>, a: int, b: int)
    requires 0 <= a < |members| && 0 <= b < |members|
  {
    Less(members[a], members[b]) || (!Less(members[b], members[a]) && a < b)
  }

  lemma {:induction false} CompareFlips(a: string, b: string)
    ensures CompareNames(a, b) == -CompareNames(b, a)
  {
    if a != [] && b != [] {
      CompareFlips(a[1..], b[1..]);
    }
  }

  lemma {:induction false} CompareTransitive(a: string, b: string, c: string)
    requires CompareNames(a, b) <= 0 && CompareNames(b, c) <= 0
    ensures CompareNames(a, c) <= 0
    ensures CompareNames(a, c) == 0 ==> CompareNames(a, b) == 0 && CompareNames(b, c) == 0
  {
    if a != [] && b != [] && c != [] && a[0] == b[0] == c[0] {
      CompareTransitive(a[1..], b[1..], c[1..]);
    }
  }

  lemma BeforeTransitive(members: seq<Member>, a: int, b: int, c: int)
    requires 0 <= a < |members| && 0 <= b < |members| && 0 <= c < |members|
    requires Before(members, a, b) && Before(members, b, c)
    ensures Before(members, a, c)
  {
    var x, y, z := members[a], members[b], members[c];
    CompareFlips(x.name, y.name);
    CompareFlips(y.name, z.name);
    CompareFlips(x.name, z.name);
    if CompareNames(x.name, y.name) <= 0 && CompareNames(y.name, z.name) <= 0 {
      CompareTransitive(x.name, y.name, z.name);
    }
  }

  lemma BeforeTotal(members: seq<Member>, a: int, b: int)
    requires 0 <= a < |members| && 0 <= b < |members| && a != b
    ensures Before(members, a, b) <==> !Before(members, b, a)
  {
    CompareFlips(members[a].name, members[b].name);
  }

  predicate InRange(members: seq<Member>, s: seq<int>) {
    forall i :: 0 <= i < |s| ==> 0 <= s[i] < |members|
  }

  predicate Sorted(members: seq<Member>, s: seq<int>)
    requires InRange(members, s)
  {
    forall i, j :: 0 <= i < j < |s| ==> Before(members, s[i], s[j])
  }

  // Puts x behind everything it is not less than.
  function Insert(members: seq<Member>, s: seq<int>, x: int): (r: seq<int>)
    requires InRange(members, s) && 0 <= x < |members|
    ensures InRange(members, r) && multiset(r) == multiset(s) + multiset{x}
  {
    if s == [] then [x]
    else if Less(members[x], members[s[0]]) then [x] + s
    else
      assert s == [s[0]] + s[1..];
      [s[0]] + Insert(members, s[1..], x)
  }

  // std::stable_sort with the group's comparison.
  function StableSort(members: seq<Member>, s: seq<int>): (r: seq<int>)
    requires InRange(members, s)
    ensures InRange(members, r) && multiset(r) == multiset(s)
  {
    if s == [] then []
    else
      assert s == s[..|s| - 1] + [s[|s| - 1]];
      Insert(members, StableSort(members, s[..|s| - 1]), s[|s| - 1])
  }

  lemma {:induction false} InsertSorts(members: seq<Member>, s: seq<int>, x: int)
    requires InRange(members, s) && 0 <= x < |members| && Sorted(members, s) && forall y :: y in s ==> y < x
    ensures Sorted(members, Insert(members, s, x))
  {
    if s != [] {
      var r := Insert(members, s, x);
      if Less(members[x], members[s[0]]) {
        assert r == [x] + s;
        forall j | 1 <= j < |r| ensures Before(members, x, r[j]) {
          if j > 1 {
            BeforeTransitive(members, x, s[0], s[j - 1]);
          }
        }
      } else {
        assert s[0] in s && forall y :: y in s[1..] ==> y in s;
        InsertSorts(members, s[1..], x);
        var t := Insert(members, s[1..], x);
        forall j | 0 <= j < |t| ensures Before(members, s[0], t[j]) {
          assert t[j] in multiset(t);
          assert t[j] == x || t[j] in multiset(s[1..]);
          if t[j] in s[1..] {
            var i :| 0 <= i < |s[1..]| && s[1..][i] == t[j];
            assert Before(members, s[0], s[i + 1]);
          }
        }
      }
    }
  }

  // Sorting a list of ascending indices gives the one strictly ordered list
  // with the same members.
  lemma {:induction false} StableSortSorts(members: seq<Member>, s: seq<int>)
    requires InRange(members, s) && forall i, j :: 0 <= i < j < |s| ==> s[i] < s[j]
    ensures Sorted(members, StableSort(members, s))
  {
    if s != [] {
      var front := s[..|s| - 1];
      StableSortSorts(members, front);
      forall y | y in StableSort(members, front) ensures y < s[|s| - 1] {
        assert y in multiset(StableSort(members, front));
        assert y in front;
      }
      InsertSorts(members, StableSort(members, front), s[|s| - 1]);
    }
  }

  // ---- The layout ----

  // The indices before n whose key is `key`, in order.
  function Indices(k: seq<string>, key: string, n: nat): (r: seq<int>)
    requires n <= |k|
    ensures forall x :: x in r <==> 0 <= x < n && k[x] == key
    ensures forall i, j :: 0 <= i < j < |r| ==> r[i] < r[j]
    ensures forall i :: 0 <= i < |r| ==> 0 <= r[i] < n && k[r[i]] == key
  {
    if n == 0 then []
    else if k[n - 1] == key then Indices(k, key, n - 1) + [n - 1]
    else Indices(k, key, n - 1)
  }

  // A torrent that is alone on its row: no key, or nobody shares it.
  predicate Lone(k: seq<string>, i: nat)
    requires i < |k|
  {
    k[i] == "" || |Indices(k, k[i], |k|)| < 2
  }

  // The row position a torrent's row or group stands at: its own index, or
  // its group's first member.
  function Home(k: seq<string>, i: nat): nat
    requires i < |k|
  {
    if Lone(k, i) then i else First(k, i)
  }

  function First(k: seq<string>, i: nat): nat
    requires i < |k|
  {
    var all := Indices(k, k[i], |k|);
    assert i in all;
    all[0]
  }

  lemma FirstIsFirst(k: seq<string>, i: nat)
    requires i < |k|
    ensures First(k, i) <= i && k[First(k, i)] == k[i]
    ensures forall j :: 0 <= j < |k| && k[j] == k[i] ==> First(k, i) <= j
  {
    var all := Indices(k, k[i], |k|);
    forall j | 0 <= j < |k| && k[j] == k[i] ensures all[0] <= j {
      assert j in all;
      var p :| 0 <= p < |all| && all[p] == j;
    }
  }

  function Group(members: seq<Member>, k: seq<string>, key: string): seq<int>
    requires |k| == |members|
  {
    StableSort(members, Indices(k, key, |k|))
  }

  lemma GroupIs(members: seq<Member>, k: seq<string>, key: string)
    requires |k| == |members|
    ensures var g := Group(members, k, key); var all := Indices(k, key, |k|);
            InRange(members, g) && multiset(g) == multiset(all) && |g| == |all|
  {
    var g := Group(members, k, key);
    assert |multiset(g)| == |g|;
  }

  function Children(key: string, g: seq<int>): (r: seq<Row>)
    ensures |r| == |g| && forall i :: 0 <= i < |g| ==> r[i] == Row(key, [g[i]], false, true)
  {
    seq(|g|, i requires 0 <= i < |g| => Row(key, [g[i]], false, true))
  }

  // A group's header, and its episodes when it is open.
  function GroupRows(key: string, g: seq<int>, open: bool): seq<Row> {
    [Row(key, g, true, false)] + if open then Children(key, g) else []
  }

  // The rows that stand at position i of the current order.
  function RowsAt(members: seq<Member>, k: seq<string>, expanded: set<string>, i: nat): seq<Row>
    requires |k| == |members| && i < |k|
  {
    if Lone(k, i) then [Row("", [i], false, false)]
    else if Home(k, i) != i then []
    else
      GroupRows(k[i], Group(members, k, k[i]), k[i] in expanded)
  }

  function LayoutUpTo(members: seq<Member>, k: seq<string>, expanded: set<string>, n: nat): seq<Row>
    requires |k| == |members| && n <= |k|
  {
    if n == 0 then [] else LayoutUpTo(members, k, expanded, n - 1) + RowsAt(members, k, expanded, n - 1)
  }

  function Layout(members: seq<Member>, expanded: set<string>): seq<Row> {
    LayoutUpTo(members, Keys(members), expanded, |members|)
  }

  // ---- What a layout is ----

  // The rows that are not episodes under an open group.
  function Tops(rows: seq<Row>): seq<Row> {
    if rows == [] then [] else (if rows[0].child then [] else [rows[0]]) + Tops(rows[1..])
  }

  // Every member the top rows stand for, in order.
  function Shown(rows: seq<Row>): seq<int> {
    if rows == [] then [] else (if rows[0].child then [] else rows[0].members) + Shown(rows[1..])
  }

  // The closed list with each open group's episodes put right under it.
  function Open(rows: seq<Row>, expanded: set<string>): seq<Row> {
    if rows == [] then []
    else [rows[0]] + (if rows[0].group && rows[0].groupKey in expanded then Children(rows[0].groupKey,
        rows[0].members) else [])
         + Open(rows[1..], expanded)
  }

  lemma {:induction false} TopsAppend(a: seq<Row>, b: seq<Row>)
    ensures Tops(a + b) == Tops(a) + Tops(b)
  {
    if a == [] {
      assert a + b == b;
    } else {
      assert (a + b)[1..] == a[1..] + b;
      TopsAppend(a[1..], b);
    }
  }

  lemma {:induction false} ShownAppend(a: seq<Row>, b: seq<Row>)
    ensures Shown(a + b) == Shown(a) + Shown(b)
  {
    if a == [] {
      assert a + b == b;
    } else {
      assert (a + b)[1..] == a[1..] + b;
      ShownAppend(a[1..], b);
    }
  }

  lemma {:induction false} OpenAppend(a: seq<Row>, b: seq<Row>, expanded: set<string>)
    ensures Open(a + b, expanded) == Open(a, expanded) + Open(b, expanded)
  {
    if a == [] {
      assert a + b == b;
    } else {
      assert (a + b)[1..] == a[1..] + b;
      OpenAppend(a[1..], b, expanded);
    }
  }

  lemma {:induction false} ChildrenAreNoTops(rows: seq<Row>)
    requires forall r :: r in rows ==> r.child
    ensures Tops(rows) == [] && Shown(rows) == []
  {
    if rows != [] {
      assert rows[0] in rows;
      ChildrenAreNoTops(rows[1..]);
    }
  }

  lemma GroupRowsOpen(key: string, g: seq<int>, open: bool, expanded: set<string>)
    ensures Tops(GroupRows(key, g, open)) == GroupRows(key, g, false)
    ensures Shown(GroupRows(key, g, open)) == g
    ensures Open(GroupRows(key, g, false), expanded) == GroupRows(key, g, key in expanded)
  {
    var head := Row(key, g, true, false);
    var rest := if open then Children(key, g) else [];
    ChildrenAreNoTops(rest);
    TopsAppend([head], rest);
    ShownAppend([head], rest);
    assert GroupRows(key, g, false) == [head];
    assert Tops([head]) == [head] && Shown([head]) == g;
    assert Open([head][1..], expanded) == [];
  }

  lemma OpensAt(members: seq<Member>, k: seq<string>, expanded: set<string>, i: nat)
    requires |k| == |members| && i < |k|
    ensures Tops(RowsAt(members, k, expanded, i)) == RowsAt(members, k, {}, i)
    ensures Open(RowsAt(members, k, {}, i), expanded) == RowsAt(members, k, expanded, i)
  {
    hide Group, Home, Lone, GroupRows;
    if Lone(k, i) {
      assert [Row("", [i], false, false)][1..] == [];
    } else if Home(k, i) == i {
      GroupRowsOpen(k[i], Group(members, k, k[i]), k[i] in expanded, expanded);
    }
  }

  lemma ShownAt(members: seq<Member>, k: seq<string>, expanded: set<string>, i: nat)
    requires |k| == |members| && i < |k|
    ensures Shown(RowsAt(members, k, expanded, i))
            == if Lone(k, i) then [i] else if Home(k, i) != i then [] else Group(members, k, k[i])
  {
    hide Group, Home, Lone, GroupRows;
    if Lone(k, i) {
      assert [Row("", [i], false, false)][1..] == [];
    } else if Home(k, i) == i {
      GroupRowsOpen(k[i], Group(members, k, k[i]), k[i] in expanded, expanded);
    }
  }

  lemma NoRows(expanded: set<string>)
    ensures Tops([]) == [] && Open([], expanded) == [] && Shown([]) == []
  {
  }

  // An open layout is the closed one with every open group followed at once
  // by one row per member, in the header's order; and taking those rows away
  // gives the closed layout back.
  lemma {:induction false} LayoutUpToOpens(members: seq<Member>, k: seq<string>, expanded: set<string>, n: nat)
    requires |k| == |members| && n <= |k|
    ensures LayoutUpTo(members, k, expanded, n) == Open(LayoutUpTo(members, k, {}, n), expanded)
    ensures Tops(LayoutUpTo(members, k, expanded, n)) == LayoutUpTo(members, k, {}, n)
  {
    hide RowsAt, Tops, Open;
    if n == 0 {
      NoRows(expanded);
    } else {
      LayoutUpToOpens(members, k, expanded, n - 1);
      OpensAt(members, k, expanded, n - 1);
      TopsAppend(LayoutUpTo(members, k, expanded, n - 1), RowsAt(members, k, expanded, n - 1));
      OpenAppend(LayoutUpTo(members, k, {}, n - 1), RowsAt(members, k, {}, n - 1), expanded);
    }
  }

  lemma LayoutOpens(members: seq<Member>, expanded: set<string>)
    ensures Layout(members, expanded) == Open(Layout(members, {}), expanded)
    ensures Tops(Layout(members, expanded)) == Layout(members, {})
  {
    LayoutUpToOpens(members, Keys(members), expanded, |members|);
  }

  lemma {:induction false} CountDistinct(s: seq<int>, x: int)
    requires forall i, j :: 0 <= i < j < |s| ==> s[i] < s[j]
    ensures multiset(s)[x] == if x in s then 1 else 0
  {
    if s != [] {
      assert s == [s[0]] + s[1..];
      CountDistinct(s[1..], x);
    }
  }

  // The members of a group share one home; others have another.
  lemma HomeShared(k: seq<string>, i: nat, x: nat)
    requires i < |k| && x < |k|
    ensures k[x] != k[i] ==> Home(k, x) != i
    ensures k[x] == k[i] && !Lone(k, i) ==> Home(k, x) == Home(k, i)
    ensures Lone(k, i) ==> (Home(k, x) == i <==> x == i)
  {
    FirstIsFirst(k, i);
    FirstIsFirst(k, x);
    if k[x] == k[i] && Lone(k, i) && k[i] != "" {
      var all := Indices(k, k[i], |k|);
      assert x in all && i in all && |all| < 2;
    }
  }

  lemma HomeAt(members: seq<Member>, k: seq<string>, expanded: set<string>, i: nat, x: int)
    requires |k| == |members| && i < |k|
    ensures multiset(Shown(RowsAt(members, k, expanded, i)))[x]
            == if 0 <= x < |k| && Home(k, x) == i then 1 else 0
  {
    hide RowsAt, Shown, Group, Indices, First, Lone;
    ShownAt(members, k, expanded, i);
    if 0 <= x < |k| {
      HomeShared(k, i, x);
    }
    if !Lone(k, i) && Home(k, i) == i {
      GroupIs(members, k, k[i]);
      CountDistinct(Indices(k, k[i], |k|), x);
    }
  }

  lemma {:induction false} ShownUpTo(members: seq<Member>, k: seq<string>, expanded: set<string>, n: nat, x: int)
    requires |k| == |members| && n <= |k|
    ensures multiset(Shown(LayoutUpTo(members, k, expanded, n)))[x]
            == if 0 <= x < |k| && Home(k, x) < n then 1 else 0
  {
    hide RowsAt, Home, Shown;
    if n == 0 {
      NoRows(expanded);
    } else {
      ShownUpTo(members, k, expanded, n - 1, x);
      HomeAt(members, k, expanded, n - 1, x);
      var front, back := LayoutUpTo(members, k, expanded, n - 1), RowsAt(members, k, expanded, n - 1);
      assert LayoutUpTo(members, k, expanded, n) == front + back;
      hide LayoutUpTo;
      ShownCount(front, back, x);
    }
  }

  lemma ShownCount(a: seq<Row>, b: seq<Row>, x: int)
    ensures multiset(Shown(a + b))[x] == multiset(Shown(a))[x] + multiset(Shown(b))[x]
  {
    ShownAppend(a, b);
  }

  // The rows partition the torrents: every one is shown by exactly one row
  // that is not a child, and none is shown twice.
  lemma LayoutPartitions(members: seq<Member>, expanded: set<string>, x: int)
    ensures multiset(Shown(Layout(members, expanded)))[x] == if 0 <= x < |members| then 1 else 0
  {
    ShownUpTo(members, Keys(members), expanded, |members|, x);
  }

  function Smallest(s: seq<int>): (m: int)
    ensures s != [] ==> m in s && forall x :: x in s ==> m <= x
  {
    if s == [] then 0
    else if |s| == 1 then s[0]
    else
      assert s == [s[0]] + s[1..];
      Min(s[0], Smallest(s[1..]))
  }

  // What each top row is: a torrent nobody shares a key with, or all the two or
  // more torrents of one key in their stable order.
  predicate TopOk(members: seq<Member>, k: seq<string>, r: Row)
    requires |k| == |members|
  {
    && r.members != [] && InRange(members, r.members) && !r.child
    && (!r.group ==> r.groupKey == "" && |r.members| == 1 && Lone(k, r.members[0]))
    && (r.group ==> |r.members| >= 2 && r.groupKey != "" && Sorted(members, r.members)
                    && forall i :: 0 <= i < |k| ==> (i in r.members <==> k[i] == r.groupKey))
  }

  lemma GroupHas(members: seq<Member>, k: seq<string>, key: string, x: nat)
    requires |k| == |members| && x < |k|
    ensures x in Group(members, k, key) <==> k[x] == key
  {
    GroupIs(members, k, key);
    assert x in multiset(Group(members, k, key)) <==> x in multiset(Indices(k, key, |k|));
  }

  lemma GroupSmallest(members: seq<Member>, k: seq<string>, i: nat)
    requires |k| == |members| && i < |k| && First(k, i) == i
    ensures Smallest(Group(members, k, k[i])) == i
  {
    var g := Group(members, k, k[i]);
    GroupIs(members, k, k[i]);
    GroupHas(members, k, k[i], i);
    FirstIsFirst(k, i);
    hide Group;
    var m := Smallest(g);
    assert m in g;
    GroupHas(members, k, k[i], m);
  }

  lemma GroupOk(members: seq<Member>, k: seq<string>, i: nat)
    requires |k| == |members| && i < |k| && !Lone(k, i) && Home(k, i) == i
    ensures var g := Group(members, k, k[i]);
            TopOk(members, k, Row(k[i], g, true, false)) && Smallest(g) == i
  {
    StableSortSorts(members, Indices(k, k[i], |k|));
    GroupIs(members, k, k[i]);
    GroupSmallest(members, k, i);
    forall x | 0 <= x < |k| ensures x in Group(members, k, k[i]) <==> k[x] == k[i] {
      GroupHas(members, k, k[i], x);
    }
    hide StableSort, Indices, Smallest, First;
  }

  lemma TopsAtOk(members: seq<Member>, k: seq<string>, i: nat)
    requires |k| == |members| && i < |k|
    ensures var rows := RowsAt(members, k, {}, i);
            |rows| <= 1 && forall r :: r in rows ==> TopOk(members, k, r) && Smallest(r.members) == i
  {
    hide Group, TopOk;
    if Lone(k, i) {
      assert TopOk(members, k, Row("", [i], false, false)) by { LoneOk(members, k, i); }
    } else if Home(k, i) == i {
      GroupOk(members, k, i);
      assert RowsAt(members, k, {}, i) == [Row(k[i], Group(members, k, k[i]), true, false)];
    }
  }

  lemma LoneOk(members: seq<Member>, k: seq<string>, i: nat)
    requires |k| == |members| && i < |k| && Lone(k, i)
    ensures TopOk(members, k, Row("", [i], false, false))
  {
  }

  // Well-formed top rows in the order of their first torrent, all below n.
  predicate TopsOk(members: seq<Member>, k: seq<string>, rows: seq<Row>, n: nat)
    requires |k| == |members|
  {
    && (forall i :: 0 <= i < |rows| ==> TopOk(members, k, rows[i]) && Smallest(rows[i].members) < n)
    && (forall i, j :: 0 <= i < j < |rows| ==> Smallest(rows[i].members) < Smallest(rows[j].members))
  }

  lemma {:induction false} ClosedTops(members: seq<Member>, k: seq<string>, n: nat)
    requires |k| == |members| && n <= |k|
    ensures TopsOk(members, k, LayoutUpTo(members, k, {}, n), n)
  {
    hide RowsAt;
    if n > 0 {
      ClosedTops(members, k, n - 1);
      TopsAtOk(members, k, n - 1);
      hide TopsOk, TopOk;
    }
  }

  // The top rows of any layout: each one well formed, and all in the order of
  // the first torrent they stand for.
  lemma LayoutOrdered(members: seq<Member>, expanded: set<string>)
    ensures TopsOk(members, Keys(members), Tops(Layout(members, expanded)), |members|)
  {
    LayoutOpens(members, expanded);
    ClosedTops(members, Keys(members), |members|);
  }

  // ---- There is no other ----

  lemma NotBeforeItself(members: seq<Member>, a: int)
    requires 0 <= a < |members|
    ensures !Before(members, a, a)
  {
    CompareFlips(members[a].name, members[a].name);
  }

  lemma SameTails(s: seq<int>, t: seq<int>)
    requires s != [] && t != [] && s[0] == t[0] && s[0] !in s[1..] && t[0] !in t[1..]
    requires forall x :: x in s <==> x in t
    ensures forall x :: x in s[1..] <==> x in t[1..]
  {
    assert s == [s[0]] + s[1..] && t == [t[0]] + t[1..];
    forall x ensures x in s[1..] <==> x in t[1..] {
      assert x in s <==> x == s[0] || x in s[1..];
      assert x in t <==> x == t[0] || x in t[1..];
    }
  }

  lemma SomeElement(t: seq<int>) returns (x: int)
    requires t != []
    ensures x in t
  {
    x := t[0];
  }

  // Torrents can be put in order in one way only.
  lemma {:induction false} SortedOneWay(members: seq<Member>, s: seq<int>, t: seq<int>)
    requires InRange(members, s) && InRange(members, t) && Sorted(members, s) && Sorted(members, t)
    requires forall x :: x in s <==> x in t
    ensures s == t
    decreases |s|
  {
    if s != [] {
      assert s[0] in t && t[0] in s;
      var i :| 0 <= i < |s| && s[i] == t[0];
      var j :| 0 <= j < |t| && t[j] == s[0];
      if s[0] != t[0] {
        BeforeTotal(members, s[0], t[0]);
      }
      NotBeforeItself(members, s[0]);
      SameTails(s, t);
      SortedOneWay(members, s[1..], t[1..]);
    } else if t != [] {
      var x := SomeElement(t);
    }
  }

  // A group's row can only be the one the layout has for its key.
  lemma GroupRowIs(members: seq<Member>, k: seq<string>, r: Row)
    requires |k| == |members| && TopOk(members, k, r) && r.group
    ensures r.members == Group(members, k, r.groupKey)
    ensures forall x :: x in r.members ==> 0 <= x < |k| && k[x] == r.groupKey && !Lone(k, x) && First(k, x) == Smallest(r.members)
  {
    var g, all := Group(members, k, r.groupKey), Indices(k, r.groupKey, |k|);
    GroupIs(members, k, r.groupKey);
    forall x ensures x in g <==> x in r.members {
      if 0 <= x < |k| { GroupHas(members, k, r.groupKey, x); }
    }
    StableSortSorts(members, all);
    SortedOneWay(members, r.members, g);
    hide Sorted, Group, StableSort;
    forall x | x in r.members ensures 0 <= x < |k| && k[x] == r.groupKey && First(k, x) == Smallest(r.members) {
      FirstIsFirst(k, x);
      assert First(k, x) in r.members;
    }
  }

  lemma TopIsRowAt(members: seq<Member>, k: seq<string>, r: Row)
    requires |k| == |members| && TopOk(members, k, r)
    ensures var i := Smallest(r.members); 0 <= i < |k| && RowsAt(members, k, {}, i) == [r]
  {
    var i := Smallest(r.members);
    if r.group {
      GroupRowIs(members, k, r);
      hide Group, Lone, First, Sorted;
    } else {
      assert r.members == [i];
    }
  }

  // Where no row starts, some row before has the torrent, and so does the
  // layout's.
  lemma NothingAt(members: seq<Member>, k: seq<string>, r: Row, i: nat)
    requires |k| == |members| && i < |k| && TopOk(members, k, r) && i in r.members && Smallest(r.members) != i
    ensures RowsAt(members, k, {}, i) == [] && Smallest(r.members) < i
  {
    hide Group, Lone, First, Smallest, Sorted, InRange;
    if r.group {
      StandsFirst(members, k, r, i);
    } else {
      OnlyOne(r.members, i);
    }
  }

  lemma OnlyOne(s: seq<int>, x: int)
    requires |s| == 1 && x in s
    ensures Smallest(s) == x
  {
  }

  lemma StandsFirst(members: seq<Member>, k: seq<string>, r: Row, x: nat)
    requires |k| == |members| && x < |k| && TopOk(members, k, r) && r.group && x in r.members
    ensures !Lone(k, x) && First(k, x) == Smallest(r.members) <= x
  {
    GroupRowIs(members, k, r);
    hide TopOk, Group, Lone, First;
  }

  predicate Stands(rows: seq<Row>, x: int) { exists r :: r in rows && x in r.members }

  predicate Everyone(rows: seq<Row>, n: nat) { forall x :: 0 <= x < n ==> Stands(rows, x) }

  // Rows before p start below n, the others do not.
  predicate CutAt(rows: seq<Row>, n: nat, p: nat) {
    && p <= |rows|
    && (forall j :: 0 <= j < p ==> Smallest(rows[j].members) < n)
    && (forall j :: p <= j < |rows| ==> Smallest(rows[j].members) >= n)
  }

  // The rows that start below n are the layout's.
  lemma {:induction false} TopsUpTo(members: seq<Member>, k: seq<string>, rows: seq<Row>, n: nat) returns (p: nat)
    requires |k| == |members| && n <= |k| && TopsOk(members, k, rows, |k|) && Everyone(rows, |k|)
    ensures CutAt(rows, n, p) && rows[..p] == LayoutUpTo(members, k, {}, n)
    decreases n
  {
    hide TopOk, Smallest, RowsAt, Everyone;
    if n == 0 {
      p := 0;
      forall j | 0 <= j < |rows| ensures Smallest(rows[j].members) >= 0 {
        TopIsRowAt(members, k, rows[j]);
      }
    } else {
      p := TopsUpTo(members, k, rows, n - 1);
      hide TopsOk, CutAt;
      p := OneMoreTop(members, k, rows, n - 1, p);
    }
  }

  lemma OneMoreTop(members: seq<Member>, k: seq<string>, rows: seq<Row>, n: nat, p: nat) returns (q: nat)
    requires |k| == |members| && n < |k| && TopsOk(members, k, rows, |k|) && Everyone(rows, |k|)
    requires CutAt(rows, n, p)
    ensures CutAt(rows, n + 1, q) && rows[..q] == rows[..p] + RowsAt(members, k, {}, n)
  {
    hide RowsAt, TopOk, Smallest;
    if p < |rows| && Smallest(rows[p].members) == n {
      q := p + 1;
      TopIsRowAt(members, k, rows[p]);
      assert rows[..q] == rows[..p] + [rows[p]];
    } else {
      q := p;
      assert Stands(rows, n);
      var j :| 0 <= j < |rows| && n in rows[j].members;
      NothingAt(members, k, rows[j], n);
    }
  }

  lemma {:induction false} ShownByARow(rows: seq<Row>, x: int) returns (r: Row)
    requires x in Shown(rows)
    ensures r in rows && x in r.members
  {
    if !rows[0].child && x in rows[0].members {
      r := rows[0];
    } else {
      r := ShownByARow(rows[1..], x);
    }
  }

  lemma AllBelow(members: seq<Member>, k: seq<string>, rows: seq<Row>, p: nat)
    requires |k| == |members| && TopsOk(members, k, rows, |k|) && CutAt(rows, |k|, p)
    ensures p == |rows| && rows[..p] == rows
  {
    hide TopOk, Smallest;
    if p < |rows| {
      TopBelow(members, k, rows, p);
    }
  }

  lemma TopBelow(members: seq<Member>, k: seq<string>, rows: seq<Row>, p: nat)
    requires |k| == |members| && TopsOk(members, k, rows, |k|) && p < |rows|
    ensures Smallest(rows[p].members) < |k|
  {
  }

  lemma LayoutIs(members: seq<Member>)
    ensures Layout(members, {}) == LayoutUpTo(members, Keys(members), {}, |members|)
  {
  }

  // What the layout promises leaves no choice: rows without children that show
  // every torrent, each row well formed and all in order, are the closed layout;
  // and opening groups makes it the layout with those groups open.
  lemma OnlyTheLayout(members: seq<Member>, rows: seq<Row>, expanded: set<string>)
    requires TopsOk(members, Keys(members), Tops(rows), |members|) && rows == Open(Tops(rows), expanded)
    requires forall x :: 0 <= x < |members| ==> x in Shown(Tops(rows))
    ensures rows == Layout(members, expanded)
  {
    var tops, k := Tops(rows), Keys(members);
    hide TopOk, Smallest, Tops, Open, Layout, Shown;
    forall x | 0 <= x < |members| ensures Stands(tops, x) {
      var r := ShownByARow(tops, x);
    }
    var p := TopsUpTo(members, k, tops, |members|);
    AllBelow(members, k, tops, p);
    LayoutIs(members);
    LayoutOpens(members, expanded);
  }
}

// The two functions as they run: hash maps, a set of placed keys and loops.
module LibraryGroups {
  import opened LibraryGroupsSpec

  // `names` resolves every name as the members before i do.
  ghost predicate Resolves(members: seq<Member>, names: map<string, int>, i: nat)
    requires i <= |members|
  {
    && "" !in names
    && forall name: string :: name != "" ==>
         ResolvedId(members, name) == if name in names then names[name] else ResolvedId(members[i..], name)
  }

  lemma ResolvesNext(members: seq<Member>, names: map<string, int>, i: nat)
    requires i < |members| && Resolves(members, names, i)
    ensures var m := members[i];
            Resolves(members, if m.tmdbId > 0 && m.nameKey != "" && m.nameKey !in names
                              then names[m.nameKey := m.tmdbId] else names, i + 1)
  {
    assert members[i..][0] == members[i] && members[i..][1..] == members[i + 1..];
  }

  method CollectNames(members: seq<Member>) returns (names: map<string, int>)
    ensures forall name: string :: name != "" ==>
              ResolvedId(members, name) == if name in names then names[name] else 0
  {
    names := map[];
    var i := 0;
    assert members[0..] == members;
    while i < |members|
      invariant 0 <= i <= |members|
      invariant Resolves(members, names, i)
    {
      ResolvesNext(members, names, i);
      hide Resolves;
      var m := members[i];
      if m.tmdbId > 0 && m.nameKey != "" && m.nameKey !in names {
        names := names[m.nameKey := m.tmdbId];
      }
      i := i + 1;
    }
  }

  method ComputeKeys(members: seq<Member>) returns (out: seq<string>)
    ensures out == Keys(members)
  {
    var nameToTmdb := CollectNames(members);
    hide ResolvedId, Number;
    out := [];
    var i := 0;
    while i < |members|
      invariant 0 <= i <= |members|
      invariant out == Keys(members)[..i]
    {
      var m := members[i];
      var id := m.tmdbId;
      if id <= 0 && m.nameKey != "" {
        id := if m.nameKey in nameToTmdb then nameToTmdb[m.nameKey] else 0;
      }
      if id > 0 {
        out := out + ["tmdb:" + Number(id)];
      } else if m.nameKey != "" {
        out := out + ["name:" + m.nameKey];
      } else if m.collectionId > 0 {
        out := out + ["col:" + Number(m.collectionId)];
      } else {
        out := out + [""];
      }
      i := i + 1;
    }
  }

  // Every key that some member has, with the indices of its members.
  ghost predicate Collected(k: seq<string>, byKey: map<string, seq<int>>, n: nat)
    requires n <= |k|
  {
    forall key :: if key in byKey then key != "" && byKey[key] == Indices(k, key, n) && byKey[key] != []
                  else key == "" || Indices(k, key, n) == []
  }

  lemma CollectedNext(k: seq<string>, byKey: map<string, seq<int>>, i: nat)
    requires i < |k| && Collected(k, byKey, i)
    ensures Collected(k, if k[i] == "" then byKey
                         else byKey[k[i] := (if k[i] in byKey then byKey[k[i]] else []) + [i]], i + 1)
  {
  }

  method Collect(k: seq<string>) returns (byKey: map<string, seq<int>>)
    ensures Collected(k, byKey, |k|)
  {
    byKey := map[];
    var i := 0;
    assert Collected(k, byKey, 0);
    hide *;
    while i < |k|
      invariant 0 <= i <= |k|
      invariant Collected(k, byKey, i)
    {
      CollectedNext(k, byKey, i);
      if k[i] != "" {
        byKey := byKey[k[i] := (if k[i] in byKey then byKey[k[i]] else []) + [i]];
      }
      i := i + 1;
    }
  }

  lemma KeysCollected(k: seq<string>, byKey: map<string, seq<int>>)
    requires Collected(k, byKey, |k|)
    ensures forall i :: 0 <= i < |k| ==> (k[i] in byKey <==> k[i] != "")
  {
    forall i | 0 <= i < |k| ensures k[i] in byKey <==> k[i] != "" {
      assert i in Indices(k, k[i], |k|);
    }
  }

  // The dictionary once its lists are sorted.
  predicate GroupsOf(members: seq<Member>, k: seq<string>, byKey: map<string, seq<int>>)
    requires |k| == |members|
  {
    && (forall key :: key in byKey ==> byKey[key] == Group(members, k, key))
    && (forall i :: 0 <= i < |k| ==> (k[i] in byKey <==> k[i] != ""))
  }

  // The lists of the keys in `todo` still wait to be sorted.
  predicate HalfSorted(members: seq<Member>, k: seq<string>, byKey: map<string, seq<int>>, todo: set<string>)
    requires |k| == |members|
  {
    && todo <= byKey.Keys
    && (forall key :: key in byKey ==>
          byKey[key] == if key in todo then Indices(k, key, |k|) else Group(members, k, key))
    && (forall i :: 0 <= i < |k| ==> (k[i] in byKey <==> k[i] != ""))
  }

  lemma HalfSortedNext(members: seq<Member>, k: seq<string>, byKey: map<string, seq<int>>, todo: set<string>, key: string)
    requires |k| == |members| && HalfSorted(members, k, byKey, todo) && key in todo
    ensures key in byKey && InRange(members, byKey[key])
    ensures HalfSorted(members, k, byKey[key := StableSort(members, byKey[key])], todo - {key})
  {
    hide StableSort, Indices;
    assert key in byKey && byKey[key] == Indices(k, key, |k|);
  }

  lemma HalfSortedEnds(members: seq<Member>, k: seq<string>, byKey: map<string, seq<int>>)
    requires |k| == |members|
    ensures Collected(k, byKey, |k|) ==> HalfSorted(members, k, byKey, byKey.Keys)
    ensures HalfSorted(members, k, byKey, {}) ==> GroupsOf(members, k, byKey)
  {
    hide StableSort, Indices;
    if Collected(k, byKey, |k|) {
      KeysCollected(k, byKey);
    }
  }

  method SortGroups(members: seq<Member>, k: seq<string>, collected: map<string, seq<int>>)
    returns (byKey: map<string, seq<int>>)
    requires |k| == |members| && Collected(k, collected, |k|)
    ensures GroupsOf(members, k, byKey)
  {
    byKey := collected;
    var todo := collected.Keys;
    hide *;
    HalfSortedEnds(members, k, byKey);
    while todo != {}
      invariant HalfSorted(members, k, byKey, todo)
      decreases |todo|
    {
      var key :| key in todo;
      HalfSortedNext(members, k, byKey, todo, key);
      byKey := byKey[key := StableSort(members, byKey[key])];
      todo := todo - {key};
    }
    HalfSortedEnds(members, k, byKey);
  }

  // A header row, and one row per member when the group is open.
  method AppendGroup(rows: seq<Row>, key: string, g: seq<int>, open: bool) returns (out: seq<Row>)
    ensures out == rows + GroupRows(key, g, open)
  {
    out := rows + [Row(key, g, true, false)];
    if open {
      ghost var before := out;
      var c := 0;
      while c < |g|
        invariant 0 <= c <= |g|
        invariant out == before + Children(key, g)[..c]
      {
        out := out + [Row(key, [g[c]], false, true)];
        c := c + 1;
      }
      assert Children(key, g)[..c] == Children(key, g);
    }
  }

  // The keys of the groups whose first member is before i.
  function Placed(k: seq<string>, i: nat): set<string>
    requires i <= |k|
  {
    if i == 0 then {} else if Lone(k, i - 1) then Placed(k, i - 1) else Placed(k, i - 1) + {k[i - 1]}
  }

  lemma {:induction false} PlacedHas(k: seq<string>, i: nat, key: string)
    requires i <= |k|
    ensures key in Placed(k, i) <==> exists j :: 0 <= j < i && !Lone(k, j) && k[j] == key
  {
    hide Lone;
    if i > 0 {
      PlacedHas(k, i - 1, key);
    }
  }

  lemma PlacedNext(k: seq<string>, i: nat)
    requires i < |k|
    ensures Placed(k, i + 1) == if Lone(k, i) || k[i] in Placed(k, i) then Placed(k, i) else Placed(k, i) + {k[i]}
  {
    if k[i] in Placed(k, i) {
      assert Placed(k, i) + {k[i]} == Placed(k, i);
    }
  }

  // What the dictionary and the placed keys say about position i.
  lemma WhatStandsAt(members: seq<Member>, k: seq<string>, byKey: map<string, seq<int>>, expanded: set<string>, i: nat)
    requires |k| == |members| && i < |k| && GroupsOf(members, k, byKey)
    ensures var g := Group(members, k, k[i]);
            && (k[i] in byKey ==> byKey[k[i]] == g)
            && (Lone(k, i) <==> k[i] !in byKey || |byKey[k[i]]| < 2)
            && LayoutUpTo(members, k, expanded, i + 1)
               == LayoutUpTo(members, k, expanded, i)
                  + (if Lone(k, i) then [Row("", [i], false, false)]
                     else if k[i] in Placed(k, i) then []
                     else GroupRows(k[i], g, k[i] in expanded))
            && Placed(k, i + 1) == if Lone(k, i) || k[i] in Placed(k, i) then Placed(k, i) else Placed(k, i) + {k[i]}
  {
    PlacedNext(k, i);
    hide GroupRows, Placed;
    FirstIsFirst(k, i);
    GroupIs(members, k, k[i]);
    PlacedHas(k, i, k[i]);
    if !Lone(k, i) && First(k, i) < i {
      assert !Lone(k, First(k, i));
    }
  }

  lemma LayoutStarts(members: seq<Member>, k: seq<string>, expanded: set<string>)
    requires |k| == |members|
    ensures LayoutUpTo(members, k, expanded, 0) == [] && Placed(k, 0) == {}
    ensures k == Keys(members) ==> LayoutUpTo(members, k, expanded, |members|) == Layout(members, expanded)
  {
  }

  // One turn of layout's loop.
  method PlaceAt(members: seq<Member>, k: seq<string>, byKey: map<string, seq<int>>, expanded: set<string>,
                 i: nat, rows: seq<Row>, placed: set<string>)
    returns (rows': seq<Row>, placed': set<string>)
    requires |k| == |members| && i < |k| && GroupsOf(members, k, byKey)
    requires rows == LayoutUpTo(members, k, expanded, i) && placed == Placed(k, i)
    ensures rows' == LayoutUpTo(members, k, expanded, i + 1) && placed' == Placed(k, i + 1)
  {
    hide *;
    WhatStandsAt(members, k, byKey, expanded, i);
    var key := k[i];
    rows', placed' := rows, placed;
    if key !in byKey || |byKey[key]| < 2 {
      rows' := rows + [Row("", [i], false, false)];
    } else if key !in placed {
      placed' := placed + {key};
      rows' := AppendGroup(rows, key, byKey[key], key in expanded);
    }
  }

  method ComputeLayout(members: seq<Member>, expanded: set<string>) returns (rows: seq<Row>)
    ensures rows == Layout(members, expanded)
  {
    hide *;
    var k := ComputeKeys(members);
    var collected := Collect(k);
    var byKey := SortGroups(members, k, collected);
    rows := [];
    var placed: set<string> := {};
    var i := 0;
    LayoutStarts(members, k, expanded);
    while i < |members|
      invariant 0 <= i <= |members|
      invariant rows == LayoutUpTo(members, k, expanded, i)
      invariant placed == Placed(k, i)
    {
      rows, placed := PlaceAt(members, k, byKey, expanded, i, rows, placed);
      i := i + 1;
    }
  }
}
