// Which torrents share a row and in which order, said of the torrents' own data.
// Source: src/bridges/librarygroups.cpp.
module LibraryOrder {
  import opened LibraryGroupsSpec

  // A name comes before another if it is the beginning of it, or has the smaller
  // character where they first differ.
  predicate DiffersAt(a: string, b: string, k: nat) {
    k <= |a| && k < |b| && a[..k] == b[..k] && (k == |a| || a[k] < b[k])
  }

  ghost predicate NameBefore(a: string, b: string) { exists k: nat :: DiffersAt(a, b, k) }

  lemma AgreeFirst(a: string, b: string, k: nat)
    requires 0 < k <= |a| && k <= |b| && a[..k] == b[..k]
    ensures a[0] == b[0]
  {
    assert a[..k][0] == b[..k][0];
  }

  lemma {:induction false} ComparedNames(a: string, b: string)
    ensures CompareNames(a, b) < 0 <==> NameBefore(a, b)
    ensures CompareNames(a, b) == 0 <==> a == b
  {
    if a == [] || b == [] {
      if a == [] && b != [] {
        assert DiffersAt(a, b, 0);
      }
    } else if a[0] != b[0] {
      if a[0] < b[0] {
        assert DiffersAt(a, b, 0);
      }
      if NameBefore(a, b) {
        var k: nat :| DiffersAt(a, b, k);
        if k > 0 { AgreeFirst(a, b, k); }
      }
    } else {
      ComparedNames(a[1..], b[1..]);
      if NameBefore(a, b) {
        var k: nat :| DiffersAt(a, b, k);
        assert a[..k][1..] == a[1..][..k - 1] && b[..k][1..] == b[1..][..k - 1];
        assert DiffersAt(a[1..], b[1..], k - 1);
      }
      if NameBefore(a[1..], b[1..]) {
        var k: nat :| DiffersAt(a[1..], b[1..], k);
        assert a[..k + 1] == [a[0]] + a[1..][..k] && b[..k + 1] == [b[0]] + b[1..][..k];
        assert DiffersAt(a, b, k + 1);
      }
      assert a == [a[0]] + a[1..] && b == [b[0]] + b[1..];
    }
  }

  // The torrent x, at index i of the list, stands before y, at index j: by season,
  // then by episode, then by year, then by name, then as the list has them.
  ghost predicate StandsBefore(x: Member, i: int, y: Member, j: int) {
    || x.season < y.season
    || (x.season == y.season && x.episode < y.episode)
    || (x.season == y.season && x.episode == y.episode && x.year < y.year)
    || (x.season == y.season && x.episode == y.episode && x.year == y.year && NameBefore(x.name, y.name))
    || (x.season == y.season && x.episode == y.episode && x.year == y.year && x.name == y.name && i < j)
  }

  lemma BeforeIs(members: seq<Member>, i: int, j: int)
    requires 0 <= i < |members| && 0 <= j < |members|
    ensures Before(members, i, j) <==> StandsBefore(members[i], i, members[j], j)
  {
    ComparedNames(members[i].name, members[j].name);
    CompareFlips(members[i].name, members[j].name);
    hide CompareNames, NameBefore;
  }

  lemma {:induction false} GroupIsTop(rows: seq<Row>, r: Row)
    requires r in rows && !r.child
    ensures r in Tops(rows)
  {
    if rows[0] != r {
      GroupIsTop(rows[1..], r);
    }
  }

  // Every group of every layout has its torrents in that order.
  lemma GroupInOrder(members: seq<Member>, expanded: set<string>, r: Row, a: nat, b: nat)
    requires r in Layout(members, expanded) && !r.child && a < b < |r.members|
    ensures 0 <= r.members[a] < |members| && 0 <= r.members[b] < |members|
    ensures StandsBefore(members[r.members[a]], r.members[a], members[r.members[b]], r.members[b])
  {
    var tops := Tops(Layout(members, expanded));
    LayoutOrdered(members, expanded);
    GroupIsTop(Layout(members, expanded), r);
    var k :| 0 <= k < |tops| && tops[k] == r;
    assert TopOk(members, Keys(members), tops[k]);
    hide Layout, Tops, Keys, StandsBefore;
    BeforeIs(members, r.members[a], r.members[b]);
  }

  // Rows that are no children stand in the order of their first torrents.
  lemma RowsInOrder(members: seq<Member>, expanded: set<string>, a: nat, b: nat)
    requires var tops := Layout(members, {}); a < b < |tops|
    ensures var x, y := Layout(members, {})[a].members, Layout(members, {})[b].members;
            x != [] && y != [] && exists i :: i in x && forall j :: j in y ==> i < j
  {
    LayoutOrdered(members, {});
    LayoutOpens(members, {});
    var tops := Layout(members, {});
    assert TopOk(members, Keys(members), tops[a]) && TopOk(members, Keys(members), tops[b]);
    hide Layout, Keys, TopOk;
    LeastMember(tops[a].members);
    LeastMember(tops[b].members);
  }

  lemma {:induction false} LeastMember(s: seq<int>)
    requires s != []
    ensures Smallest(s) in s && forall x :: x in s ==> Smallest(s) <= x
  {
    if |s| > 1 {
      LeastMember(s[1..]);
    }
  }

  // The row has its children right behind it, one for each of its torrents and in
  // their order.
  predicate Followed(rows: seq<Row>, i: nat)
    requires i < |rows|
  {
    var r := rows[i];
    i + |r.members| < |rows|
    && forall j :: 0 <= j < |r.members| ==> rows[i + 1 + j] == Row(r.groupKey, [r.members[j]], false, true)
  }

  // The row i is a child of the open group at h.
  predicate ChildOf(rows: seq<Row>, expanded: set<string>, i: nat, h: nat) {
    && h < i < |rows| && rows[h].group && rows[h].groupKey in expanded && i - h <= |rows[h].members|
    && rows[i] == Row(rows[h].groupKey, [rows[h].members[i - h - 1]], false, true)
  }

  ghost predicate InPlace(rows: seq<Row>, expanded: set<string>, i: nat)
    requires i < |rows|
  {
    && (rows[i].group && rows[i].groupKey in expanded ==> Followed(rows, i))
    && (rows[i].child ==> exists h: nat :: ChildOf(rows, expanded, i, h))
  }

  // In every layout an open group is followed by its children, and no other row is
  // a child.
  lemma ChildrenFollow(members: seq<Member>, expanded: set<string>, i: nat)
    requires i < |Layout(members, expanded)|
    ensures InPlace(Layout(members, expanded), expanded, i)
  {
    LayoutOpens(members, expanded);
    ClosedHasNone(members);
    hide Layout, InPlace;
    OpensInPlace(Layout(members, {}), expanded, i);
  }

  lemma ClosedHasNone(members: seq<Member>)
    ensures forall i :: 0 <= i < |Layout(members, {})| ==> !Layout(members, {})[i].child
  {
    LayoutOrdered(members, {});
    LayoutOpens(members, {});
    var tops := Layout(members, {});
    forall i | 0 <= i < |tops| ensures !tops[i].child {
      assert TopOk(members, Keys(members), tops[i]);
    }
  }

  lemma {:induction false} OpensInPlace(tops: seq<Row>, expanded: set<string>, i: nat)
    requires i < |Open(tops, expanded)| && forall k :: 0 <= k < |tops| ==> !tops[k].child
    ensures InPlace(Open(tops, expanded), expanded, i)
  {
    var top := tops[0];
    var under := if top.group && top.groupKey in expanded then Children(top.groupKey, top.members) else [];
    var more := Open(tops[1..], expanded);
    assert Open(tops, expanded) == [top] + under + more;
    ChildrenAre(top.groupKey, top.members);
    hide Open, Children, InPlace;
    if i <= |under| {
      FirstInPlace(top, under, more, expanded, i);
    } else {
      OpensInPlace(tops[1..], expanded, i - 1 - |under|);
      LaterInPlace([top] + under, more, expanded, i - 1 - |under|);
    }
  }

  lemma FirstInPlace(top: Row, under: seq<Row>, more: seq<Row>, expanded: set<string>, i: nat)
    requires i <= |under| && !top.child
    requires if top.group && top.groupKey in expanded
             then |under| == |top.members|
                  && forall j :: 0 <= j < |under| ==> under[j] == Row(top.groupKey, [top.members[j]], false, true)
             else under == []
    ensures InPlace([top] + under + more, expanded, i)
  {
    var rows := [top] + under + more;
    assert forall j :: 0 <= j < |under| ==> rows[j + 1] == under[j];
    if i > 0 {
      assert ChildOf(rows, expanded, i, 0);
    }
  }

  lemma LaterInPlace(front: seq<Row>, more: seq<Row>, expanded: set<string>, k: nat)
    requires k < |more| && InPlace(more, expanded, k)
    ensures InPlace(front + more, expanded, |front| + k)
  {
    var rows := front + more;
    assert forall j :: 0 <= j < |more| ==> rows[|front| + j] == more[j];
    if more[k].child {
      var h: nat :| ChildOf(more, expanded, k, h);
      assert ChildOf(rows, expanded, |front| + k, |front| + h);
    }
    if more[k].group && more[k].groupKey in expanded {
      var r := more[k];
      forall j | 0 <= j < |r.members|
        ensures rows[|front| + k + 1 + j] == Row(r.groupKey, [r.members[j]], false, true)
      {
        assert rows[|front| + (k + 1 + j)] == more[k + 1 + j];
      }
    }
  }

  lemma {:induction false} ChildrenAre(groupKey: string, members: seq<int>)
    ensures |Children(groupKey, members)| == |members|
    ensures forall j :: 0 <= j < |members| ==> Children(groupKey, members)[j] == Row(groupKey, [members[j]], false, true)
  {
    if members != [] {
      ChildrenAre(groupKey, members[1..]);
    }
  }

  // ---- Which torrents share a row ----

  // The k-th is the first torrent of this name whose show is known.
  predicate FirstNamed(members: seq<Member>, name: string, k: nat) {
    && k < |members| && members[k].tmdbId > 0 && members[k].nameKey == name
    && forall j :: 0 <= j < k ==> !(members[j].tmdbId > 0 && members[j].nameKey == name)
  }

  // A torrent's show: its own, or if that is not known the one its name has.
  ghost predicate ShowIs(members: seq<Member>, m: Member, id: int) {
    && id > 0
    && (m.tmdbId == id
        || (m.tmdbId <= 0 && m.nameKey != "" && exists k: nat :: FirstNamed(members, m.nameKey, k) && members[k].tmdbId == id))
  }

  lemma {:induction false} ResolvedIs(members: seq<Member>, name: string, id: int)
    requires id > 0
    ensures ResolvedId(members, name) == id <==> exists k: nat :: FirstNamed(members, name, k) && members[k].tmdbId == id
  {
    if members != [] {
      var rest := members[1..];
      ResolvedIs(rest, name, id);
      assert forall j :: 0 <= j < |rest| ==> rest[j] == members[j + 1];
      if members[0].tmdbId > 0 && members[0].nameKey == name {
        assert FirstNamed(members, name, 0);
      } else {
        if exists k: nat :: FirstNamed(rest, name, k) && rest[k].tmdbId == id {
          var k: nat :| FirstNamed(rest, name, k) && rest[k].tmdbId == id;
          assert forall j :: 0 < j < k + 1 ==> members[j] == rest[j - 1];
          assert FirstNamed(members, name, k + 1);
        }
        if exists k: nat :: FirstNamed(members, name, k) && members[k].tmdbId == id {
          var k: nat :| FirstNamed(members, name, k) && members[k].tmdbId == id;
          assert FirstNamed(rest, name, k - 1);
        }
      }
    }
  }

  lemma ShownBy(members: seq<Member>, m: Member, id: int)
    requires id > 0
    ensures ShowOf(members, m) == id <==> ShowIs(members, m, id)
  {
    ResolvedIs(members, m.nameKey, id);
    hide ResolvedId, FirstNamed;
  }

  ghost predicate Showless(members: seq<Member>, m: Member) { forall id :: id > 0 ==> !ShowIs(members, m, id) }

  // Two torrents share a key, and with it a row, exactly if they are of one show;
  // or of none and have one name; or of none and no name and one collection.
  lemma SharedExactly(members: seq<Member>, x: Member, y: Member)
    ensures KeyOf(members, x) != "" && KeyOf(members, x) == KeyOf(members, y)
            <==> || (exists id :: ShowIs(members, x, id) && ShowIs(members, y, id))
                 || (Showless(members, x) && Showless(members, y) && x.nameKey == y.nameKey
                     && (x.nameKey != "" || (x.collectionId > 0 && x.collectionId == y.collectionId)))
  {
    SharedKey(members, x, y);
    Showing(members, x);
    Showing(members, y);
    hide KeyOf, ShowOf, ShowIs;
    var a, b := ShowOf(members, x), ShowOf(members, y);
    if a > 0 && a == b {
      assert ShowIs(members, x, a) && ShowIs(members, y, a);
    }
  }

  lemma Showing(members: seq<Member>, m: Member)
    ensures ShowOf(members, m) > 0 ==> ShowIs(members, m, ShowOf(members, m))
    ensures forall id :: ShowIs(members, m, id) ==> 0 < id == ShowOf(members, m)
    ensures Showless(members, m) <==> ShowOf(members, m) <= 0
  {
    forall id | id > 0 ensures ShowOf(members, m) == id <==> ShowIs(members, m, id) { ShownBy(members, m, id); }
    hide ShowOf;
  }
}
