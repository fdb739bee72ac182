// The library model over the filtered torrent list: row keys, the lookups
// between rows and session rows, and groups that open and close.
// Source: src/bridges/qmllibrarymodel.cpp.
module LibraryKeys {
  import opened LibraryGroupsSpec
  import LibraryRowsSpec

  // What a row's key is made from.
  datatype Label = Header(groupKey: string) | Torrent(hash: string)

  // How many of the first n labels are x.
  function Count(labels: seq<Label>, x: Label, n: nat): nat
    requires n <= |labels|
  {
    if n == 0 then 0 else Count(labels, x, n - 1) + if labels[n - 1] == x then 1 else 0
  }

  // Of torrent rows with one hash, all but the first are numbered.
  function Suffix(d: nat): string { if d == 0 then "" else "#" + Number(d) }

  function KeyAt(labels: seq<Label>, i: nat): string
    requires i < |labels|
  {
    match labels[i]
    case Header(key) => "g:" + key
    case Torrent(hash) => "t:" + (hash + Suffix(Count(labels, labels[i], i)))
  }

  function RowKeys(labels: seq<Label>): (r: seq<string>)
    ensures |r| == |labels| && forall i :: 0 <= i < |r| ==> r[i] == KeyAt(labels, i)
  {
    seq(|labels|, i requires 0 <= i < |labels| => KeyAt(labels, i))
  }

  // Each group has one header row.
  predicate GroupsOnce(labels: seq<Label>) {
    forall i, j :: 0 <= i < j < |labels| && labels[i].Header? ==> labels[i] != labels[j]
  }

  // Some hash spells the numbered key of another torrent's later row.
  predicate Clash(labels: seq<Label>, i: nat, j: nat)
    requires i < |labels| && j < |labels|
  {
    && labels[i].Torrent? && labels[j].Torrent? && Count(labels, labels[i], i) > 0
    && labels[j].hash == labels[i].hash + Suffix(Count(labels, labels[i], i))
  }

  predicate NoClash(labels: seq<Label>) {
    forall i, j :: 0 <= i < |labels| && 0 <= j < |labels| ==> !Clash(labels, i, j)
  }

  lemma {:induction false} CountGrows(labels: seq<Label>, x: Label, i: nat, j: nat)
    requires i < j <= |labels| && labels[i] == x
    ensures Count(labels, x, j) > Count(labels, x, i)
    decreases j
  {
    if j > i + 1 {
      CountGrows(labels, x, i, j - 1);
    }
  }

  // The first row of each label has none before it.
  lemma {:induction false} FirstOf(labels: seq<Label>, x: Label, n: nat) returns (j: nat)
    requires n < |labels| && labels[n] == x
    ensures j <= n && labels[j] == x && Count(labels, x, j) == 0
  {
    if Count(labels, x, n) == 0 {
      j := n;
    } else {
      var m := LastBefore(labels, x, n);
      j := FirstOf(labels, x, m);
    }
  }

  lemma {:induction false} LastBefore(labels: seq<Label>, x: Label, n: nat) returns (m: nat)
    requires n <= |labels| && Count(labels, x, n) > 0
    ensures m < n && labels[m] == x
  {
    if labels[n - 1] == x { m := n - 1; } else { m := LastBefore(labels, x, n - 1); }
  }

  // Where the last '#' stands is where the number begins.
  lemma SplitApart(a: string, x: string, b: string, y: string)
    requires '#' !in x && '#' !in y
    ensures (a == b && x == y) || a + ("#" + x) != b + ("#" + y)
  {
    var s, t := a + ("#" + x), b + ("#" + y);
    if |s| == |t| {
      if |a| < |b| {
        assert t[|b|] == '#' && s[|b|] == x[|b| - |a| - 1];
      } else if |b| < |a| {
        assert s[|a|] == '#' && t[|a|] == y[|a| - |b| - 1];
      } else if a != b {
        assert s[..|a|] == a && t[..|a|] == b;
      } else if x != y {
        assert s[|a| + 1..] == x && t[|a| + 1..] == y;
      }
    }
  }

  lemma PrefixApart(p: string, a: string, b: string)
    requires a != b
    ensures p + a != p + b
  {
    assert (p + a)[|p|..] == a && (p + b)[|p|..] == b;
  }

  // Two torrent rows' names differ unless one hash spells the other's number.
  lemma NamesDiffer(g: string, d: nat, h: string, e: nat)
    requires g != h || d != e
    requires d > 0 && e == 0 ==> h != g + Suffix(d)
    requires e > 0 && d == 0 ==> g != h + Suffix(e)
    ensures g + Suffix(d) != h + Suffix(e)
  {
    if d > 0 && e > 0 {
      NumberReadsBack(d);
      NumberReadsBack(e);
      SplitApart(g, Number(d), h, Number(e));
    } else if d == 0 && e == 0 {
      assert g + "" == g && h + "" == h;
    } else {
      assert g + "" == g && h + "" == h;
    }
  }

  lemma KeysDiffer(labels: seq<Label>, i: nat, j: nat)
    requires i < j < |labels| && GroupsOnce(labels) && NoClash(labels)
    ensures KeyAt(labels, i) != KeyAt(labels, j)
  {
    if labels[i].Header? && labels[j].Header? {
      PrefixApart("g:", labels[i].groupKey, labels[j].groupKey);
    } else if labels[i].Torrent? && labels[j].Torrent? {
      var d, e := Count(labels, labels[i], i), Count(labels, labels[j], j);
      if labels[i] == labels[j] {
        CountGrows(labels, labels[i], i, j);
      }
      assert !Clash(labels, i, j) && !Clash(labels, j, i);
      NamesDiffer(labels[i].hash, d, labels[j].hash, e);
      PrefixApart("t:", labels[i].hash + Suffix(d), labels[j].hash + Suffix(e));
    } else {
      assert KeyAt(labels, i)[0] != KeyAt(labels, j)[0];
    }
  }

  lemma ClashRepeats(labels: seq<Label>, i: nat, j: nat)
    requires i < |labels| && j < |labels| && Clash(labels, i, j)
    ensures !LibraryRowsSpec.Distinct(RowKeys(labels))
  {
    var f := FirstOf(labels, labels[j], j);
    var keys := RowKeys(labels);
    assert labels[j].hash + "" == labels[j].hash;
    assert keys[f] == keys[i];
    assert |labels[j].hash| > |labels[i].hash|;
    assert keys[if f < i then f else i] == keys[if f < i then i else f];
  }

  // The row keys are distinct exactly when no torrent's hash spells another
  // hash followed by '#' and the number of one of its later rows.
  lemma KeysDistinct(labels: seq<Label>)
    requires GroupsOnce(labels)
    ensures LibraryRowsSpec.Distinct(RowKeys(labels)) <==> NoClash(labels)
  {
    if NoClash(labels) {
      forall i, j | 0 <= i < j < |labels| ensures RowKeys(labels)[i] != RowKeys(labels)[j] {
        KeysDiffer(labels, i, j);
      }
    } else {
      var i, j :| 0 <= i < |labels| && 0 <= j < |labels| && Clash(labels, i, j);
      ClashRepeats(labels, i, j);
    }
  }

  // Hashes are hexadecimal: with no '#' in any of them there is no clash.
  lemma PlainHashes(labels: seq<Label>)
    requires forall i :: 0 <= i < |labels| && labels[i].Torrent? ==> '#' !in labels[i].hash
    ensures NoClash(labels)
  {
    forall i, j | 0 <= i < |labels| && 0 <= j < |labels| ensures !Clash(labels, i, j) {
      if labels[i].Torrent? && labels[j].Torrent? && Count(labels, labels[i], i) > 0 {
        var s := labels[i].hash + Suffix(Count(labels, labels[i], i));
        assert s[|labels[i].hash|] == '#' && '#' in s;
      }
    }
  }

  // A list of rows on which the keys do collide: two torrents with hash h and
  // one whose hash is h#1.
  lemma HashMarkCollides()
    ensures var labels := [Torrent("h"), Torrent("h"), Torrent("h#1")];
            GroupsOnce(labels) && RowKeys(labels)[1] == RowKeys(labels)[2]
  {
    var labels := [Torrent("h"), Torrent("h"), Torrent("h#1")];
    assert Count(labels, Torrent("h"), 1) == 1;
    assert Count(labels, Torrent("h#1"), 2) == 0;
    assert Number(1) == "1";
    assert "h" + ("#" + "1") == "h#1" + "";
  }
}

module LibraryModelSpec {
  import opened LibraryGroupsSpec
  import opened LibraryKeys
  import R = LibraryRowsSpec

  // The filter proxy: its rows, their hashes, and the session row of each.
  datatype Filter = Filter(members: seq<Member>, hashes: seq<string>, toSource: seq<int>)

  predicate FilterOk(f: Filter) {
    && |f.hashes| == |f.members| == |f.toSource|
    && (forall i :: 0 <= i < |f.toSource| ==> f.toSource[i] >= 0)
    && (forall i, j :: 0 <= i < j < |f.toSource| ==> f.toSource[i] != f.toSource[j])
  }

  // The filter can be shown: its lists line up, session rows are distinct, and
  // hashes are plain.
  predicate Showable(f: Filter) {
    FilterOk(f) && forall i :: 0 <= i < |f.hashes| ==> '#' !in f.hashes[i]
  }

  // mapFromSource of the proxy: the filter's row of a session row, or -1.
  function ProxyRow(toSource: seq<int>, source: int): (p: int)
    ensures -1 <= p < |toSource|
    ensures p >= 0 ==> toSource[p] == source
    ensures p == -1 <==> source !in toSource
  {
    if toSource == [] then -1
    else if toSource[|toSource| - 1] == source then |toSource| - 1
    else ProxyRow(toSource[..|toSource| - 1], source)
  }

  function LabelOf(r: Row, hashes: seq<string>): Label {
    if r.group then Header(r.groupKey)
    else Torrent(if r.members != [] && 0 <= r.members[0] < |hashes| then hashes[r.members[0]] else "")
  }

  function LabelsOf(rows: seq<Row>, hashes: seq<string>): (l: seq<Label>)
    ensures |l| == |rows| && forall i :: 0 <= i < |l| ==> l[i] == LabelOf(rows[i], hashes)
  {
    seq(|rows|, i requires 0 <= i < |rows| => LabelOf(rows[i], hashes))
  }

  function Keyed(r: Row, key: string): R.Row<string> { R.Row(key, r.groupKey, r.members, r.group, r.child) }

  // computeRows: the layout, with a key for each row.
  function RowsOf(rows: seq<Row>, hashes: seq<string>): (out: seq<R.Row<string>>)
    ensures |out| == |rows|
    ensures forall i :: 0 <= i < |out| ==> out[i] == Keyed(rows[i], KeyAt(LabelsOf(rows, hashes), i))
  {
    seq(|rows|, i requires 0 <= i < |rows| => Keyed(rows[i], KeyAt(LabelsOf(rows, hashes), i)))
  }

  // How many of the first n rows are no headers and show a torrent of this hash first.
  function Earlier(rows: seq<Row>, hashes: seq<string>, hash: string, n: nat): nat
    requires n <= |rows|
  {
    if n == 0 then 0
    else
      var m := rows[n - 1].members;
      Earlier(rows, hashes, hash, n - 1)
      + if !rows[n - 1].group && (if m != [] && 0 <= m[0] < |hashes| then hashes[m[0]] else "") == hash then 1 else 0
  }

  lemma {:induction false} EarlierCounts(rows: seq<Row>, hashes: seq<string>, hash: string, n: nat)
    requires n <= |rows|
    ensures Count(LabelsOf(rows, hashes), Torrent(hash), n) == Earlier(rows, hashes, hash, n)
  {
    if n > 0 {
      EarlierCounts(rows, hashes, hash, n - 1);
    }
  }

  // A header is known by its group's key. Any other row is known by the hash of its
  // torrent, with a number if earlier rows have that hash; the number says how many.
  lemma RowKeyIs(rows: seq<Row>, hashes: seq<string>, i: nat)
    requires i < |rows|
    ensures var r, m := RowsOf(rows, hashes)[i], rows[i].members;
            && r.members == m && r.group == rows[i].group && r.child == rows[i].child && r.groupKey == rows[i].groupKey
            && (r.group ==> r.key == "g:" + r.groupKey)
            && (!r.group && m != [] && 0 <= m[0] < |hashes| ==>
                  var n := Earlier(rows, hashes, hashes[m[0]], i);
                  r.key == "t:" + (hashes[m[0]] + if n == 0 then "" else "#" + Number(n)))
  {
    var m := rows[i].members;
    if !rows[i].group && m != [] && 0 <= m[0] < |hashes| {
      EarlierCounts(rows, hashes, hashes[m[0]], i);
    }
    hide Number, Earlier, Count;
  }

  function Shape(f: Filter, expanded: set<string>, expandable: bool): seq<Row> {
    Layout(f.members, if expandable then expanded else {})
  }

  function Wanted(f: Filter, expanded: set<string>, expandable: bool): seq<R.Row<string>> {
    RowsOf(Shape(f, expanded, expandable), f.hashes)
  }

  // ---- Each group has one header ----

  predicate HeadersOnce(rows: seq<Row>) {
    forall i, j :: 0 <= i < j < |rows| && rows[i].group && rows[j].group ==> rows[i].groupKey != rows[j].groupKey
  }

  // Every header stands for a key seen before n.
  predicate HeadersFrom(k: seq<string>, rows: seq<Row>, n: nat)
    requires n <= |k|
  {
    forall r :: r in rows && r.group ==> exists h :: 0 <= h < n && k[h] == r.groupKey
  }

  lemma RowsAtHeader(members: seq<Member>, k: seq<string>, expanded: set<string>, i: nat)
    requires |k| == |members| && i < |k|
    ensures var rows := RowsAt(members, k, expanded, i);
            && (forall j :: 1 <= j < |rows| ==> !rows[j].group)
            && (rows != [] && rows[0].group ==> rows[0].groupKey == k[i] && forall h :: 0 <= h < i ==> k[h] != k[i])
  {
    FirstIsFirst(k, i);
  }

  lemma HeadersAppend(k: seq<string>, front: seq<Row>, back: seq<Row>, n: nat)
    requires n < |k| && HeadersOnce(front) && HeadersFrom(k, front, n)
    requires forall j :: 1 <= j < |back| ==> !back[j].group
    requires back != [] && back[0].group ==> back[0].groupKey == k[n] && forall h :: 0 <= h < n ==> k[h] != k[n]
    ensures HeadersOnce(front + back) && HeadersFrom(k, front + back, n + 1)
  {
    var rows := front + back;
    forall i, j | 0 <= i < j < |rows| && rows[i].group && rows[j].group ensures rows[i].groupKey != rows[j].groupKey {
      if j >= |front| {
        assert rows[j] == back[0] && i < |front|;
        assert rows[i] in front;
      }
    }
    forall r | r in rows && r.group ensures exists h :: 0 <= h < n + 1 && k[h] == r.groupKey {
      if r in front {
        var h :| 0 <= h < n && k[h] == r.groupKey;
      } else {
        assert r == back[0];
        assert k[n] == r.groupKey;
      }
    }
  }

  lemma {:induction false} LayoutHeadersUpTo(members: seq<Member>, k: seq<string>, expanded: set<string>, n: nat)
    requires |k| == |members| && n <= |k|
    ensures HeadersOnce(LayoutUpTo(members, k, expanded, n)) && HeadersFrom(k, LayoutUpTo(members, k, expanded, n), n)
  {
    hide RowsAt;
    if n > 0 {
      LayoutHeadersUpTo(members, k, expanded, n - 1);
      RowsAtHeader(members, k, expanded, n - 1);
      hide HeadersOnce, HeadersFrom;
      HeadersAppend(k, LayoutUpTo(members, k, expanded, n - 1), RowsAt(members, k, expanded, n - 1), n - 1);
    }
  }

  // What computeRows returns always has distinct keys, given plain hashes.
  lemma WantedDistinct(f: Filter, expanded: set<string>, expandable: bool)
    requires forall i :: 0 <= i < |f.hashes| ==> '#' !in f.hashes[i]
    ensures R.Distinct(R.KeysOf(Wanted(f, expanded, expandable)))
  {
    var shown := if expandable then expanded else {};
    var rows := Shape(f, expanded, expandable);
    var labels := LabelsOf(rows, f.hashes);
    LayoutHeadersUpTo(f.members, Keys(f.members), shown, |f.members|);
    assert GroupsOnce(labels) by { HeadersLabels(rows, f.hashes); }
    PlainLabels(rows, f.hashes);
    KeysDistinct(labels);
    assert R.KeysOf(Wanted(f, expanded, expandable)) == RowKeys(labels);
  }

  lemma HeadersLabels(rows: seq<Row>, hashes: seq<string>)
    requires HeadersOnce(rows)
    ensures GroupsOnce(LabelsOf(rows, hashes))
  {
  }

  lemma PlainLabels(rows: seq<Row>, hashes: seq<string>)
    requires forall i :: 0 <= i < |hashes| ==> '#' !in hashes[i]
    ensures NoClash(LabelsOf(rows, hashes))
  {
    PlainHashes(LabelsOf(rows, hashes));
  }

  // ---- What the lookups rely on ----

  // A header stands for torrents with its key, any other row for one torrent.
  predicate RowShape(r: Row, k: seq<string>) {
    && r.members != [] && (forall i :: 0 <= i < |r.members| ==> 0 <= r.members[i] < |k|)
    && (!r.group ==> |r.members| == 1) && (r.child ==> !r.group)
    && (r.group ==> r.groupKey != "" && forall i :: 0 <= i < |r.members| ==> k[r.members[i]] == r.groupKey)
  }

  lemma RowsAtShape(members: seq<Member>, k: seq<string>, expanded: set<string>, i: nat)
    requires |k| == |members| && i < |k|
    ensures forall r :: r in RowsAt(members, k, expanded, i) ==> RowShape(r, k)
  {
    if Lone(k, i) {
    } else if Home(k, i) == i {
      var g := Group(members, k, k[i]);
      GroupIs(members, k, k[i]);
      forall j | 0 <= j < |g| ensures k[g[j]] == k[i] {
        GroupHas(members, k, k[i], g[j]);
      }
      GroupRowsShape(k[i], g, k[i] in expanded, k);
      hide Group, GroupRows, RowShape;
    }
  }

  lemma GroupRowsShape(key: string, g: seq<int>, open: bool, k: seq<string>)
    requires g != [] && key != "" && forall j :: 0 <= j < |g| ==> 0 <= g[j] < |k| && k[g[j]] == key
    ensures forall r :: r in GroupRows(key, g, open) ==> RowShape(r, k)
  {
  }

  lemma {:induction false} ShapeUpTo(members: seq<Member>, k: seq<string>, expanded: set<string>, n: nat)
    requires |k| == |members| && n <= |k|
    ensures forall r :: r in LayoutUpTo(members, k, expanded, n) ==> RowShape(r, k)
  {
    hide RowsAt, RowShape;
    if n > 0 {
      ShapeUpTo(members, k, expanded, n - 1);
      RowsAtShape(members, k, expanded, n - 1);
    }
  }

  lemma {:induction false} ShownIn(rows: seq<Row>, x: int)
    requires x in Shown(rows)
    ensures exists r :: r in rows && !r.child && x in r.members
  {
    if rows[0].child || x !in rows[0].members {
      ShownIn(rows[1..], x);
      var r :| r in rows[1..] && !r.child && x in r.members;
      assert r in rows;
    } else {
      assert rows[0] in rows;
    }
  }

  lemma {:induction false} TopIn(rows: seq<Row>, r: Row)
    requires r in rows && !r.child
    ensures r in Tops(rows)
  {
    if r != rows[0] {
      TopIn(rows[1..], r);
    }
  }

  lemma {:induction false} OpenShows(rows: seq<Row>, expanded: set<string>, r: Row, x: int)
    requires r in rows && r.group && r.groupKey in expanded && x in r.members
    ensures Row(r.groupKey, [x], false, true) in Open(rows, expanded)
  {
    if r == rows[0] {
      var c := Children(r.groupKey, r.members);
      var i :| 0 <= i < |r.members| && r.members[i] == x;
      assert c[i] == Row(r.groupKey, [x], false, true);
      assert c[i] in c;
    } else {
      OpenShows(rows[1..], expanded, r, x);
    }
  }

  // Every torrent of the filter is on some top row.
  lemma ShapeShows(f: Filter, expanded: set<string>, expandable: bool, x: nat) returns (r: Row)
    requires x < |f.members|
    ensures r in Shape(f, expanded, expandable) && !r.child && x in r.members && RowShape(r, Keys(f.members))
  {
    var shown := if expandable then expanded else {};
    var rows := Layout(f.members, shown);
    LayoutPartitions(f.members, shown, x);
    assert x in Shown(rows) by { assert multiset(Shown(rows))[x] > 0; }
    ShownIn(rows, x);
    ShapeUpTo(f.members, Keys(f.members), shown, |f.members|);
    hide Layout, RowShape;
    r :| r in rows && !r.child && x in r.members;
  }

  // One in an open group is on a row of its own as well.
  lemma ShapeOpens(f: Filter, expanded: set<string>, r: Row, x: int)
    requires r in Shape(f, expanded, true) && r.group && r.groupKey in expanded && x in r.members
    ensures Row(r.groupKey, [x], false, true) in Shape(f, expanded, true)
  {
    LayoutOpens(f.members, expanded);
    ShapeUpTo(f.members, Keys(f.members), expanded, |f.members|);
    assert !r.child by { assert RowShape(r, Keys(f.members)); }
    hide RowShape;
    TopIn(Layout(f.members, expanded), r);
    OpenShows(Layout(f.members, {}), expanded, r, x);
  }

  // ---- The lookups ----

  predicate IsOwnRow(r: R.Row<string>, p: int) { !r.group && r.members != [] && r.members[0] == p }

  predicate IsGroupRow(r: R.Row<string>, p: int) { r.group && p in r.members }

  // The first row that is p's own, -1 when there is none.
  function OwnRow(rows: seq<R.Row<string>>, p: int): (i: int)
    ensures -1 <= i < |rows| && (i >= 0 ==> IsOwnRow(rows[i], p))
    ensures i == -1 ==> forall j :: 0 <= j < |rows| ==> !IsOwnRow(rows[j], p)
  {
    FirstRow(rows, r => IsOwnRow(r, p))
  }

  function GroupRow(rows: seq<R.Row<string>>, p: int): (i: int)
    ensures -1 <= i < |rows| && (i >= 0 ==> IsGroupRow(rows[i], p))
    ensures i == -1 ==> forall j :: 0 <= j < |rows| ==> !IsGroupRow(rows[j], p)
  {
    FirstRow(rows, r => IsGroupRow(r, p))
  }

  function FirstRow(rows: seq<R.Row<string>>, want: R.Row<string> -> bool): (i: int)
    ensures -1 <= i < |rows| && (i >= 0 ==> want(rows[i]) && forall j :: 0 <= j < i ==> !want(rows[j]))
    ensures i == -1 ==> forall j :: 0 <= j < |rows| ==> !want(rows[j])
  {
    if rows == [] then -1
    else if want(rows[0]) then 0
    else
      var i := FirstRow(rows[1..], want);
      if i == -1 then -1 else i + 1
  }

  // Which session row a lone or child row is for; a header is for none.
  function MapToSource(f: Filter, rows: seq<R.Row<string>>, row: int): int {
    if row < 0 || row >= |rows| || rows[row].group || rows[row].members == [] then -1
    else if 0 <= rows[row].members[0] < |f.toSource| then f.toSource[rows[row].members[0]]
    else -1
  }

  // Where a torrent is found: on its single row, else on the group that has it.
  function MapFromSource(f: Filter, rows: seq<R.Row<string>>, source: int): int {
    var p := ProxyRow(f.toSource, source);
    if p < 0 then -1
    else if OwnRow(rows, p) >= 0 then OwnRow(rows, p) else GroupRow(rows, p)
  }

  // The torrents of a row, as the session numbers them.
  function SourceRowsAt(f: Filter, rows: seq<R.Row<string>>, row: int): seq<int> {
    if row < 0 || row >= |rows| then [] else Sources(f.toSource, rows[row].members)
  }

  function Sources(toSource: seq<int>, ps: seq<int>): (r: seq<int>)
    ensures forall p :: p in ps && 0 <= p < |toSource| && toSource[p] >= 0 ==> toSource[p] in r
  {
    if ps == [] then []
    else
      (if 0 <= ps[0] < |toSource| && toSource[ps[0]] >= 0 then [toSource[ps[0]]] else []) + Sources(toSource, ps[1..])
  }

  // One session row per member, in the members' order.
  lemma {:induction false} SourcesExact(toSource: seq<int>, ps: seq<int>)
    requires forall k :: 0 <= k < |ps| ==> 0 <= ps[k] < |toSource| && toSource[ps[k]] >= 0
    ensures |Sources(toSource, ps)| == |ps|
    ensures forall k :: 0 <= k < |ps| ==> Sources(toSource, ps)[k] == toSource[ps[k]]
    decreases |ps|
  {
    if ps != [] {
      SourcesExact(toSource, ps[1..]);
    }
  }

  lemma {:induction false} SourcesNext(toSource: seq<int>, ps: seq<int>, p: int)
    ensures Sources(toSource, ps + [p])
            == Sources(toSource, ps) + if 0 <= p < |toSource| && toSource[p] >= 0 then [toSource[p]] else []
    decreases |ps|
  {
    if ps == [] {
      assert ps + [p] == [p] && [p][1..] == [];
    } else {
      assert (ps + [p])[1..] == ps[1..] + [p];
      SourcesNext(toSource, ps[1..], p);
    }
  }

  // A wanted row is the layout's row with a key on it.
  lemma WantedAt(f: Filter, expanded: set<string>, expandable: bool, i: nat)
    requires i < |Shape(f, expanded, expandable)|
    ensures i < |Wanted(f, expanded, expandable)|
    ensures var r, w := Shape(f, expanded, expandable)[i], Wanted(f, expanded, expandable)[i]; w == Keyed(r, w.key)
  {
    hide Shape, KeyAt;
  }

  lemma TopRow(f: Filter, expanded: set<string>, expandable: bool, p: nat) returns (i: nat)
    requires p < |f.members|
    ensures var rows := Wanted(f, expanded, expandable);
            i < |rows| && (IsOwnRow(rows[i], p) || IsGroupRow(rows[i], p))
  {
    var r := ShapeShows(f, expanded, expandable, p);
    hide Shape, Wanted;
    var shape := Shape(f, expanded, expandable);
    i :| 0 <= i < |shape| && shape[i] == r;
    WantedAt(f, expanded, expandable, i);
    KeyedShows(r, Wanted(f, expanded, expandable)[i].key, p, Keys(f.members));
    hide *;
  }

  lemma KeyedShows(r: Row, key: string, p: nat, k: seq<string>)
    requires RowShape(r, k) && p in r.members
    ensures IsOwnRow(Keyed(r, key), p) || IsGroupRow(Keyed(r, key), p)
  {
  }

  lemma OpenRow(f: Filter, expanded: set<string>, p: nat, g: nat) returns (j: nat)
    requires p < |f.members|
    requires var rows := Wanted(f, expanded, true);
             g < |rows| && IsGroupRow(rows[g], p) && rows[g].groupKey in expanded
    ensures var rows := Wanted(f, expanded, true); j < |rows| && IsOwnRow(rows[j], p)
  {
    assert |Wanted(f, expanded, true)| == |Shape(f, expanded, true)|;
    hide Shape, Wanted;
    var shape := Shape(f, expanded, true);
    WantedAt(f, expanded, true, g);
    var c := Row(shape[g].groupKey, [p], false, true);
    ShapeOpens(f, expanded, shape[g], p);
    j :| 0 <= j < |shape| && shape[j] == c;
    WantedAt(f, expanded, true, j);
  }

  // A group row has the key of every torrent it stands for.
  lemma GroupRowKey(f: Filter, expanded: set<string>, expandable: bool, g: nat, p: nat)
    requires var rows := Wanted(f, expanded, expandable); g < |rows| && IsGroupRow(rows[g], p)
    ensures p < |f.members| && Wanted(f, expanded, expandable)[g].groupKey == Keys(f.members)[p]
    ensures Wanted(f, expanded, expandable)[g].groupKey != ""
  {
    var shown := if expandable then expanded else {};
    assert |Wanted(f, expanded, expandable)| == |Shape(f, expanded, expandable)|;
    ShapeUpTo(f.members, Keys(f.members), shown, |f.members|);
    WantedAt(f, expanded, expandable, g);
    var r := Shape(f, expanded, expandable)[g];
    assert r in Shape(f, expanded, expandable) && RowShape(r, Keys(f.members));
    hide Wanted, Shape, RowsOf;
    var i :| 0 <= i < |r.members| && r.members[i] == p;
  }

  // Every session row the filter shows is found, on a row that stands for it;
  // and no hidden one is.
  lemma FoundWhereShown(f: Filter, expanded: set<string>, expandable: bool, source: int)
    requires FilterOk(f)
    ensures var rows := Wanted(f, expanded, expandable); var row := MapFromSource(f, rows, source);
            if source in f.toSource then 0 <= row < |rows| && source in SourceRowsAt(f, rows, row) else row == -1
  {
    var p := ProxyRow(f.toSource, source);
    if p >= 0 {
      var i := TopRow(f, expanded, expandable, p);
      hide Wanted;
      var rows := Wanted(f, expanded, expandable);
      var row := MapFromSource(f, rows, source);
      assert p in rows[row].members;
    }
  }

  // Where the list is expandable and p's group is open (or p has none), the
  // row found is p's own.
  lemma RevealedRow(f: Filter, expanded: set<string>, source: int)
    requires FilterOk(f) && source in f.toSource
    requires var rows := Wanted(f, expanded, true); var g := GroupRow(rows, ProxyRow(f.toSource, source));
             g >= 0 ==> rows[g].groupKey in expanded
    ensures var rows := Wanted(f, expanded, true);
            MapToSource(f, rows, MapFromSource(f, rows, source)) == source
  {
    hide Wanted, Sources;
    var rows := Wanted(f, expanded, true);
    var p := ProxyRow(f.toSource, source);
    var i := TopRow(f, expanded, true, p);
    var g := GroupRow(rows, p);
    if g >= 0 {
      i := OpenRow(f, expanded, p, g);
    }
    assert IsOwnRow(rows[i], p);
    assert OwnRow(rows, p) >= 0;
  }
}

module LibraryModel {
  import opened LibraryChanges
  import G = LibraryGroupsSpec
  import LibraryGroups
  import K = LibraryKeys
  import opened LibraryModelSpec
  import R = LibraryRowsSpec
  import opened LibraryRows

  // QHash::value with its default, and operator[] before the increment.
  function SeenCount(seen: map<string, nat>, base: string): nat { if base in seen then seen[base] else 0 }

  // `seen` has counted the torrent rows before i by their base key.
  ghost predicate Counted(seen: map<string, nat>, labels: seq<K.Label>, i: nat)
    requires i <= |labels|
  {
    forall hash: string :: SeenCount(seen, "t:" + hash) == K.Count(labels, K.Torrent(hash), i)
  }

  lemma CountedStart(labels: seq<K.Label>)
    ensures Counted(map[], labels, 0)
  {
  }

  lemma CountedNext(seen: map<string, nat>, labels: seq<K.Label>, i: nat)
    requires i < |labels| && Counted(seen, labels, i)
    ensures labels[i].Header? ==> Counted(seen, labels, i + 1)
    ensures labels[i].Torrent? ==>
              var base := "t:" + labels[i].hash;
              SeenCount(seen, base) == K.Count(labels, labels[i], i)
              && Counted(seen[base := SeenCount(seen, base) + 1], labels, i + 1)
  {
    if labels[i].Torrent? {
      var base := "t:" + labels[i].hash;
      var next := seen[base := SeenCount(seen, base) + 1];
      forall hash: string ensures SeenCount(next, "t:" + hash) == K.Count(labels, K.Torrent(hash), i + 1) {
        assert SeenCount(seen, "t:" + hash) == K.Count(labels, K.Torrent(hash), i);
        if hash != labels[i].hash {
          K.PrefixApart("t:", hash, labels[i].hash);
        }
      }
    }
  }

  // The key of the next row, and the counts after it.
  method NextKey(lr: G.Row, hashes: seq<string>, seen: map<string, nat>, ghost labels: seq<K.Label>, ghost i: nat)
    returns (key: string, seen': map<string, nat>)
    requires i < |labels| && labels[i] == LabelOf(lr, hashes) && Counted(seen, labels, i)
    ensures key == K.KeyAt(labels, i) && Counted(seen', labels, i + 1)
  {
    CountedNext(seen, labels, i);
    hide Counted, K.Count;
    seen' := seen;
    if lr.group {
      key := "g:" + lr.groupKey;
    } else {
      var hash := if lr.members != [] && 0 <= lr.members[0] < |hashes| then hashes[lr.members[0]] else "";
      var base := "t:" + hash;
      var dup := SeenCount(seen, base);
      seen' := seen[base := dup + 1];
      key := if dup != 0 then base + ("#" + G.Number(dup)) else base;
      KeyText(hash, dup);
    }
  }

  method ComputeKeyed(rows: seq<G.Row>, hashes: seq<string>) returns (out: seq<R.Row<string>>)
    ensures out == RowsOf(rows, hashes)
  {
    ghost var labels := LabelsOf(rows, hashes);
    var seen: map<string, nat> := map[];
    out := [];
    var i := 0;
    CountedStart(labels);
    hide Counted, K.KeyAt, LabelOf;
    while i < |rows|
      invariant 0 <= i <= |rows|
      invariant out == RowsOf(rows, hashes)[..i]
      invariant Counted(seen, labels, i)
    {
      var key;
      key, seen := NextKey(rows[i], hashes, seen, labels, i);
      RowsOfNext(rows, hashes, i);
      out := out + [Keyed(rows[i], key)];
      i := i + 1;
    }
    assert RowsOf(rows, hashes)[..|rows|] == RowsOf(rows, hashes);
  }

  lemma RowsOfNext(rows: seq<G.Row>, hashes: seq<string>, i: nat)
    requires i < |rows|
    ensures RowsOf(rows, hashes)[..i + 1] == RowsOf(rows, hashes)[..i] + [Keyed(rows[i], K.KeyAt(LabelsOf(rows, hashes), i))]
  {
    hide LabelOf, K.KeyAt, Keyed;
    var out := RowsOf(rows, hashes);
    assert out[..i + 1] == out[..i] + [out[i]];
  }

  lemma KeyText(hash: string, d: nat)
    ensures "t:" + (hash + K.Suffix(d)) == if d != 0 then ("t:" + hash) + ("#" + G.Number(d)) else "t:" + hash
  {
    assert hash + "" == hash;
    assert "t:" + (hash + ("#" + G.Number(d))) == ("t:" + hash) + ("#" + G.Number(d));
  }

  // p's group has the same key however many groups are open.
  lemma OpenedOnce(f: Filter, before: set<string>, after: set<string>, p: nat)
    ensures var g, h := GroupRow(Wanted(f, before, true), p), GroupRow(Wanted(f, after, true), p);
            g >= 0 && h >= 0 ==> Wanted(f, before, true)[g].groupKey == Wanted(f, after, true)[h].groupKey
  {
    var was, now := Wanted(f, before, true), Wanted(f, after, true);
    var g, h := GroupRow(was, p), GroupRow(now, p);
    if g >= 0 && h >= 0 {
      GroupRowKey(f, before, true, g, p);
      GroupRowKey(f, after, true, h, p);
    }
    hide *;
  }

  class QmlLibraryModel {
    const list: RowList<string>
    var filter: Filter
    var expanded: set<string>
    var expandable: bool

    // Between calls the rows are the computed ones.
    ghost predicate UpToDate()
      reads this, list
    {
      Showable(filter) && list.Valid() && list.rows == Wanted(filter, expanded, expandable)
    }

    constructor (f: Filter, open: set<string>)
      requires Showable(f)
      ensures UpToDate() && filter == f && expanded == open && expandable && fresh(list)
    {
      list := new RowList<string>();
      filter, expanded, expandable := f, open, true;
      new;
      var _ := Rebuild();
    }

    method ComputeRows() returns (next: seq<R.Row<string>>)
      ensures next == Wanted(filter, expanded, expandable)
    {
      var rows := LibraryGroups.ComputeLayout(filter.members, if expandable then expanded else {});
      next := ComputeKeyed(rows, filter.hashes);
    }

    // The rows become the computed ones; views can replay how, and keep their
    // places; the flag says whether any row came, went or moved.
    method Rebuild() returns (structural: bool)
      requires Showable(filter) && list.Valid()
      modifies list
      ensures UpToDate()
      ensures structural <==> R.KeysOf(old(list.rows)) != R.KeysOf(list.rows)
      ensures R.Followed(R.KeysOf(old(list.rows)), R.KeysOf(list.rows), old(list.views), list.views)
    {
      WantedDistinct(filter, expanded, expandable);
      hide R.Distinct, R.Followed, R.Explains, Wanted;
      var next := ComputeRows();
      ghost var said;
      structural, said := list.Rebuild(next);
    }

    // Rows inserted, removed or moved, a new layout, a reset: `f` is the filter
    // as it is then, whatever it was before.
    method FilterChanged(f: Filter) returns (structural: bool)
      requires Showable(f) && list.Valid()
      modifies this, list
      ensures UpToDate() && filter == f && expanded == old(expanded) && expandable == old(expandable)
      ensures structural <==> R.KeysOf(old(list.rows)) != R.KeysOf(list.rows)
    {
      filter := f;
      structural := Rebuild();
    }

    // The filter's dataChanged: its rows stay where they are, some of their
    // data is new, and `roles` says which, or nothing for all of it.
    method DataChanged(f: Filter, roles: set<Role>) returns (structural: bool)
      requires Showable(f) && list.Valid()
      modifies this, list
      ensures filter == f && expanded == old(expanded) && expandable == old(expandable)
      ensures Regroups(roles) ==> UpToDate()
      ensures !Regroups(roles) ==> !structural && list.rows == old(list.rows) && list.views == old(list.views)
      ensures old(UpToDate()) ==> (UpToDate() <==> KeepsUp(old(filter), f, roles, expanded, expandable))
      ensures old(UpToDate()) && Sent(roles) && Announced(old(filter), f, roles) ==> UpToDate()
    {
      structural := false;
      ghost var was := filter;
      filter := f;
      if Sent(roles) && Announced(was, f, roles) {
        SentSuffices(was, f, roles);
      }
      hide Wanted, Announced;
      if Regroups(roles) {
        structural := Rebuild();
      }
    }

    method SetExpandable(on: bool)
      requires Showable(filter) && list.Valid()
      modifies this, list
      ensures filter == old(filter) && expanded == old(expanded) && expandable == on
      ensures old(UpToDate()) || on != old(expandable) ==> UpToDate()
      ensures on == old(expandable) ==> list.rows == old(list.rows) && list.views == old(list.views)
    {
      if expandable == on {
        return;
      }
      expandable := on;
      var _ := Rebuild();
    }

    method SetExpanded(groupKey: string, open: bool)
      requires Showable(filter) && list.Valid()
      modifies this, list
      ensures filter == old(filter) && expandable == old(expandable)
      ensures old(UpToDate()) || expanded != old(expanded) ==> UpToDate()
      ensures expanded == old(expanded) ==> list.rows == old(list.rows) && list.views == old(list.views)
      ensures expanded == if groupKey == "" then old(expanded)
                          else if open then old(expanded) + {groupKey} else old(expanded) - {groupKey}
    {
      if groupKey == "" || (groupKey in expanded) == open {
        return;
      }
      if open {
        expanded := expanded + {groupKey};
      } else {
        expanded := expanded - {groupKey};
      }
      var _ := Rebuild();
    }

    method RowToSource(row: int) returns (source: int)
      ensures source == MapToSource(filter, list.rows, row)
      ensures row < 0 || row >= |list.rows| || list.rows[row].group ==> source == -1
    {
      if row < 0 || row >= |list.rows| || list.rows[row].group || list.rows[row].members == [] {
        return -1;
      }
      var p := list.rows[row].members[0];
      source := if 0 <= p < |filter.toSource| then filter.toSource[p] else -1;
    }

    method GroupRowOf(proxyRow: int) returns (row: int)
      ensures row == GroupRow(list.rows, proxyRow)
    {
      var i := 0;
      while i < |list.rows|
        invariant 0 <= i <= |list.rows|
        invariant forall j :: 0 <= j < i ==> !IsGroupRow(list.rows[j], proxyRow)
      {
        if list.rows[i].group && proxyRow in list.rows[i].members {
          return i;
        }
        i := i + 1;
      }
      row := -1;
    }

    method SourceToRow(source: int) returns (row: int)
      ensures row == MapFromSource(filter, list.rows, source)
    {
      var proxyRow := ProxyRow(filter.toSource, source);
      if proxyRow < 0 {
        return -1;
      }
      var i := 0;
      while i < |list.rows|
        invariant 0 <= i <= |list.rows|
        invariant forall j :: 0 <= j < i ==> !IsOwnRow(list.rows[j], proxyRow)
      {
        var r := list.rows[i];
        if !r.group && r.members != [] && r.members[0] == proxyRow {
          return i;
        }
        i := i + 1;
      }
      row := GroupRowOf(proxyRow);
    }

    method SourceRowsAt(row: int) returns (out: seq<int>)
      ensures out == LibraryModelSpec.SourceRowsAt(filter, list.rows, row)
    {
      out := [];
      if row < 0 || row >= |list.rows| {
        return;
      }
      var members := list.rows[row].members;
      for i := 0 to |members|
        invariant out == Sources(filter.toSource, members[..i])
      {
        var p := members[i];
        assert members[..i + 1] == members[..i] + [p];
        SourcesNext(filter.toSource, members[..i], p);
        if 0 <= p < |filter.toSource| {
          var s := filter.toSource[p];
          if s >= 0 {
            out := out + [s];
          }
        }
      }
      assert members[..|members|] == members;
    }

    // Makes a torrent visible and says where: in a list whose groups open, its
    // group is open afterwards and the row found is the torrent's.
    method RevealSource(source: int) returns (row: int)
      requires UpToDate()
      modifies this, list
      ensures UpToDate() && filter == old(filter) && expandable == old(expandable)
      ensures expanded == old(expanded)
              || (expandable && source in filter.toSource
                  && expanded == old(expanded) + {G.Keys(filter.members)[ProxyRow(filter.toSource, source)]})
      ensures source !in filter.toSource ==> row == -1 && expanded == old(expanded)
      ensures source in filter.toSource && expandable ==> MapToSource(filter, list.rows, row) == source
      ensures source in filter.toSource ==>
                0 <= row < |list.rows| && source in LibraryModelSpec.SourceRowsAt(filter, list.rows, row)
    {
      var proxyRow := ProxyRow(filter.toSource, source);
      FoundWhereShown(filter, expanded, expandable, source);
      if proxyRow < 0 {
        return -1;
      }
      var g := GroupRowOf(proxyRow);
      hide R.Distinct;
      if g >= 0 && !expandable {
        return g;
      }
      if g >= 0 && list.rows[g].groupKey !in expanded {
        GroupRowKey(filter, expanded, expandable, g, proxyRow);
        SetExpanded(list.rows[g].groupKey, true);
      }
      row := SourceToRow(source);
      FoundWhereShown(filter, expanded, expandable, source);
      if expandable {
        OpenedOnce(filter, old(expanded), expanded, proxyRow);
        RevealedRow(filter, expanded, source);
      }
    }

    method RowKey(row: int) returns (key: string)
      ensures key == if 0 <= row < |list.rows| then list.rows[row].key else ""
    {
      key := if 0 <= row < |list.rows| then list.rows[row].key else "";
    }

    method RowForKey(key: string) returns (row: int)
      ensures -1 <= row < |list.rows|
      ensures row >= 0 ==> list.rows[row].key == key && forall j :: 0 <= j < row ==> list.rows[j].key != key
      ensures row == -1 ==> forall j :: 0 <= j < |list.rows| ==> list.rows[j].key != key
    {
      var i := 0;
      while i < |list.rows|
        invariant 0 <= i <= |list.rows|
        invariant forall j :: 0 <= j < i ==> list.rows[j].key != key
      {
        if list.rows[i].key == key {
          return i;
        }
        i := i + 1;
      }
      row := -1;
    }

    // A row's key finds the row again.
    method KeyFindsRow(row: nat) returns (found: int)
      requires UpToDate() && row < |list.rows|
      ensures found == row
    {
      var key := RowKey(row);
      found := RowForKey(key);
      assert R.KeysOf(list.rows)[found] == R.KeysOf(list.rows)[row];
    }
  }
}
