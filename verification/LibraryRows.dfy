// A list of keyed rows becomes another one: what is unwanted goes, the rest is
// put in order, what is new comes in. Views hear of each step, and the indexes
// they hold follow their rows.
// Source: src/bridges/qmllibrarymodel.cpp.
module LibraryRowsSpec {
  datatype Row<K> = Row(key: K, groupKey: string, members: seq<int>, group: bool, child: bool)

  // What a view is told. `order[j]` is the old place of the row now at j.
  datatype Note<K> =
    | Removed(first: nat, last: nat)
    | Reordered(order: seq<nat>)
    | Inserted(first: nat, keys: seq<K>)

  function KeysOf<K>(rows: seq<Row<K>>): (r: seq<K>)
    ensures |r| == |rows| && forall i :: 0 <= i < |r| ==> r[i] == rows[i].key
  {
    seq(|rows|, i requires 0 <= i < |rows| => rows[i].key)
  }

  predicate Distinct<T(==)>(s: seq<T>) { forall i, j :: 0 <= i < j < |s| ==> s[i] != s[j] }

  // ---- What a view does with the notifications ----

  predicate Fits<K>(keys: seq<K>, n: Note<K>) {
    match n
    case Removed(first, last) => first <= last < |keys|
    case Reordered(order) => |order| == |keys| && Distinct(order) && forall j :: 0 <= j < |order| ==> order[j] < |keys|
    case Inserted(first, added) => first <= |keys| && added != []
  }

  function Replay<K>(keys: seq<K>, n: Note<K>): seq<K>
    requires Fits(keys, n)
  {
    match n
    case Removed(first, last) => keys[..first] + keys[last + 1..]
    case Reordered(order) => seq(|order|, j requires 0 <= j < |order| => keys[order[j]])
    case Inserted(first, added) => keys[..first] + added + keys[first..]
  }

  // A row that stays is never removed and put back.
  predicate Gentle<K(==)>(keys: seq<K>, n: Note<K>, before: seq<K>, after: seq<K>)
    requires Fits(keys, n)
  {
    match n
    case Removed(first, last) => forall i :: first <= i <= last ==> keys[i] !in after
    case Reordered(_) => true
    case Inserted(_, added) => forall k :: k in added ==> k !in before
  }

  // Replaying `notes` on `a` is possible step by step, gentle, and ends in `b`.
  predicate Explains<K(==)>(a: seq<K>, notes: seq<Note<K>>, b: seq<K>, before: seq<K>, after: seq<K>)
    decreases |notes|
  {
    if notes == [] then a == b
    else Fits(a, notes[0]) && Gentle(a, notes[0], before, after)
         && Explains(Replay(a, notes[0]), notes[1..], b, before, after)
  }

  lemma {:induction false} ExplainsMore<K>(a: seq<K>, notes: seq<Note<K>>, b: seq<K>, n: Note<K>,
      before: seq<K>, after: seq<K>)
    requires Explains(a, notes, b, before, after) && Fits(b, n) && Gentle(b, n, before, after)
    ensures Explains(a, notes + [n], Replay(b, n), before, after)
    decreases |notes|
  {
    hide Fits, Gentle, Replay;
    if notes == [] {
      assert (notes + [n])[1..] == [];
    } else {
      assert (notes + [n])[1..] == notes[1..] + [n];
      ExplainsMore(Replay(a, notes[0]), notes[1..], b, n, before, after);
    }
  }

  // ---- Where a persistent index goes ----

  function IndexOf<K(==)>(s: seq<K>, k: K): (i: nat)
    ensures i <= |s| && (i < |s| ==> s[i] == k) && (i < |s| <==> k in s)
    ensures forall j :: 0 <= j < i ==> s[j] != k
  {
    if s == [] || s[0] == k then 0 else 1 + IndexOf(s[1..], k)
  }

  // An index into `a`, followed by its key into `b`; -1 when the row is gone.
  function Follow<K(==)>(a: seq<K>, b: seq<K>, v: int): int {
    if 0 <= v < |a| && a[v] in b then IndexOf(b, a[v]) else -1
  }

  lemma FollowAt<K>(b: seq<K>, k: K, i: nat)
    requires Distinct(b) && i < |b| && b[i] == k
    ensures IndexOf(b, k) == i
  {
  }

  // Following by way of `b` is following straight on, when `b` has every row
  // the two ends share.
  lemma FollowThrough<K>(a: seq<K>, b: seq<K>, c: seq<K>, v: int)
    requires Distinct(b) && forall k :: k in a && k in c ==> k in b
    ensures Follow(b, c, Follow(a, b, v)) == Follow(a, c, v)
  {
    if 0 <= v < |a| && a[v] in c {
      assert a[v] in a;
    }
  }

  function AfterRemove(v: int, first: nat, last: nat): int {
    if v < first then v else if v <= last then -1 else v - (last - first + 1)
  }

  lemma FollowRemove<K>(b: seq<K>, first: nat, last: nat, v: int)
    requires Distinct(b) && first <= last < |b| && -1 <= v < |b|
    ensures var c := b[..first] + b[last + 1..]; Distinct(c) && Follow(b, c, v) == AfterRemove(v, first, last)
  {
    var c := b[..first] + b[last + 1..];
    if 0 <= v < first {
      FollowAt(c, b[v], v);
    } else if last < v {
      FollowAt(c, b[v], v - (last - first + 1));
    }
  }

  function AfterInsert(v: int, first: nat, count: nat): int {
    if v < first then v else v + count
  }

  lemma FollowInsert<K>(b: seq<K>, first: nat, added: seq<K>, v: int)
    requires first <= |b| && Distinct(b[..first] + added + b[first..]) && -1 <= v < |b|
    ensures Follow(b, b[..first] + added + b[first..], v) == AfterInsert(v, first, |added|)
  {
    var c := b[..first] + added + b[first..];
    if 0 <= v < first {
      FollowAt(c, b[v], v);
    } else if first <= v {
      assert c[v + |added|] == b[v];
      FollowAt(c, b[v], v + |added|);
    }
  }

  // Every persistent index of `was` followed its own key from `a` to `b`.
  predicate Followed<K(==)>(a: seq<K>, b: seq<K>, was: seq<int>, now: seq<int>) {
    |now| == |was| && forall v :: 0 <= v < |was| ==> now[v] == Follow(a, b, was[v])
  }

  predicate Within(views: seq<int>, n: nat) { forall v :: 0 <= v < |views| ==> -1 <= views[v] < n }

  lemma FollowedWithin<K>(a: seq<K>, b: seq<K>, was: seq<int>, now: seq<int>)
    requires Followed(a, b, was, now)
    ensures Within(now, |b|)
  {
  }

  function RemoveViews(views: seq<int>, first: nat, last: nat): (r: seq<int>)
    ensures |r| == |views| && forall v :: 0 <= v < |r| ==> r[v] == AfterRemove(views[v], first, last)
  {
    seq(|views|, v requires 0 <= v < |views| => AfterRemove(views[v], first, last))
  }

  function InsertViews(views: seq<int>, first: nat, count: nat): (r: seq<int>)
    ensures |r| == |views| && forall v :: 0 <= v < |r| ==> r[v] == AfterInsert(views[v], first, count)
  {
    seq(|views|, v requires 0 <= v < |views| => AfterInsert(views[v], first, count))
  }

  lemma RemovedFollowed<K>(keys: seq<K>, first: nat, last: nat, views: seq<int>)
    requires Distinct(keys) && first <= last < |keys| && Within(views, |keys|)
    ensures Distinct(keys[..first] + keys[last + 1..])
    ensures Followed(keys, keys[..first] + keys[last + 1..], views, RemoveViews(views, first, last))
  {
    FollowRemove(keys, first, last, -1);
    forall v | 0 <= v < |views|
      ensures Follow(keys, keys[..first] + keys[last + 1..], views[v]) == AfterRemove(views[v], first, last)
    {
      FollowRemove(keys, first, last, views[v]);
    }
  }

  lemma InsertedFollowed<K>(keys: seq<K>, first: nat, added: seq<K>, views: seq<int>)
    requires first <= |keys| && Distinct(keys[..first] + added + keys[first..]) && Within(views, |keys|)
    ensures Followed(keys, keys[..first] + added + keys[first..], views, InsertViews(views, first, |added|))
  {
    forall v | 0 <= v < |views|
      ensures Follow(keys, keys[..first] + added + keys[first..], views[v]) == AfterInsert(views[v], first, |added|)
    {
      FollowInsert(keys, first, added, views[v]);
    }
  }

  // ---- The three phases, on rows ----

  // The rows whose keys stay, in their old order.
  function Keep<K(==)>(rows: seq<Row<K>>, stay: seq<K>): seq<Row<K>> {
    if rows == [] then []
    else (if rows[0].key in stay then [rows[0]] else []) + Keep(rows[1..], stay)
  }

  lemma {:induction false} KeepIs<K(!new)>(rows: seq<Row<K>>, stay: seq<K>)
    ensures forall k :: k in KeysOf(Keep(rows, stay)) <==> k in KeysOf(rows) && k in stay
  {
    if rows != [] {
      KeepIs(rows[1..], stay);
      KeysOfCons(rows[0], rows[1..]);
      KeysOfCons(rows[0], Keep(rows[1..], stay));
      assert [rows[0]] + rows[1..] == rows;
      assert [] + Keep(rows[1..], stay) == Keep(rows[1..], stay);
      hide KeysOf;
    }
  }

  lemma KeysOfCons<K>(r: Row<K>, rows: seq<Row<K>>)
    ensures KeysOf([r] + rows) == [r.key] + KeysOf(rows)
  {
  }

  // Nothing goes exactly when every key stays.
  lemma {:induction false} KeepAll<K(!new)>(rows: seq<Row<K>>, stay: seq<K>)
    ensures |Keep(rows, stay)| <= |rows|
    ensures (forall i :: 0 <= i < |rows| ==> rows[i].key in stay) ==> Keep(rows, stay) == rows
  {
    if rows != [] {
      KeepAll(rows[1..], stay);
      assert [rows[0]] + rows[1..] == rows;
      assert forall i :: 0 <= i < |rows[1..]| ==> rows[1..][i] == rows[i + 1];
    }
  }

  // The wanted keys that are present, in the wanted order.
  function Among<K(==)>(want: seq<K>, present: seq<K>): seq<K> {
    if want == [] then []
    else (if want[0] in present then [want[0]] else []) + Among(want[1..], present)
  }

  lemma {:induction false} AmongIs<K(!new)>(want: seq<K>, present: seq<K>)
    ensures forall k :: k in Among(want, present) <==> k in want && k in present
  {
    if want != [] {
      AmongIs(want[1..], present);
      assert want == [want[0]] + want[1..];
    }
  }

  predicate Increasing(s: seq<int>) { forall i, j :: 0 <= i < j < |s| ==> s[i] < s[j] }

  // The wanted position of each key.
  function Ranks<K(==)>(keys: seq<K>, want: seq<K>): (r: seq<int>)
    ensures |r| == |keys| && forall i :: 0 <= i < |r| ==> r[i] == IndexOf(want, keys[i])
  {
    seq(|keys|, i requires 0 <= i < |keys| => IndexOf(want, keys[i]))
  }

  // Keys in the order `want` gives them.
  predicate InOrder<K(==)>(keys: seq<K>, want: seq<K>) { Increasing(Ranks(keys, want)) }

  lemma {:induction false} AmongIsUnique<K(!new)>(keys: seq<K>, want: seq<K>)
    requires Distinct(want) && InOrder(keys, want) && forall k :: k in keys ==> k in want
    ensures Among(want, keys) == keys
  {
    hide InOrder;
    if keys == [] {
      AmongNothing(want);
    } else {
      assert keys[0] in keys;
      if keys[0] == want[0] {
        InOrderTail(keys, want);
        AmongIsUnique(keys[1..], want[1..]);
        AmongSkips(want[1..], keys[0], keys[1..]);
        assert [keys[0]] + keys[1..] == keys;
      } else {
        InOrderLater(keys, want);
        AmongIsUnique(keys, want[1..]);
      }
    }
  }

  lemma {:induction false} AmongNothing<K(!new)>(want: seq<K>)
    ensures Among(want, []) == []
  {
    if want != [] {
      AmongNothing(want[1..]);
    }
  }

  lemma InOrderTail<K(!new)>(keys: seq<K>, want: seq<K>)
    requires want != [] && keys != [] && InOrder(keys, want) && keys[0] == want[0]
    requires forall k :: k in keys ==> k in want
    ensures InOrder(keys[1..], want[1..]) && forall k :: k in keys[1..] ==> k in want[1..]
  {
    var tail := keys[1..];
    forall i | 0 <= i < |tail| ensures IndexOf(want, tail[i]) == 1 + IndexOf(want[1..], tail[i]) && tail[i] in want[1..] {
      assert keys[i + 1] in keys;
      assert Ranks(keys, want)[0] < Ranks(keys, want)[i + 1];
    }
    forall i, j | 0 <= i < j < |tail| ensures Ranks(tail, want[1..])[i] < Ranks(tail, want[1..])[j] {
      assert Ranks(keys, want)[i + 1] < Ranks(keys, want)[j + 1];
    }
  }

  lemma InOrderLater<K(!new)>(keys: seq<K>, want: seq<K>)
    requires want != [] && keys != [] && InOrder(keys, want) && keys[0] != want[0]
    requires forall k :: k in keys ==> k in want
    ensures InOrder(keys, want[1..]) && forall k :: k in keys ==> k in want[1..]
    ensures want[0] !in keys
  {
    forall i | 0 <= i < |keys| ensures IndexOf(want, keys[i]) == 1 + IndexOf(want[1..], keys[i]) &&
        keys[i] in want[1..] && keys[i] != want[0] {
      assert keys[i] in keys && keys[0] in keys;
      assert i > 0 ==> Ranks(keys, want)[0] < Ranks(keys, want)[i];
    }
    forall i, j | 0 <= i < j < |keys| ensures Ranks(keys, want[1..])[i] < Ranks(keys, want[1..])[j] {
      assert Ranks(keys, want)[i] < Ranks(keys, want)[j];
    }
  }

  // A key that is not wanted makes no difference.
  lemma {:induction false} AmongSkips<K(!new)>(want: seq<K>, k: K, present: seq<K>)
    requires k !in want
    ensures Among(want, [k] + present) == Among(want, present)
  {
    if want != [] {
      AmongSkips(want[1..], k, present);
    }
  }

  lemma {:induction false} ExplainsAppend<K>(a: seq<K>, ns: seq<Note<K>>, b: seq<K>, ms: seq<Note<K>>,
      c: seq<K>, before: seq<K>, after: seq<K>)
    requires Explains(a, ns, b, before, after) && Explains(b, ms, c, before, after)
    ensures Explains(a, ns + ms, c, before, after)
    decreases |ns|
  {
    hide Fits, Gentle, Replay;
    if ns == [] {
      assert ns + ms == ms;
    } else {
      assert (ns + ms)[1..] == ns[1..] + ms;
      ExplainsAppend(Replay(a, ns[0]), ns[1..], b, ms, c, before, after);
    }
  }

  lemma {:induction false} KeepAppend<K(!new)>(a: seq<Row<K>>, b: seq<Row<K>>, stay: seq<K>)
    ensures Keep(a + b, stay) == Keep(a, stay) + Keep(b, stay)
  {
    if a == [] {
      assert a + b == b;
    } else {
      assert (a + b)[1..] == a[1..] + b;
      KeepAppend(a[1..], b, stay);
      var head := if a[0].key in stay then [a[0]] else [];
      assert head + (Keep(a[1..], stay) + Keep(b, stay)) == (head + Keep(a[1..], stay)) + Keep(b, stay);
    }
  }

  lemma {:induction false} KeepNone<K(!new)>(rows: seq<Row<K>>, stay: seq<K>)
    requires forall i :: 0 <= i < |rows| ==> rows[i].key !in stay
    ensures Keep(rows, stay) == []
  {
    if rows != [] {
      KeepNone(rows[1..], stay);
    }
  }

  // A run of rows that go, before rows already looked at.
  lemma KeepSkipsRun<K(!new)>(rows: seq<Row<K>>, first: nat, past: nat, stay: seq<K>)
    requires first <= past <= |rows| && forall j :: first <= j < past ==> rows[j].key !in stay
    ensures Keep(rows[first..], stay) == Keep(rows[past..], stay)
  {
    assert rows[first..] == rows[first..past] + rows[past..];
    KeepAppend(rows[first..past], rows[past..], stay);
    KeepNone(rows[first..past], stay);
  }

  lemma {:induction false} AmongAfter<K(!new)>(want: seq<K>, present: seq<K>, j: nat, end: nat)
    requires j <= end <= |want| && forall i :: j <= i < end ==> want[i] !in present
    ensures Among(want[j..], present) == Among(want[end..], present)
    decreases end - j
  {
    if j < end {
      assert want[j..][1..] == want[j + 1..];
      AmongAfter(want, present, j + 1, end);
    }
  }

  lemma {:induction false} AmongDistinct<K(!new)>(want: seq<K>, present: seq<K>)
    requires Distinct(want)
    ensures Distinct(Among(want, present))
  {
    if want != [] {
      AmongDistinct(want[1..], present);
      AmongIs(want[1..], present);
    }
  }

  // ---- std::sort by the target position ----

  // QHash::value with its default.
  function Rank<K(==)>(target: map<K, int>, k: K): int { if k in target then target[k] else 0 }

  function RanksBy<K(==)>(keys: seq<K>, target: map<K, int>): (r: seq<int>)
    ensures |r| == |keys| && forall i :: 0 <= i < |r| ==> r[i] == Rank(target, keys[i])
  {
    seq(|keys|, i requires 0 <= i < |keys| => Rank(target, keys[i]))
  }

  function InsertRow<K(==)>(rows: seq<Row<K>>, r: Row<K>, target: map<K, int>): (s: seq<Row<K>>)
    ensures multiset(s) == multiset(rows) + multiset{r}
  {
    if rows == [] then [r]
    else if Rank(target, r.key) < Rank(target, rows[0].key) then [r] + rows
    else
      assert rows == [rows[0]] + rows[1..];
      [rows[0]] + InsertRow(rows[1..], r, target)
  }

  function SortRows<K(==)>(rows: seq<Row<K>>, target: map<K, int>): (s: seq<Row<K>>)
    ensures multiset(s) == multiset(rows)
  {
    if rows == [] then []
    else
      assert rows == [rows[0]] + rows[1..];
      InsertRow(SortRows(rows[1..], target), rows[0], target)
  }

  function InsertInt(s: seq<int>, x: int): seq<int> {
    if s == [] then [x] else if x < s[0] then [x] + s else [s[0]] + InsertInt(s[1..], x)
  }

  lemma {:induction false} InsertIntIncreases(s: seq<int>, x: int)
    requires Increasing(s) && x !in s
    ensures Increasing(InsertInt(s, x)) && forall y :: y in InsertInt(s, x) <==> y == x || y in s
  {
    if s != [] && x >= s[0] {
      InsertIntIncreases(s[1..], x);
      var t := InsertInt(s[1..], x);
      forall j | 0 <= j < |t| ensures s[0] < t[j] {
        assert t[j] in t;
        assert t[j] == x || t[j] in s[1..];
      }
    }
  }

  lemma RanksCons<K(!new)>(r: Row<K>, rows: seq<Row<K>>, target: map<K, int>)
    ensures RanksBy(KeysOf([r] + rows), target) == [Rank(target, r.key)] + RanksBy(KeysOf(rows), target)
  {
  }

  lemma {:induction false} InsertRowRanks<K(!new)>(rows: seq<Row<K>>, r: Row<K>, target: map<K, int>)
    ensures RanksBy(KeysOf(InsertRow(rows, r, target)), target) == InsertInt(RanksBy(KeysOf(rows), target),
        Rank(target, r.key))
  {
    hide Rank;
    RanksCons(r, rows, target);
    if rows == [] {
      assert [r] + rows == [r];
    } else {
      InsertRowRanks(rows[1..], r, target);
      RanksCons(rows[0], rows[1..], target);
      assert [rows[0]] + rows[1..] == rows;
      RanksCons(rows[0], InsertRow(rows[1..], r, target), target);
      assert RanksBy(KeysOf(rows), target)[1..] == RanksBy(KeysOf(rows[1..]), target);
      hide RanksBy, KeysOf;
    }
  }

  lemma RankApart<K(!new)>(keys: seq<K>, k: K, target: map<K, int>, want: seq<K>)
    requires Targets(target, want) && k in want && k !in keys && forall x :: x in keys ==> x in want
    ensures Rank(target, k) !in RanksBy(keys, target)
  {
    forall i | 0 <= i < |keys| ensures RanksBy(keys, target)[i] != Rank(target, k) {
      assert keys[i] in keys;
    }
  }

  ghost predicate SameKeys<K(!new)>(a: seq<K>, b: seq<K>) { forall k :: k in a <==> k in b }

  ghost predicate AllIn<K(!new)>(a: seq<K>, b: seq<K>) { forall k :: k in a ==> k in b }

  lemma SortedKeys<K(!new)>(rows: seq<Row<K>>, target: map<K, int>)
    ensures SameKeys(KeysOf(SortRows(rows, target)), KeysOf(rows))
    ensures |SortRows(rows, target)| == |rows|
  {
    var s := SortRows(rows, target);
    assert |multiset(s)| == |s| && |multiset(rows)| == |rows|;
    hide SortRows;
    KeysOfSubset(s, rows);
    KeysOfSubset(rows, s);
  }

  lemma {:induction false} SortRowsOrders<K(!new)>(rows: seq<Row<K>>, target: map<K, int>, want: seq<K>)
    requires Targets(target, want)
    requires Distinct(KeysOf(rows)) && forall k :: k in KeysOf(rows) ==> k in want
    ensures Increasing(RanksBy(KeysOf(SortRows(rows, target)), target))
  {
    if rows != [] {
      var keys := KeysOf(rows);
      assert KeysOf(rows[1..]) == keys[1..];
      forall i | 1 <= i < |keys| ensures keys[i] != keys[0] {}
      assert keys[0] in keys && forall k :: k in keys[1..] ==> k in keys;
      SortRowsOrders(rows[1..], target, want);
      SortedKeys(rows[1..], target);
      var t := SortRows(rows[1..], target);
      RankApart(KeysOf(t), rows[0].key, target, want);
      InsertRowRanks(t, rows[0], target);
      InsertIntIncreases(RanksBy(KeysOf(t), target), Rank(target, rows[0].key));
    }
  }

  // The place each sorted row comes from.
  function OrderOf<K(==)>(was: seq<K>, now: seq<K>): (order: seq<nat>)
    ensures |order| == |now| && forall j :: 0 <= j < |now| ==> order[j] == IndexOf(was, now[j])
  {
    seq(|now|, j requires 0 <= j < |now| => IndexOf(was, now[j]))
  }

  // Views told `said` about a list going from `a` to `b` can replay it, lose
  // no row that stays, and keep every persistent index on its own key.
  predicate Told<K(==)>(a: seq<K>, b: seq<K>, said: seq<Note<K>>, before: seq<K>, after: seq<K>, was: seq<int>,
      now: seq<int>) {
    Explains(a, said, b, before, after) && Followed(a, b, was, now)
  }

  lemma ToldRemoved<K(!new)>(a: seq<K>, b: seq<K>, said: seq<Note<K>>, before: seq<K>, after: seq<K>, first: nat, last: nat,
                             v0: seq<int>, v1: seq<int>, v2: seq<int>, c: seq<K>)
    requires Told(a, b, said, before, after, v0, v1) && Distinct(b)
    requires first <= last < |b| && (forall i :: first <= i <= last ==> b[i] !in after)
    requires c == b[..first] + b[last + 1..] && Followed(b, c, v1, v2)
    ensures Told(a, c, said + [Removed(first, last)], before, after, v0, v2)
  {
    ExplainsMore(a, said, b, Removed(first, last), before, after);
  }

  // `at` holds the places of the first i rows.
  ghost predicate Places<K(!new)>(at: map<K, int>, list: seq<Row<K>>, i: nat)
    requires i <= |list|
  {
    && (forall k :: k in at ==> 0 <= at[k] < i && list[at[k]].key == k)
    && (forall j :: 0 <= j < i ==> list[j].key in at)
  }

  lemma {:induction false} StepsIncrease(s: seq<int>)
    requires forall i :: 1 <= i < |s| ==> s[i - 1] < s[i]
    ensures Increasing(s)
  {
    if s != [] {
      StepsIncrease(s[..|s| - 1]);
      forall i | 0 <= i < |s| - 1 ensures s[i] < s[|s| - 1] {
        assert s[|s| - 2] < s[|s| - 1];
        assert i < |s| - 2 ==> s[..|s| - 1][i] < s[..|s| - 1][|s| - 2];
      }
      forall i, j | 0 <= i < j < |s| ensures s[i] < s[j] {
        assert j < |s| - 1 ==> s[..|s| - 1][i] < s[..|s| - 1][j];
      }
    }
  }

  // Checking neighbours decides the order, as keys are distinct.
  lemma OrderDecided<K(!new)>(keys: seq<K>, target: map<K, int>, want: seq<K>)
    requires Targets(target, want) && Distinct(keys) && AllIn(keys, want)
    ensures InOrder(keys, want) <==> forall i :: 1 <= i < |keys| ==> Rank(target, keys[i - 1]) <= Rank(target, keys[i])
  {
    var r := RanksBy(keys, target);
    if forall i :: 1 <= i < |keys| ==> Rank(target, keys[i - 1]) <= Rank(target, keys[i]) {
      forall i | 1 <= i < |r| ensures r[i - 1] < r[i] {
        assert keys[i - 1] in keys && keys[i] in keys && keys[i - 1] != keys[i];
        assert r[i - 1] == Ranks(keys, want)[i - 1] && r[i] == Ranks(keys, want)[i];
      }
      StepsIncrease(r);
    }
    if InOrder(keys, want) {
      forall i | 1 <= i < |keys| ensures Rank(target, keys[i - 1]) <= Rank(target, keys[i]) {
        assert r[i - 1] < r[i];
      }
    }
  }

  lemma KeysOfSubset<K(!new)>(a: seq<Row<K>>, b: seq<Row<K>>)
    requires multiset(a) == multiset(b)
    ensures AllIn(KeysOf(a), KeysOf(b))
  {
    forall k | k in KeysOf(a) ensures k in KeysOf(b) {
      var i :| 0 <= i < |a| && KeysOf(a)[i] == k;
      assert a[i] in multiset(a);
      var j :| 0 <= j < |b| && b[j] == a[i];
      assert KeysOf(b)[j] == k;
    }
  }

  // What sorting makes of the list.
  lemma Sorting<K(!new)>(rows: seq<Row<K>>, target: map<K, int>, want: seq<K>)
    requires Targets(target, want) && Distinct(KeysOf(rows)) && AllIn(KeysOf(rows), want)
    ensures var s := SortRows(rows, target);
            && InOrder(KeysOf(s), want) && Distinct(KeysOf(s))
            && |s| == |rows| && SameKeys(KeysOf(s), KeysOf(rows))
  {
    SortRowsOrders(rows, target, want);
    SortedKeys(rows, target);
  }

  lemma ToldReordered<K(!new)>(a: seq<K>, b: seq<K>, before: seq<K>, after: seq<K>, was: seq<int>, now: seq<int>)
    requires Distinct(b) && |a| == |b| && SameKeys(b, a) && Followed(a, b, was, now)
    ensures Told(a, b, [Reordered(OrderOf(a, b))], before, after, was, now)
  {
    var n := Reordered(OrderOf(a, b));
    assert [n][1..] == [];
    assert Explains(Replay(a, n), [], b, before, after);
  }

  lemma ToldThen<K(!new)>(a: seq<K>, b: seq<K>, c: seq<K>, ns: seq<Note<K>>, ms: seq<Note<K>>, before: seq<K>, after: seq<K>,
                          v0: seq<int>, v1: seq<int>, v2: seq<int>)
    requires Told(a, b, ns, before, after, v0, v1) && Told(b, c, ms, before, after, v1, v2)
    requires Distinct(b) && forall k :: k in a && k in c ==> k in b
    ensures Told(a, c, ns + ms, before, after, v0, v2)
  {
    ExplainsAppend(a, ns, b, ms, c, before, after);
  }

  // The hash of wanted keys and their places.
  ghost predicate Targets<K(!new)>(target: map<K, int>, want: seq<K>) {
    && (forall k :: k in target ==> k in want && target[k] == IndexOf(want, k))
    && (forall i :: 0 <= i < |want| ==> want[i] in target)
  }

  // The list while rows after i are done: the rows up to i as they were, and
  // what is kept of the rest.
  function DoneAfter<K(==)>(start: seq<Row<K>>, i: int, stay: seq<K>): seq<Row<K>>
    requires -1 <= i < |start|
  {
    start[..i + 1] + Keep(start[i + 1..], stay)
  }

  lemma DoneOne<K(!new)>(start: seq<Row<K>>, i: nat, stay: seq<K>)
    requires i < |start| && start[i].key in stay
    ensures DoneAfter(start, i - 1, stay) == DoneAfter(start, i, stay)
  {
    assert start[i..][1..] == start[i + 1..];
    assert start[..i + 1] == start[..i] + [start[i]];
  }

  lemma DoneRun<K(!new)>(start: seq<Row<K>>, first: nat, last: nat, stay: seq<K>)
    requires first <= last < |start| && forall j :: first <= j <= last ==> start[j].key !in stay
    ensures var rows := DoneAfter(start, last, stay);
            rows[..first] + rows[last + 1..] == DoneAfter(start, first - 1, stay)
  {
    KeepSkipsRun(start, first, last + 1, stay);
    var rest := Keep(start[last + 1..], stay);
    var rows := start[..last + 1] + rest;
    assert rows[last + 1..] == rest;
    assert rows[..first] == start[..first];
  }

  lemma DoneAt<K(!new)>(start: seq<Row<K>>, i: nat, stay: seq<K>)
    requires i < |start|
    ensures i < |DoneAfter(start, i, stay)| && forall j :: 0 <= j <= i ==> DoneAfter(start, i, stay)[j] == start[j]
  {
  }

  lemma DoneEnds<K(!new)>(start: seq<Row<K>>, stay: seq<K>)
    ensures DoneAfter(start, |start| - 1, stay) == start
    ensures start != [] ==> DoneAfter(start, -1, stay) == Keep(start, stay)
    ensures start == [] ==> Keep(start, stay) == []
  {
    assert start[0..] == start && start[..|start|] == start && start[|start|..] == [];
  }

  // ---- The third phase ----

  // The keys while positions before j are done: the wanted ones up to there,
  // then those of the rest that were present all along.
  function HalfKeys<K(==)>(want: seq<K>, j: nat, present: seq<K>): seq<K>
    requires j <= |want|
  {
    want[..j] + Among(want[j..], present)
  }

  lemma HalfStep<K(!new)>(want: seq<K>, j: nat, present: seq<K>)
    requires j < |want| && want[j] in present
    ensures HalfKeys(want, j + 1, present) == HalfKeys(want, j, present)
    ensures j < |HalfKeys(want, j, present)| && HalfKeys(want, j, present)[j] == want[j]
  {
    assert want[j..][1..] == want[j + 1..];
    assert want[..j + 1] == want[..j] + [want[j]];
  }

  lemma HalfRun<K(!new)>(want: seq<K>, j: nat, end: nat, present: seq<K>)
    requires j <= end <= |want| && forall i :: j <= i < end ==> want[i] !in present
    ensures var b := HalfKeys(want, j, present);
            j <= |b| && HalfKeys(want, end, present) == b[..j] + want[j..end] + b[j..]
  {
    AmongAfter(want, present, j, end);
    var b := HalfKeys(want, j, present);
    assert b[..j] == want[..j] && b[j..] == Among(want[j..], present);
    assert want[..end] == want[..j] + want[j..end];
  }

  lemma HalfDistinct<K(!new)>(want: seq<K>, j: nat, present: seq<K>)
    requires j <= |want| && Distinct(want)
    ensures Distinct(HalfKeys(want, j, present))
  {
    var rest := Among(want[j..], present);
    AmongDistinct(want[j..], present);
    AmongIs(want[j..], present);
    forall i, k | 0 <= i < j && 0 <= k < |rest| ensures want[i] != rest[k] {
      assert rest[k] in rest;
      var m :| 0 <= m < |want[j..]| && want[j..][m] == rest[k];
      assert want[j + m] == rest[k];
    }
  }

  // Rows that are new are new: no view ever had one of them.
  ghost predicate Strangers<K(!new)>(want: seq<K>, present: seq<K>, before: seq<K>) {
    forall k :: k in want && k !in present ==> k !in before
  }

  lemma ToldInserted<K(!new)>(a: seq<K>, b: seq<K>, c: seq<K>, said: seq<Note<K>>, before: seq<K>, after: seq<K>,
                              first: nat, added: seq<K>, v0: seq<int>, v1: seq<int>, v2: seq<int>)
    requires Told(a, b, said, before, after, v0, v1) && Distinct(b)
    requires first <= |b| && added != [] && forall k :: k in added ==> k !in before && k !in a
    requires c == b[..first] + added + b[first..] && Followed(b, c, v1, v2)
    ensures Told(a, c, said + [Inserted(first, added)], before, after, v0, v2)
  {
    ExplainsMore(a, said, b, Inserted(first, added), before, after);
    forall k | k in a && k in c ensures k in b {
      assert k in b[..first] || k in added || k in b[first..];
    }
  }

  ghost predicate SetOf<K(!new)>(present: set<K>, p: seq<K>) { forall k :: k in present <==> k in p }

  lemma SetHas<K(!new)>(present: set<K>, p: seq<K>, k: K)
    requires SetOf(present, p)
    ensures k in present <==> k in p
  {
  }

  // The log gained exactly what was said.
  predicate Grew<K(==)>(was: seq<Note<K>>, said: seq<Note<K>>, now: seq<Note<K>>) { now == was + said }

  lemma GrewMore<K>(was: seq<Note<K>>, said: seq<Note<K>>, now: seq<Note<K>>, n: Note<K>)
    requires Grew(was, said, now)
    ensures Grew(was, said + [n], now + [n])
  {
  }

  lemma GrewIs<K>(was: seq<Note<K>>, said: seq<Note<K>>, now: seq<Note<K>>)
    ensures Grew(was, said, now) <==> now == was + said
    ensures Grew(was, [], was)
  {
  }

  // What is left after the first two phases, seen from the third.
  lemma LeftForInserts<K(!new)>(was: seq<Row<K>>, left: seq<K>, want: seq<K>)
    requires Distinct(want) && InOrder(left, want) && SameKeys(left, KeysOf(Keep(was, want)))
    ensures Among(want, left) == left && Strangers(want, left, KeysOf(was))
    ensures forall k :: k in KeysOf(was) && k in want <==> k in left
  {
    KeepIs(was, want);
    AmongIsUnique(left, want);
  }

  lemma KeptAllIn<K(!new)>(was: seq<Row<K>>, want: seq<K>)
    ensures AllIn(KeysOf(Keep(was, want)), want)
  {
    KeepIs(was, want);
  }

  // The two lists agree before j.
  predicate SamePrefix<K(==)>(rows: seq<Row<K>>, next: seq<Row<K>>, j: nat) {
    j <= |rows| && j <= |next| && rows[..j] == next[..j]
  }

  lemma NotAllIn<K(!new)>(a: seq<K>, b: seq<K>, i: nat)
    requires i < |a| && a[i] !in b
    ensures !AllIn(a, b)
  {
    assert a[i] in a;
  }

  lemma RunIsNew<K(!new)>(want: seq<K>, present: seq<K>, before: seq<K>, j: nat, end: nat)
    requires j <= end <= |want| && Strangers(want, present, before)
    requires forall i :: j <= i < end ==> want[i] !in present
    ensures forall k :: k in want[j..end] ==> k !in before && k !in present
  {
    forall k | k in want[j..end] ensures k !in before && k !in present {
      var i :| 0 <= i < |want[j..end]| && want[j..end][i] == k;
      assert want[j + i] == k && k in want;
    }
  }

  // The three phases' notifications, put end to end.
  lemma RebuildTold<K(!new)>(was: seq<Row<K>>, b: seq<K>, c: seq<K>, want: seq<K>,
                             s1: seq<Note<K>>, s2: seq<Note<K>>, s3: seq<Note<K>>,
                             v0: seq<int>, v1: seq<int>, v2: seq<int>, v3: seq<int>)
    requires Distinct(b) && Distinct(c) && SameKeys(c, b)
    requires forall k :: k in KeysOf(was) && k in want <==> k in c
    requires Told(KeysOf(was), b, s1, KeysOf(was), want, v0, v1)
    requires Told(b, c, s2, KeysOf(was), want, v1, v2)
    requires Told(c, want, s3, KeysOf(was), want, v2, v3)
    ensures Explains(KeysOf(was), s1 + s2 + s3, want, KeysOf(was), want)
    ensures Followed(KeysOf(was), want, v0, v3)
  {
    hide Explains, Followed;
    ToldThen(KeysOf(was), b, c, s1, s2, KeysOf(was), want, v0, v1, v2);
    ToldThen(KeysOf(was), c, want, s1 + s2, s3, KeysOf(was), want, v0, v2, v3);
  }

  lemma Appended<T>(n: seq<T>, a: seq<T>, b: seq<T>, c: seq<T>)
    ensures n + a + b + c == n + (a + b + c)
  {
  }

  // A phase acts only when the keys differ; and if none acts they do not.
  lemma RebuildChanged<K(!new)>(was: seq<Row<K>>, b: seq<K>, c: seq<K>, want: seq<K>,
                                s1: seq<Note<K>>, s2: seq<Note<K>>, s3: seq<Note<K>>, gone: bool, moved: bool, came: bool)
    requires Explains(KeysOf(was), s1 + s2 + s3, want, KeysOf(was), want)
    requires (gone <==> s1 != []) && (moved <==> s2 != []) && (came <==> s3 != [])
    requires (gone ==> !AllIn(KeysOf(was), want)) && (moved ==> !InOrder(b, want)) && (came ==> !AllIn(want, c))
    requires InOrder(want, want) && AllIn(want, want)
    requires b == KeysOf(Keep(was, want)) && (!moved ==> c == b) && SameKeys(c, b)
    ensures gone || moved || came <==> KeysOf(was) != want
  {
    if KeysOf(was) == want {
      KeepAll(was, want);
      assert forall i :: 0 <= i < |was| ==> was[i].key == KeysOf(was)[i];
      assert b == want;
      assert AllIn(want, c);
    }
    if !gone && !moved && !came {
      assert s1 + s2 + s3 == [];
    }
  }
}

// The list itself, edited in place.
module LibraryRows {
  import opened LibraryRowsSpec

  class RowList<K(==,!new)> {
    var rows: seq<Row<K>>
    var notes: seq<Note<K>>   // what views were told, oldest first
    var views: seq<int>       // the persistent indexes views hold, -1 once dead

    ghost predicate Valid()
      reads this
    {
      Distinct(KeysOf(rows)) && Within(views, |rows|)
    }

    constructor ()
      ensures Valid() && rows == [] && notes == [] && views == []
    {
      rows, notes, views := [], [], [];
    }

    // beginRemoveRows, remove, endRemoveRows.
    method RemoveRange(first: nat, last: nat)
      requires Valid() && first <= last < |rows|
      modifies this
      ensures Valid() && rows == old(rows)[..first] + old(rows)[last + 1..]
      ensures KeysOf(rows) == KeysOf(old(rows))[..first] + KeysOf(old(rows))[last + 1..]
      ensures notes == old(notes) + [Removed(first, last)]
      ensures Followed(KeysOf(old(rows)), KeysOf(rows), old(views), views)
    {
      hide Distinct, Followed;
      ghost var was := KeysOf(rows);
      RemovedFollowed(was, first, last, views);
      rows := rows[..first] + rows[last + 1..];
      assert KeysOf(rows) == was[..first] + was[last + 1..];
      notes := notes + [Removed(first, last)];
      views := RemoveViews(views, first, last);
      FollowedWithin(was, KeysOf(rows), old(views), views);
    }

    // beginInsertRows, the inserts, endInsertRows.
    method InsertRange(first: nat, added: seq<Row<K>>)
      requires Valid() && first <= |rows| && added != []
      requires Distinct(KeysOf(rows[..first] + added + rows[first..]))
      modifies this
      ensures Valid() && rows == old(rows)[..first] + added + old(rows)[first..]
      ensures KeysOf(rows) == KeysOf(old(rows))[..first] + KeysOf(added) + KeysOf(old(rows))[first..]
      ensures notes == old(notes) + [Inserted(first, KeysOf(added))]
      ensures Followed(KeysOf(old(rows)), KeysOf(rows), old(views), views)
    {
      hide Distinct, Followed;
      ghost var was := KeysOf(rows);
      ghost var front, rest := rows[..first], rows[first..];
      assert KeysOf(front + added + rest) == was[..first] + KeysOf(added) + was[first..];
      InsertedFollowed(was, first, KeysOf(added), views);
      var k := 0;
      while k < |added|
        invariant 0 <= k <= |added| && rows == front + added[..k] + rest
        invariant views == old(views) && notes == old(notes)
      {
        rows := rows[..first + k] + [added[k]] + rows[first + k..];
        k := k + 1;
      }
      assert added[..k] == added;
      notes := notes + [Inserted(first, KeysOf(added))];
      views := InsertViews(views, first, |added|);
      FollowedWithin(was, KeysOf(rows), old(views), views);
    }

    // First phase: runs of rows that are not wanted go, from the end.
    method RemoveGone(target: map<K, int>, ghost want: seq<K>)
      returns (structural: bool, ghost said: seq<Note<K>>)
      requires Valid() && Targets(target, want)
      modifies this
      ensures Valid() && rows == Keep(old(rows), want)
      ensures Told(KeysOf(old(rows)), KeysOf(rows), said, KeysOf(old(rows)), want, old(views), views)
      ensures notes == old(notes) + said && (structural <==> said != [])
      ensures structural ==> !AllIn(KeysOf(old(rows)), want)
    {
      ghost var start := rows;
      ghost var a := KeysOf(rows);
      structural, said := false, [];
      DoneEnds(start, want);
      GrewIs(notes, said, notes);
      hide *;
      var i: int := |rows| - 1;
      while i >= 0
        invariant -1 <= i < |start| && Valid()
        invariant rows == DoneAfter(start, i, want)
        invariant Told(a, KeysOf(rows), said, a, want, old(views), views)
        invariant Grew(old(notes), said, notes) && (structural <==> said != [])
        invariant structural ==> !AllIn(a, want)
        decreases i
      {
        DoneAt(start, i, want);
        if rows[i].key in target {
          DoneOne(start, i, want);
          i := i - 1;
        } else {
          var first: int;
          first, said := RemoveRun(target, i, want, start, a, old(views), old(notes), said);
          structural := true;
          i := first - 1;
        }
      }
      GrewIs(old(notes), said, notes);
    }

    // Removes the unwanted run that ends at row i, and says where it began.
    method RemoveRun(target: map<K, int>, i: nat, ghost want: seq<K>, ghost start: seq<Row<K>>,
                     ghost a: seq<K>, ghost v0: seq<int>, ghost n0: seq<Note<K>>, ghost said: seq<Note<K>>)
      returns (first: nat, ghost said': seq<Note<K>>)
      requires Valid() && i < |start| && rows == DoneAfter(start, i, want)
      requires i < |rows| && rows[i].key !in target && Targets(target, want)
      requires Told(a, KeysOf(rows), said, a, want, v0, views) && Grew(n0, said, notes)
      modifies this
      ensures Valid() && first <= i && rows == DoneAfter(start, first - 1, want)
      ensures Told(a, KeysOf(rows), said', a, want, v0, views)
      ensures said' != [] && Grew(n0, said', notes) && (a == KeysOf(start) ==> !AllIn(a, want))
    {
      hide Told, Within, Keep, DoneAfter, Followed;
      first := FirstOfRun(target, i);
      DoneAt(start, i, want);
      ghost var b, v := KeysOf(rows), views;
      assert forall j :: first <= j <= i ==> b[j] !in want && start[j].key !in want;
      DoneRun(start, first, i, want);
      RemoveRange(first, i);
      ToldRemoved(a, b, said, a, want, first, i, v0, v, views, KeysOf(rows));
      said' := said + [Removed(first, i)];
      GrewMore(n0, said, old(notes), Removed(first, i));
      NotAllIn(KeysOf(start), want, i);
    }

    // Walks back to the first row of the unwanted run that ends at i.
    method FirstOfRun(target: map<K, int>, i: nat) returns (first: nat)
      requires i < |rows| && rows[i].key !in target
      ensures first <= i && forall j :: first <= j <= i ==> rows[j].key !in target
    {
      first := i;
      while first > 0 && rows[first - 1].key !in target
        invariant 0 <= first <= i
        invariant forall j :: first <= j <= i ==> rows[j].key !in target
      {
        first := first - 1;
      }
    }

    // std::is_sorted by target.
    method IsSorted(target: map<K, int>) returns (yes: bool)
      ensures yes <==> forall i :: 1 <= i < |rows| ==> Rank(target, rows[i - 1].key) <= Rank(target, rows[i].key)
    {
      var i := 1;
      while i < |rows|
        invariant 1 <= i
        invariant forall j :: 1 <= j < i && j < |rows| ==> Rank(target, rows[j - 1].key) <= Rank(target, rows[j].key)
      {
        if Rank(target, rows[i].key) < Rank(target, rows[i - 1].key) {
          return false;
        }
        i := i + 1;
      }
      yes := true;
    }

    // Second phase: what is left takes the wanted order, in one permutation.
    method Reorder(target: map<K, int>, ghost want: seq<K>, ghost before: seq<K>)
      returns (structural: bool, ghost said: seq<Note<K>>)
      requires Valid() && Targets(target, want) && AllIn(KeysOf(rows), want)
      modifies this
      ensures Valid() && InOrder(KeysOf(rows), want) && SameKeys(KeysOf(rows), KeysOf(old(rows)))
      ensures Told(KeysOf(old(rows)), KeysOf(rows), said, before, want, old(views), views)
      ensures notes == old(notes) + said && (structural <==> said != [])
      ensures structural ==> !InOrder(KeysOf(old(rows)), want)
      ensures !structural ==> rows == old(rows)
    {
      var ordered := IsSorted(target);
      OrderDecided(KeysOf(rows), target, want);
      structural, said := !ordered, [];
      if ordered {
        assert notes + [] == notes;
      } else {
        Sorting(rows, target, want);
        said := Permute(SortRows(rows, target), want, before);
      }
    }

    // layoutAboutToBeChanged ... layoutChanged.
    method Permute(sorted: seq<Row<K>>, ghost want: seq<K>, ghost before: seq<K>) returns (ghost said: seq<Note<K>>)
      requires Valid() && Distinct(KeysOf(sorted)) && |sorted| == |rows| && SameKeys(KeysOf(sorted), KeysOf(rows))
      modifies this
      ensures Valid() && rows == sorted
      ensures Told(KeysOf(old(rows)), KeysOf(rows), said, before, want, old(views), views)
      ensures notes == old(notes) + said && said != []
    {
      hide Told, Distinct, Within, Followed, OrderOf, SameKeys, Targets;
      ghost var was, v0 := KeysOf(rows), views;
      var newPos := Positions(sorted);
      var to := MovedViews(newPos, KeysOf(sorted));
      var order := OrderOf(KeysOf(rows), KeysOf(sorted));
      said := [Reordered(order)];
      notes := notes + [Reordered(order)];
      rows := sorted;
      views := to;
      ToldReordered(was, KeysOf(rows), before, want, v0, views);
      FollowedWithin(was, KeysOf(rows), v0, views);
    }

    // Where each key is in a list.
    static method Positions(list: seq<Row<K>>) returns (at: map<K, int>)
      requires Distinct(KeysOf(list))
      ensures Targets(at, KeysOf(list))
    {
      at := map[];
      var i := 0;
      while i < |list|
        invariant 0 <= i <= |list|
        invariant Places(at, list, i)
      {
        at := at[list[i].key := i];
        i := i + 1;
      }
    }

    // changePersistentIndexList's "to": the new place of each held row.
    method MovedViews(newPos: map<K, int>, now: seq<K>) returns (to: seq<int>)
      requires Valid() && Targets(newPos, now) && SameKeys(now, KeysOf(rows))
      ensures Followed(KeysOf(rows), now, views, to)
    {
      to := [];
      var v := 0;
      while v < |views|
        invariant 0 <= v <= |views| && |to| == v
        invariant forall u :: 0 <= u < v ==> to[u] == Follow(KeysOf(rows), now, views[u])
      {
        var f := views[v];
        if 0 <= f && f < |rows| {
          assert KeysOf(rows)[f] in KeysOf(rows);
          to := to + [newPos[rows[f].key]];
        } else {
          to := to + [-1];
        }
        v := v + 1;
      }
    }

    method PresentKeys() returns (present: set<K>)
      ensures SetOf(present, KeysOf(rows))
    {
      present := {};
      var i := 0;
      while i < |rows|
        invariant 0 <= i <= |rows|
        invariant SetOf(present, KeysOf(rows)[..i])
      {
        assert KeysOf(rows)[..i + 1] == KeysOf(rows)[..i] + [rows[i].key];
        present := present + {rows[i].key};
        i := i + 1;
      }
      assert KeysOf(rows)[..|rows|] == KeysOf(rows);
    }

    static method EndOfRun(next: seq<Row<K>>, present: set<K>, j: nat) returns (end: nat)
      requires j < |next| && next[j].key !in present
      ensures j < end <= |next| && forall i :: j <= i < end ==> next[i].key !in present
    {
      end := j;
      while end < |next| && next[end].key !in present
        invariant j <= end <= |next|
        invariant forall i :: j <= i < end ==> next[i].key !in present
      {
        end := end + 1;
      }
    }

    // Where the third phase stands: positions before j are the wanted rows,
    // and everything said so far explains how the list got here from keys p.
    ghost predicate Inserting(next: seq<Row<K>>, j: nat, p: seq<K>, before: seq<K>, v0: seq<int>,
        n0: seq<Note<K>>, said: seq<Note<K>>)
      reads this
    {
      && Valid() && j <= |next| && SamePrefix(rows, next, j) && KeysOf(rows) == HalfKeys(KeysOf(next), j, p)
      && Told(p, KeysOf(rows), said, before, KeysOf(next), v0, views) && Grew(n0, said, notes)
      && (said != [] ==> !AllIn(KeysOf(next), p))
    }

    // Puts the run of new rows from j on into the list, and says where it ends.
    method InsertRun(next: seq<Row<K>>, present: set<K>, j: nat, ghost p: seq<K>, ghost before: seq<K>, ghost v0: seq<int>,
                     ghost n0: seq<Note<K>>, ghost said: seq<Note<K>>)
      returns (end: nat, ghost said': seq<Note<K>>)
      requires Inserting(next, j, p, before, v0, n0, said)
      requires Distinct(KeysOf(next)) && Strangers(KeysOf(next), p, before) && SetOf(present, p)
      requires j < |next| && next[j].key !in present
      modifies this
      ensures j < end <= |next| && said' != [] && Inserting(next, end, p, before, v0, n0, said')
    {
      hide Told, Within, Followed, HalfKeys, Strangers, Grew, SetOf, AllIn;
      ghost var want := KeysOf(next);
      ghost var b, v := KeysOf(rows), views;
      end := EndOfRun(next, present, j);
      forall i | j <= i < end ensures want[i] !in p {
        SetHas(present, p, want[i]);
      }
      var added := next[j..end];
      assert KeysOf(added) == want[j..end];
      HalfRun(want, j, end, p);
      HalfDistinct(want, end, p);
      RunIsNew(want, p, before, j, end);
      assert KeysOf(rows[..j] + added + rows[j..]) == b[..j] + want[j..end] + b[j..];
      InsertRange(j, added);
      ToldInserted(p, b, KeysOf(rows), said, before, want, j, want[j..end], v0, v, views);
      said' := said + [Inserted(j, want[j..end])];
      GrewMore(n0, said, old(notes), Inserted(j, want[j..end]));
      NotAllIn(want, p, j);
      assert rows[..end] == next[..j] + next[j..end];
    }

    // A row that stays takes its new contents; its key is the same.
    method RefreshRow(next: seq<Row<K>>, present: set<K>, j: nat, ghost p: seq<K>, ghost before: seq<K>, ghost v0: seq<int>,
                      ghost n0: seq<Note<K>>, ghost said: seq<Note<K>>)
      requires Inserting(next, j, p, before, v0, n0, said) && SetOf(present, p)
      requires j < |next| && next[j].key in present
      modifies this`rows
      ensures Inserting(next, j + 1, p, before, v0, n0, said)
    {
      hide Told, Within, Grew, AllIn;
      SetHas(present, p, KeysOf(next)[j]);
      HalfStep(KeysOf(next), j, p);
      ghost var keys := KeysOf(rows);
      rows := rows[j := next[j]];
      assert KeysOf(rows) == keys;
      assert rows[..j + 1] == next[..j] + [next[j]];
    }

    // Third phase: rows that stay take their new contents, new ones come in.
    method InsertNew(next: seq<Row<K>>, ghost before: seq<K>) returns (structural: bool, ghost said: seq<Note<K>>)
      requires Valid() && Distinct(KeysOf(next)) && Among(KeysOf(next), KeysOf(rows)) == KeysOf(rows)
      requires Strangers(KeysOf(next), KeysOf(rows), before)
      modifies this
      ensures Valid() && rows == next
      ensures Told(KeysOf(old(rows)), KeysOf(rows), said, before, KeysOf(next), old(views), views)
      ensures notes == old(notes) + said && (structural <==> said != [])
      ensures structural ==> !AllIn(KeysOf(next), KeysOf(old(rows)))
    {
      ghost var p := KeysOf(rows);
      structural, said := false, [];
      var present := PresentKeys();
      InsertingStarts(next, p, before);
      hide *;
      var j := 0;
      while j < |next|
        invariant 0 <= j <= |next|
        invariant Inserting(next, j, p, before, old(views), old(notes), said)
        invariant structural <==> said != []
        decreases |next| - j
      {
        if next[j].key in present {
          RefreshRow(next, present, j, p, before, old(views), old(notes), said);
          j := j + 1;
        } else {
          j, said := InsertRun(next, present, j, p, before, old(views), old(notes), said);
          structural := true;
        }
      }
      InsertingEnds(next, p, before, old(views), old(notes), said);
    }

    lemma InsertingStarts(next: seq<Row<K>>, p: seq<K>, before: seq<K>)
      requires Valid() && p == KeysOf(rows) && Among(KeysOf(next), p) == p
      ensures Inserting(next, 0, p, before, views, notes, [])
    {
    }

    lemma InsertingEnds(next: seq<Row<K>>, p: seq<K>, before: seq<K>, v0: seq<int>, n0: seq<Note<K>>, said: seq<Note<K>>)
      requires Inserting(next, |next|, p, before, v0, n0, said)
      ensures Valid() && rows == next && notes == n0 + said
      ensures Told(p, KeysOf(rows), said, before, KeysOf(next), v0, views)
      ensures said != [] ==> !AllIn(KeysOf(next), p)
    {
    }

    // The three phases in turn. Whatever the list was, it ends as the wanted
    // one; replaying the notifications on the old keys gives the new keys,
    // with no row that stays taken out and put back; every persistent index
    // follows its own key; and "structural" says whether the keys changed.
    method Rebuild(next: seq<Row<K>>) returns (structural: bool, ghost said: seq<Note<K>>)
      requires Valid() && Distinct(KeysOf(next))
      modifies this
      ensures Valid() && rows == next && notes == old(notes) + said
      ensures Explains(KeysOf(old(rows)), said, KeysOf(next), KeysOf(old(rows)), KeysOf(next))
      ensures Followed(KeysOf(old(rows)), KeysOf(next), old(views), views)
      ensures structural <==> KeysOf(old(rows)) != KeysOf(next)
    {
      ghost var a, want, was, v0 := KeysOf(rows), KeysOf(next), rows, views;
      var target := Positions(next);
      var gone, moved, came;
      ghost var s1, s2, s3;
      assert Distinct(a);
      hide Told, Distinct, Within, InOrder, AllIn, SameKeys, Keep, Among, Strangers, Targets, Explains, Followed;
      gone, s1 := RemoveGone(target, want);
      KeptAllIn(was, want);
      ghost var b, v1 := KeysOf(rows), views;
      moved, s2 := Reorder(target, want, a);
      ghost var c, v2 := KeysOf(rows), views;
      LeftForInserts(was, c, want);
      came, s3 := InsertNew(next, a);
      structural := gone || moved || came;
      said := s1 + s2 + s3;
      Appended(old(notes), s1, s2, s3);
      RebuildTold(was, b, c, want, s1, s2, s3, v0, v1, v2, views);
      RebuildChanged(was, b, c, want, s1, s2, s3, gone, moved, came);
    }
  }
}
