// A torrent's file paths as one flat list of folders and files, folders once
// each, in order of first appearance.
// Source: src/torrent/filetree.cpp, src/torrent/filetree.h.
module FileTreeSpec {
  import opened Common

  datatype Row = Row(name: string, depth: nat, isDir: bool, fileIndex: int)

  // The tree the rows stand for: a plain insertion, kept apart from the flat
  // node list and the hash of folder paths the code works with.
  datatype Tree = File(name: string, index: int) | Dir(name: string, kids: seq<Tree>)

  // split('/', SkipEmptyParts): `part` is what was read of the current one.
  function SplitFrom(path: string, part: string): (r: seq<string>)
    requires '/' !in part
    ensures forall i :: 0 <= i < |r| ==> r[i] != "" && '/' !in r[i]
  {
    if path == "" then (if part == "" then [] else [part])
    else if path[0] == '/' then (if part == "" then [] else [part]) + SplitFrom(path[1..], "")
    else SplitFrom(path[1..], part + [path[0]])
  }

  function Segments(path: string): (r: seq<string>)
    ensures forall i :: 0 <= i < |r| ==> r[i] != "" && '/' !in r[i]
  {
    SplitFrom(path, "")
  }

  // Where the folder `name` is among the kids; |kids| when it is not there.
  function FindDir(kids: seq<Tree>, name: string): (j: nat)
    ensures j <= |kids|
    ensures j < |kids| ==> kids[j].Dir? && kids[j].name == name
    ensures forall i :: 0 <= i < j ==> !(kids[i].Dir? && kids[i].name == name)
  {
    if kids == [] || (kids[0].Dir? && kids[0].name == name) then 0 else 1 + FindDir(kids[1..], name)
  }

  // Puts one file in: folders that exist are entered, others are added last.
  function Insert(kids: seq<Tree>, segs: seq<string>, index: int): seq<Tree>
    decreases |segs|
  {
    if segs == [] then kids
    else if |segs| == 1 then kids + [File(segs[0], index)]
    else
      var j := FindDir(kids, segs[0]);
      if j < |kids| then kids[j := Dir(segs[0], Insert(kids[j].kids, segs[1..], index))]
      else kids + [Dir(segs[0], Insert([], segs[1..], index))]
  }

  function Build(paths: seq<string>): seq<Tree> {
    if paths == [] then []
    else Insert(Build(paths[..|paths| - 1]), Segments(paths[|paths| - 1]), |paths| - 1)
  }

  // The rows of a tree, in pre-order.
  function Rows(kids: seq<Tree>, depth: nat): seq<Row> {
    if kids == [] then []
    else
      (match kids[0]
       case File(name, index) => [Row(name, depth, false, index)]
       case Dir(name, inner) => [Row(name, depth, true, -1)] + Rows(inner, depth + 1))
      + Rows(kids[1..], depth)
  }

  // ---- Reading rows back ----

  // A folder or a file, by its full path.
  datatype Entry = Entry(path: seq<string>, isDir: bool, index: int)

  function Entries(kids: seq<Tree>, at: seq<string>): seq<Entry> {
    if kids == [] then []
    else
      (match kids[0]
       case File(name, index) => [Entry(at + [name], false, index)]
       case Dir(name, inner) => [Entry(at + [name], true, -1)] + Entries(inner, at + [name]))
      + Entries(kids[1..], at)
  }

  // A reader of the list keeps a stack of enclosing names and cuts it to each
  // row's depth.
  function Decode(rows: seq<Row>, stack: seq<string>): seq<Entry>
    decreases |rows|
  {
    if rows == [] then []
    else
      var path := stack[..Min(rows[0].depth, |stack|)] + [rows[0].name];
      [Entry(path, rows[0].isDir, rows[0].fileIndex)] + Decode(rows[1..], path)
  }

  function RowOf(t: Tree, depth: nat): Row {
    if t.File? then Row(t.name, depth, false, t.index) else Row(t.name, depth, true, -1)
  }

  function EntryOf(t: Tree, at: seq<string>): Entry {
    if t.File? then Entry(at + [t.name], false, t.index) else Entry(at + [t.name], true, -1)
  }

  function Inner(t: Tree): seq<Tree> { if t.File? then [] else t.kids }

  lemma DecodeOne(t: Tree, at: seq<string>, stack: seq<string>, rest: seq<Row>)
    requires at <= stack
    ensures Decode([RowOf(t, |at|)] + rest, stack) == [EntryOf(t, at)] + Decode(rest, at + [t.name])
  {
    assert stack[..|at|] == at;
    assert ([RowOf(t, |at|)] + rest)[1..] == rest;
  }

  lemma FirstRows(kids: seq<Tree>, depth: nat, more: seq<Row>)
    requires kids != []
    ensures Rows(kids, depth) + more
            == [RowOf(kids[0], depth)] + (Rows(Inner(kids[0]), depth + 1) + (Rows(kids[1..], depth) + more))
  {
    if kids[0].File? {
      assert Rows([], depth + 1) == [];
    }
  }

  lemma FirstEntries(kids: seq<Tree>, at: seq<string>)
    requires kids != []
    ensures Entries(kids, at)
            == [EntryOf(kids[0], at)] + (Entries(Inner(kids[0]), at + [kids[0].name]) + Entries(kids[1..], at))
  {
    if kids[0].File? {
      assert Entries([], at + [kids[0].name]) == [];
    }
  }

  lemma Regroup<T>(a: seq<T>, b: seq<T>, c: seq<T>, d: seq<T>)
    ensures a + (b + (c + d)) == (a + (b + c)) + d
  {
  }

  // Rows written under `at` read back as the tree's entries, whatever deeper
  // names the stack still holds.
  lemma {:induction false} DecodeRows(kids: seq<Tree>, at: seq<string>, stack: seq<string>, more: seq<Row>)
    returns (left: seq<string>)
    requires at <= stack
    ensures at <= left && Decode(Rows(kids, |at|) + more, stack) == Entries(kids, at) + Decode(more, left)
    decreases kids
  {
    if kids == [] {
      left := stack;
      assert Rows(kids, |at|) + more == more;
      assert Entries(kids, at) + Decode(more, left) == Decode(more, left);
    } else {
      var path := at + [kids[0].name];
      var rest := Rows(kids[1..], |at|) + more;
      FirstRows(kids, |at|, more);
      FirstEntries(kids, at);
      assert Rows([], |at| + 1) + rest == rest && Entries([], path) + Decode(rest, path) == Decode(rest, path);
      hide Decode, Rows, Entries, RowOf, EntryOf;
      DecodeOne(kids[0], at, stack, Rows(Inner(kids[0]), |at| + 1) + rest);
      var mid := path;
      if kids[0].Dir? {
        mid := DecodeRows(kids[0].kids, path, path, rest);
      }
      left := DecodeRows(kids[1..], at, mid, more);
      Regroup([EntryOf(kids[0], at)], Entries(Inner(kids[0]), path), Entries(kids[1..], at), Decode(more, left));
    }
  }

  lemma RowsReadBack(kids: seq<Tree>)
    ensures Decode(Rows(kids, 0), []) == Entries(kids, [])
  {
    var left := DecodeRows(kids, [], [], []);
    assert Rows(kids, 0) + [] == Rows(kids, 0);
    assert Entries(kids, []) + [] == Entries(kids, []);
  }

  // ---- What is in the tree, and how often ----

  function CountIn(t: Tree, at: seq<string>, e: Entry): nat {
    (if EntryOf(t, at) == e then 1 else 0) + match t case File(_, _) => 0 case Dir(name, kids) => Count(kids, at + [name], e)
  }

  function Count(kids: seq<Tree>, at: seq<string>, e: Entry): nat {
    if kids == [] then 0 else CountIn(kids[0], at, e) + Count(kids[1..], at, e)
  }

  // Folders with one parent have different names, everywhere.
  predicate UniqueDirs(kids: seq<Tree>) {
    && (forall i, j :: 0 <= i < j < |kids| && kids[i].Dir? && kids[j].Dir? ==> kids[i].name != kids[j].name)
    && (forall i :: 0 <= i < |kids| && kids[i].Dir? ==> UniqueDirs(kids[i].kids))
  }

  lemma {:induction false} CountIsMultiplicity(kids: seq<Tree>, at: seq<string>, e: Entry)
    ensures multiset(Entries(kids, at))[e] == Count(kids, at, e)
    decreases kids
  {
    if kids != [] {
      var inside := at + [kids[0].name];
      var first, inner, rest := EntryOf(kids[0], at), Entries(Inner(kids[0]), inside), Entries(kids[1..], at);
      FirstEntries(kids, at);
      hide Entries, EntryOf;
      ThreeParts(first, inner, rest, e);
      CountIsMultiplicity(kids[1..], at, e);
      if kids[0].Dir? {
        CountIsMultiplicity(kids[0].kids, inside, e);
      } else {
        NoEntries(inside);
      }
    }
  }

  lemma ThreeParts(x: Entry, b: seq<Entry>, c: seq<Entry>, e: Entry)
    ensures multiset([x] + (b + c))[e] == (if x == e then 1 else 0) + multiset(b)[e] + multiset(c)[e]
  {
  }

  lemma NoEntries(at: seq<string>)
    ensures Entries([], at) == []
  {
  }

  lemma {:induction false} CountAppend(a: seq<Tree>, t: Tree, at: seq<string>, e: Entry)
    ensures Count(a + [t], at, e) == Count(a, at, e) + CountIn(t, at, e)
  {
    hide CountIn;
    if a == [] {
      assert a + [t] == [t] && [t][1..] == [];
    } else {
      assert (a + [t])[1..] == a[1..] + [t];
      CountAppend(a[1..], t, at, e);
    }
  }

  lemma {:induction false} CountUpdate(kids: seq<Tree>, j: nat, t: Tree, at: seq<string>, e: Entry)
    requires j < |kids|
    ensures Count(kids[j := t], at, e) + CountIn(kids[j], at, e) == Count(kids, at, e) + CountIn(t, at, e)
  {
    hide CountIn;
    if j == 0 {
      assert kids[j := t][1..] == kids[1..];
    } else {
      assert kids[j := t][1..] == kids[1..][j - 1 := t];
      CountUpdate(kids[1..], j - 1, t, at, e);
    }
  }

  // An entry is only ever found under its own path.
  lemma {:induction false} CountUnder(kids: seq<Tree>, at: seq<string>, e: Entry)
    requires Count(kids, at, e) > 0
    ensures |at| < |e.path| && at == e.path[..|at|]
    ensures exists i :: 0 <= i < |kids| && kids[i].name == e.path[|at|] && CountIn(kids[i], at, e) > 0
    decreases kids
  {
    if CountIn(kids[0], at, e) > 0 {
      if EntryOf(kids[0], at) != e {
        CountUnder(kids[0].kids, at + [kids[0].name], e);
      }
    } else {
      CountUnder(kids[1..], at, e);
      var i :| 0 <= i < |kids[1..]| && kids[1..][i].name == e.path[|at|] && CountIn(kids[1..][i], at, e) > 0;
      assert kids[i + 1] == kids[1..][i];
    }
  }

  lemma CountPrefix(kids: seq<Tree>, at: seq<string>, e: Entry)
    ensures Count(kids, at, e) > 0 ==> |at| < |e.path| && at == e.path[..|at|]
  {
    if Count(kids, at, e) > 0 {
      CountUnder(kids, at, e);
    }
  }

  // A folder's entries, or what lies deeper, come from the folder of that name.
  lemma OnlyInItsFolder(kids: seq<Tree>, at: seq<string>, e: Entry, j: nat)
    requires UniqueDirs(kids) && |at| < |e.path| && (e.isDir || |e.path| > |at| + 1)
    requires j == FindDir(kids, e.path[|at|])
    ensures Count(kids, at, e) == if j < |kids| then CountIn(kids[j], at, e) else 0
  {
    OthersEmpty(kids, at, e, 0);
  }

  lemma {:induction false} OthersEmpty(kids: seq<Tree>, at: seq<string>, e: Entry, i: nat)
    requires UniqueDirs(kids) && |at| < |e.path| && (e.isDir || |e.path| > |at| + 1) && i <= |kids|
    ensures var j := FindDir(kids, e.path[|at|]);
            Count(kids[i..], at, e) == if i <= j < |kids| then CountIn(kids[j], at, e) else 0
    decreases |kids| - i
  {
    if i < |kids| {
      assert kids[i..][0] == kids[i] && kids[i..][1..] == kids[i + 1..];
      OthersEmpty(kids, at, e, i + 1);
      if i != FindDir(kids, e.path[|at|]) {
        ForeignEmpty(kids, at, e, i);
      }
    } else {
      assert kids[i..] == [];
    }
  }

  lemma ForeignEmpty(kids: seq<Tree>, at: seq<string>, e: Entry, i: nat)
    requires UniqueDirs(kids) && |at| < |e.path| && (e.isDir || |e.path| > |at| + 1)
    requires i < |kids| && i != FindDir(kids, e.path[|at|])
    ensures CountIn(kids[i], at, e) == 0
  {
    var t := kids[i];
    if t.Dir? {
      CountPrefix(t.kids, at + [t.name], e);
      assert t.name != e.path[|at|] && e.path[..|at| + 1][|at|] == e.path[|at|];
    }
  }

  // ---- What one insertion adds ----

  // The folder entries on the way to a file.
  predicate OnTheWay(segs: seq<string>, at: seq<string>, e: Entry) {
    e.isDir && e.index == -1 && |at| < |e.path| < |at| + |segs| && e.path == at + segs[..|e.path| - |at|]
  }

  function Added(kids: seq<Tree>, segs: seq<string>, index: int, at: seq<string>, e: Entry): nat {
    if segs != [] && e == Entry(at + segs, false, index) then 1
    else if OnTheWay(segs, at, e) && Count(kids, at, e) == 0 then 1
    else 0
  }

  lemma {:induction false} InsertUnique(kids: seq<Tree>, segs: seq<string>, index: int)
    requires UniqueDirs(kids)
    ensures UniqueDirs(Insert(kids, segs, index))
    decreases |segs|
  {
    if |segs| > 1 {
      var j := FindDir(kids, segs[0]);
      if j < |kids| {
        InsertUnique(kids[j].kids, segs[1..], index);
      } else {
        InsertUnique([], segs[1..], index);
      }
    }
  }

  // Seen from inside the first folder on the way.
  lemma WayShifts(segs: seq<string>, at: seq<string>, e: Entry)
    requires |segs| > 1
    ensures at + segs == (at + [segs[0]]) + segs[1..]
    ensures OnTheWay(segs, at, e) <==> e == Entry(at + [segs[0]], true, -1) || OnTheWay(segs[1..], at + [segs[0]], e)
  {
    assert at + segs == (at + [segs[0]]) + segs[1..];
    if |at| + 1 < |e.path| < |at| + |segs| {
      assert at + segs[..|e.path| - |at|] == (at + [segs[0]]) + segs[1..][..|e.path| - |at| - 1];
    } else if |e.path| == |at| + 1 {
      assert segs[..1] == [segs[0]];
    }
  }

  lemma {:induction false} InsertAdds(kids: seq<Tree>, segs: seq<string>, index: int, at: seq<string>, e: Entry)
    requires UniqueDirs(kids) && segs != []
    ensures Count(Insert(kids, segs, index), at, e) == Count(kids, at, e) + Added(kids, segs, index, at, e)
    decreases |segs|
  {
    if |segs| == 1 {
      CountAppend(kids, File(segs[0], index), at, e);
      assert segs == [segs[0]];
    } else {
      var j := FindDir(kids, segs[0]);
      var inside := at + [segs[0]];
      var inner := if j < |kids| then kids[j].kids else [];
      InsertAdds(inner, segs[1..], index, inside, e);
      WayShifts(segs, at, e);
      var t := Dir(segs[0], Insert(inner, segs[1..], index));
      if j < |kids| {
        CountUpdate(kids, j, t, at, e);
      } else {
        CountAppend(kids, t, at, e);
      }
      AddedInside(kids, segs, index, at, e);
    }
  }

  // What the insertion adds at this level: a new folder's own entry, and what
  // it adds inside.
  lemma AddedInside(kids: seq<Tree>, segs: seq<string>, index: int, at: seq<string>, e: Entry)
    requires UniqueDirs(kids) && |segs| > 1
    ensures var j := FindDir(kids, segs[0]); var inside := at + [segs[0]];
            var inner := if j < |kids| then kids[j].kids else [];
            Added(kids, segs, index, at, e)
              == Added(inner, segs[1..], index, inside, e)
                 + if j == |kids| && e == Entry(inside, true, -1) then 1 else 0
  {
    var j := FindDir(kids, segs[0]);
    var inside := at + [segs[0]];
    WayShifts(segs, at, e);
    if OnTheWay(segs, at, e) {
      assert e.path[|at|] == segs[0];
      OnlyInItsFolder(kids, at, e, j);
      if j < |kids| && e != Entry(inside, true, -1) {
        assert EntryOf(kids[j], at) != e;
      }
      CountPrefix(if j < |kids| then kids[j].kids else [], inside, e);
    }
  }

  // ---- What the whole list holds ----

  lemma {:induction false} BuildUnique(paths: seq<string>)
    ensures UniqueDirs(Build(paths))
  {
    hide Segments, Insert;
    if paths != [] {
      BuildUnique(paths[..|paths| - 1]);
      InsertUnique(Build(paths[..|paths| - 1]), Segments(paths[|paths| - 1]), |paths| - 1);
    }
  }

  lemma BuildNext(paths: seq<string>, e: Entry)
    requires paths != []
    ensures var n := |paths| - 1; var segs := Segments(paths[n]); var before := Build(paths[..n]);
            Count(Build(paths), [], e) == Count(before, [], e) + Added(before, segs, n, [], e)
  {
    var n := |paths| - 1;
    var segs := Segments(paths[n]);
    BuildUnique(paths[..n]);
    if segs == [] {
      assert Insert(Build(paths[..n]), segs, n) == Build(paths[..n]);
    } else {
      InsertAdds(Build(paths[..n]), segs, n, [], e);
    }
  }

  // Every path with a segment is there exactly once, as a file with its own
  // index and its own folders; no other file is.
  lemma {:induction false} FilesOnce(paths: seq<string>, p: seq<string>, i: int)
    ensures Count(Build(paths), [], Entry(p, false, i))
            == if 0 <= i < |paths| && p != [] && Segments(paths[i]) == p then 1 else 0
  {
    hide Segments, Insert;
    if paths != [] {
      var n := |paths| - 1;
      FilesOnce(paths[..n], p, i);
      BuildNext(paths, Entry(p, false, i));
      assert [] + Segments(paths[n]) == Segments(paths[n]);
      assert i < n ==> i < 0 || paths[..n][i] == paths[i];
    }
  }

  // p is a folder some path goes through.
  ghost predicate IsFolder(paths: seq<string>, p: seq<string>) {
    p != [] && exists i :: 0 <= i < |paths| && p < Segments(paths[i])
  }

  lemma IsFolderNext(paths: seq<string>, p: seq<string>)
    requires paths != []
    ensures var n := |paths| - 1;
            IsFolder(paths, p) <==> IsFolder(paths[..n], p) || OnTheWay(Segments(paths[n]), [], Entry(p, true, -1))
  {
    hide Segments;
    var n := |paths| - 1;
    var segs := Segments(paths[n]);
    assert [] + segs[..Min(|p|, |segs|)] == segs[..Min(|p|, |segs|)];
    assert OnTheWay(segs, [], Entry(p, true, -1)) <==> p != [] && p < segs;
    if IsFolder(paths, p) {
      var i :| 0 <= i < |paths| && p < Segments(paths[i]);
      assert i < n ==> paths[..n][i] == paths[i];
    }
    if IsFolder(paths[..n], p) {
      var i :| 0 <= i < n && p < Segments(paths[..n][i]);
      assert paths[i] == paths[..n][i];
    }
  }

  // One entry per folder, in whatever order the paths come.
  lemma {:induction false} FoldersOnce(paths: seq<string>, p: seq<string>)
    ensures Count(Build(paths), [], Entry(p, true, -1)) == if IsFolder(paths, p) then 1 else 0
  {
    hide Segments, Insert;
    if paths == [] {
    } else {
      var n := |paths| - 1;
      FoldersOnce(paths[..n], p);
      BuildNext(paths, Entry(p, true, -1));
      IsFolderNext(paths, p);
    }
  }

  // ---- The order of siblings ----

  datatype Label = Label(name: string, isDir: bool, index: int)

  function LabelOf(t: Tree): Label { if t.File? then Label(t.name, false, t.index) else Label(t.name, true, -1) }

  function Labels(kids: seq<Tree>): (r: seq<Label>)
    ensures |r| == |kids| && forall i :: 0 <= i < |r| ==> r[i] == LabelOf(kids[i])
  {
    seq(|kids|, i requires 0 <= i < |kids| => LabelOf(kids[i]))
  }

  // What folder p lists, in order.
  function LabelsAt(kids: seq<Tree>, p: seq<string>): seq<Label>
    decreases |p|
  {
    if p == [] then Labels(kids)
    else
      var j := FindDir(kids, p[0]);
      if j < |kids| then LabelsAt(kids[j].kids, p[1..]) else []
  }

  // First appearance: a path that goes through or into folder p lists its next
  // segment there, a folder only the first time.
  function Appear(seen: seq<Label>, p: seq<string>, segs: seq<string>, index: int): seq<Label> {
    if !(p < segs) then seen
    else if |segs| == |p| + 1 then seen + [Label(segs[|p|], false, index)]
    else if Label(segs[|p|], true, -1) in seen then seen
    else seen + [Label(segs[|p|], true, -1)]
  }

  function Appearances(paths: seq<string>, p: seq<string>): seq<Label> {
    if paths == [] then []
    else Appear(Appearances(paths[..|paths| - 1], p), p, Segments(paths[|paths| - 1]), |paths| - 1)
  }

  lemma FindsLabel(kids: seq<Tree>, name: string)
    ensures FindDir(kids, name) < |kids| <==> Label(name, true, -1) in Labels(kids)
  {
    var j := FindDir(kids, name);
    if j < |kids| {
      assert Labels(kids)[j] == Label(name, true, -1);
    }
  }

  lemma {:induction false} InsertLabels(kids: seq<Tree>, segs: seq<string>, index: int, p: seq<string>)
    requires segs != []
    ensures LabelsAt(Insert(kids, segs, index), p) == Appear(LabelsAt(kids, p), p, segs, index)
    decreases |segs|
  {
    if p == [] {
      InsertTopLabels(kids, segs, index);
    } else if |segs| == 1 {
      assert |p| >= |segs|;
      FindAppend(kids, File(segs[0], index), p[0]);
    } else {
      var j := FindDir(kids, segs[0]);
      InsertLabels(if j < |kids| then kids[j].kids else [], segs[1..], index, p[1..]);
      InsertLowerLabels(kids, segs, index, p);
    }
  }

  lemma InsertTopLabels(kids: seq<Tree>, segs: seq<string>, index: int)
    requires segs != []
    ensures Labels(Insert(kids, segs, index)) == Appear(Labels(kids), [], segs, index)
  {
    FindsLabel(kids, segs[0]);
  }

  lemma {:induction false} FindAppend(kids: seq<Tree>, t: Tree, name: string)
    ensures var j := FindDir(kids, name);
            FindDir(kids + [t], name)
              == if j < |kids| then j else if t.Dir? && t.name == name then |kids| else |kids| + 1
  {
    if kids == [] {
      assert kids + [t] == [t];
    } else {
      assert (kids + [t])[1..] == kids[1..] + [t];
      FindAppend(kids[1..], t, name);
    }
  }

  lemma {:induction false} FindUpdate(kids: seq<Tree>, j: nat, inner: seq<Tree>, name: string)
    requires j < |kids| && kids[j].Dir?
    ensures FindDir(kids[j := Dir(kids[j].name, inner)], name) == FindDir(kids, name)
  {
    var t := Dir(kids[j].name, inner);
    if j == 0 {
      assert kids[j := t][1..] == kids[1..];
    } else {
      assert kids[j := t][1..] == kids[1..][j - 1 := t];
      FindUpdate(kids[1..], j - 1, inner, name);
    }
  }

  lemma InsertLowerLabels(kids: seq<Tree>, segs: seq<string>, index: int, p: seq<string>)
    requires |segs| > 1 && p != []
    requires p[0] == segs[0] ==>
      var j := FindDir(kids, segs[0]); var inner := if j < |kids| then kids[j].kids else [];
      LabelsAt(Insert(inner, segs[1..], index), p[1..]) == Appear(LabelsAt(inner, p[1..]), p[1..], segs[1..], index)
    ensures LabelsAt(Insert(kids, segs, index), p) == Appear(LabelsAt(kids, p), p, segs, index)
  {
    var j := FindDir(kids, segs[0]);
    var inner := if j < |kids| then kids[j].kids else [];
    var t := Dir(segs[0], Insert(inner, segs[1..], index));
    if j < |kids| {
      FindUpdate(kids, j, t.kids, p[0]);
    } else {
      FindAppend(kids, t, p[0]);
    }
    if p[0] == segs[0] {
      assert p < segs <==> p[1..] < segs[1..];
      NothingListed(p[1..]);
    }
  }

  lemma {:induction false} NothingListed(p: seq<string>)
    ensures LabelsAt([], p) == []
  {
  }

  // Every folder lists its entries in the order the paths first mention them.
  lemma {:induction false} SiblingsByAppearance(paths: seq<string>, p: seq<string>)
    ensures LabelsAt(Build(paths), p) == Appearances(paths, p)
  {
    hide Segments, Insert, Appear;
    if paths == [] {
      NothingListed(p);
    } else {
      var n := |paths| - 1;
      SiblingsByAppearance(paths[..n], p);
      if Segments(paths[n]) == [] {
        NoSegments(Build(paths[..n]), Appearances(paths[..n], p), p, n);
      } else {
        InsertLabels(Build(paths[..n]), Segments(paths[n]), n, p);
      }
    }
  }

  lemma NoSegments(kids: seq<Tree>, seen: seq<Label>, p: seq<string>, index: int)
    ensures Insert(kids, [], index) == kids && Appear(seen, p, [], index) == seen
  {
  }
}

// The flat vector of nodes the code grows, and what tree it stands for.
module FileNodes {
  import opened FileTreeSpec

  datatype Node = Node(name: string, isDir: bool, fileIndex: int, children: seq<nat>)

  // ---- The tree a vector of nodes stands for ----

  // Children come after their parent, so every walk down ends.
  predicate Downward(nodes: seq<Node>) {
    forall n, i :: 0 <= n < |nodes| && 0 <= i < |nodes[n].children| ==> n < nodes[n].children[i] < |nodes|
  }

  function TreeAt(nodes: seq<Node>, n: nat): Tree
    requires Downward(nodes) && n < |nodes|
    decreases |nodes| - n, 2, 0
  {
    if nodes[n].isDir then Dir(nodes[n].name, KidsAt(nodes, n)) else File(nodes[n].name, nodes[n].fileIndex)
  }

  function KidsAt(nodes: seq<Node>, n: nat): (r: seq<Tree>)
    requires Downward(nodes) && n < |nodes|
    decreases |nodes| - n, 1, 0
  {
    KidsFrom(nodes, n, 0)
  }

  function KidsFrom(nodes: seq<Node>, n: nat, i: nat): (r: seq<Tree>)
    requires Downward(nodes) && n < |nodes| && i <= |nodes[n].children|
    ensures |r| == |nodes[n].children| - i
    ensures forall k :: 0 <= k < |r| ==> r[k] == TreeAt(nodes, nodes[n].children[i + k])
    decreases |nodes| - n, 0, |nodes[n].children| - i
  {
    if i == |nodes[n].children| then []
    else [TreeAt(nodes, nodes[n].children[i])] + KidsFrom(nodes, n, i + 1)
  }

  // `at[n]` is the path of node n and `up[n]` its parent. Folders have paths of
  // their own, files have no children, and node 0 is the nameless root.
  ghost predicate Forest(nodes: seq<Node>, at: seq<seq<string>>, up: seq<nat>) {
    && Downward(nodes) && |at| == |up| == |nodes| && nodes != [] && nodes[0].isDir && at[0] == []
    && (forall n :: 0 <= n < |nodes| ==> if nodes[n].isDir then nodes[n].fileIndex == -1 else nodes[n].children == [])
    && (forall n, i :: 0 <= n < |nodes| && 0 <= i < |nodes[n].children| ==>
          var c := nodes[n].children[i]; at[c] == at[n] + [nodes[c].name])
    && (forall n, i, j :: 0 <= n < |nodes| && 0 <= i < j < |nodes[n].children| ==> nodes[n].children[i] < nodes[n].children[j])
    && (forall c :: 0 < c < |nodes| ==> up[c] < c && c in nodes[up[c]].children)
    && (forall m, n :: 0 <= m < |nodes| && 0 <= n < |nodes| && nodes[m].isDir && nodes[n].isDir && at[m] == at[n] ==> m == n)
  }

  // A node added under folder `cur`.
  function Grown(nodes: seq<Node>, cur: nat, leaf: Node): seq<Node>
    requires cur < |nodes|
  {
    nodes[cur := nodes[cur].(children := nodes[cur].children + [|nodes|])] + [leaf]
  }

  lemma GrownForest(nodes: seq<Node>, at: seq<seq<string>>, up: seq<nat>, cur: nat, leaf: Node)
    requires Forest(nodes, at, up) && cur < |nodes| && nodes[cur].isDir && leaf.children == []
    requires leaf.isDir ==>
               leaf.fileIndex == -1 && forall n :: 0 <= n < |nodes| && nodes[n].isDir ==> at[n] != at[cur] + [leaf.name]
    ensures Forest(Grown(nodes, cur, leaf), at + [at[cur] + [leaf.name]], up + [cur])
  {
    var nodes', at', up' := Grown(nodes, cur, leaf), at + [at[cur] + [leaf.name]], up + [cur];
    GrownChildren(nodes, cur, leaf);
    GrownPaths(nodes, at, cur, leaf);
    GrownParents(nodes, up, cur, leaf);
  }

  lemma GrownChildren(nodes: seq<Node>, cur: nat, leaf: Node)
    requires Downward(nodes) && cur < |nodes| && leaf.children == []
    ensures var nodes' := Grown(nodes, cur, leaf);
            && Downward(nodes')
            && forall n, i :: 0 <= n < |nodes'| && 0 <= i < |nodes'[n].children| ==>
                 if n == cur && i == |nodes[cur].children| then nodes'[n].children[i] == |nodes|
                 else n < |nodes| && i < |nodes[n].children| && nodes'[n].children[i] == nodes[n].children[i]
  {
  }

  lemma GrownPaths(nodes: seq<Node>, at: seq<seq<string>>, cur: nat, leaf: Node)
    requires Downward(nodes) && cur < |nodes| == |at| && leaf.children == []
    requires forall n, i :: 0 <= n < |nodes| && 0 <= i < |nodes[n].children| ==>
               var c := nodes[n].children[i]; at[c] == at[n] + [nodes[c].name]
    ensures Downward(Grown(nodes, cur, leaf))
    ensures var nodes', at' := Grown(nodes, cur, leaf), at + [at[cur] + [leaf.name]];
            forall n, i :: 0 <= n < |nodes'| && 0 <= i < |nodes'[n].children| ==>
              var c := nodes'[n].children[i]; at'[c] == at'[n] + [nodes'[c].name]
  {
    GrownChildren(nodes, cur, leaf);
  }

  lemma GrownParents(nodes: seq<Node>, up: seq<nat>, cur: nat, leaf: Node)
    requires cur < |nodes| == |up| && forall c :: 0 < c < |nodes| ==> up[c] < c && c in nodes[up[c]].children
    ensures var nodes', up' := Grown(nodes, cur, leaf), up + [cur];
            forall c :: 0 < c < |nodes'| ==> up'[c] < c && c in nodes'[up'[c]].children
  {
    var nodes', up' := Grown(nodes, cur, leaf), up + [cur];
    forall c | 0 < c < |nodes'| ensures up'[c] < c && c in nodes'[up'[c]].children {
      if c < |nodes| {
        assert c in nodes[up[c]].children;
      } else {
        assert nodes'[cur].children[|nodes[cur].children|] == c;
      }
    }
  }

  // ---- Adding a node, seen in the tree ----

  // The tree with `leaf` put last into folder p.
  function AppendAt(kids: seq<Tree>, p: seq<string>, leaf: Tree): seq<Tree>
    decreases |p|
  {
    if p == [] then kids + [leaf]
    else
      var j := FindDir(kids, p[0]);
      if j < |kids| then kids[j := Dir(p[0], AppendAt(kids[j].kids, p[1..], leaf))] else kids
  }

  predicate HasDir(kids: seq<Tree>, p: seq<string>)
    decreases |p|
  {
    p == [] || (FindDir(kids, p[0]) < |kids| && HasDir(kids[FindDir(kids, p[0])].kids, p[1..]))
  }

  lemma NotPrefix<T>(a: seq<T>, x: seq<T>, b: seq<T>)
    ensures a + x <= b ==> a <= b
  {
  }

  // What is not on the way to `cur` stays as it was.
  lemma {:induction false} GrownElsewhere(nodes: seq<Node>, at: seq<seq<string>>, up: seq<nat>, cur: nat, leaf: Node, n: nat)
    requires Forest(nodes, at, up) && cur < |nodes| && nodes[cur].isDir && leaf.children == [] && n < |nodes|
    requires Downward(Grown(nodes, cur, leaf))
    requires nodes[n].isDir ==> !(at[n] <= at[cur])
    ensures TreeAt(Grown(nodes, cur, leaf), n) == TreeAt(nodes, n)
    decreases |nodes| - n
  {
    var nodes' := Grown(nodes, cur, leaf);
    assert nodes'[n] == nodes[n];
    if nodes[n].isDir {
      var before, after := KidsAt(nodes, n), KidsAt(nodes', n);
      forall i | 0 <= i < |before| ensures after[i] == before[i] {
        var c := nodes[n].children[i];
        assert at[c] == at[n] + [nodes[c].name];
        NotPrefix(at[n], [nodes[c].name], at[cur]);
        GrownElsewhere(nodes, at, up, cur, leaf, c);
      }
      assert after == before;
    }
  }

  // The child of folder n on the way to folder `cur`.
  lemma {:induction false} ChildTowards(nodes: seq<Node>, at: seq<seq<string>>, up: seq<nat>, n: nat, cur: nat) returns (i: nat)
    requires Forest(nodes, at, up) && n < |nodes| && cur < |nodes| && nodes[n].isDir && nodes[cur].isDir && at[n] < at[cur]
    ensures i < |nodes[n].children| && nodes[nodes[n].children[i]].isDir && at[nodes[n].children[i]] <= at[cur]
    decreases cur
  {
    var u := up[cur];
    var k :| 0 <= k < |nodes[u].children| && nodes[u].children[k] == cur;
    assert at[cur] == at[u] + [nodes[cur].name];
    assert nodes[u].isDir;
    if |at[u]| == |at[n]| {
      assert at[u] == at[n];
      i := k;
    } else {
      assert at[n] < at[u];
      i := ChildTowards(nodes, at, up, n, u);
    }
  }

  // That child is the folder the tree finds under its name.
  lemma FoundChild(nodes: seq<Node>, at: seq<seq<string>>, up: seq<nat>, n: nat, i: nat)
    requires Forest(nodes, at, up) && n < |nodes| && i < |nodes[n].children| && nodes[nodes[n].children[i]].isDir
    ensures FindDir(KidsAt(nodes, n), nodes[nodes[n].children[i]].name) == i
  {
    var c := nodes[n].children[i];
    var kids := KidsAt(nodes, n);
    var j := FindDir(kids, nodes[c].name);
    assert kids[i] == TreeAt(nodes, c);
    assert j <= i;
    var d := nodes[n].children[j];
    assert kids[j] == TreeAt(nodes, d);
    assert at[d] == at[n] + [nodes[d].name] && at[c] == at[n] + [nodes[c].name];
  }

  // Every other child of folder n stays as it was.
  lemma OthersStay(nodes: seq<Node>, at: seq<seq<string>>, up: seq<nat>, cur: nat, leaf: Node, n: nat, i: nat, k: nat)
    requires Forest(nodes, at, up) && cur < |nodes| && nodes[cur].isDir && leaf.children == []
    requires Downward(Grown(nodes, cur, leaf))
    requires n < |nodes| && nodes[n].isDir && at[n] <= at[cur] && k < |nodes[n].children| && k != i
    requires at[n] == at[cur]
             || (i < |nodes[n].children| && nodes[nodes[n].children[i]].isDir && at[nodes[n].children[i]] <= at[cur])
    ensures TreeAt(Grown(nodes, cur, leaf), nodes[n].children[k]) == TreeAt(nodes, nodes[n].children[k])
  {
    var d := nodes[n].children[k];
    assert at[d] == at[n] + [nodes[d].name];
    if at[n] != at[cur] {
      var c := nodes[n].children[i];
      assert at[c] == at[n] + [nodes[c].name] && c != d;
      SameLengthPrefixes(at[c], at[d], at[cur]);
    }
    GrownElsewhere(nodes, at, up, cur, leaf, d);
  }

  lemma SameLengthPrefixes<T>(a: seq<T>, b: seq<T>, whole: seq<T>)
    requires |a| == |b| && a <= whole
    ensures b <= whole ==> b == a
  {
  }

  // Adding a node to the vector adds its leaf to the folder in the tree.
  lemma {:induction false} GrownAppends(nodes: seq<Node>, at: seq<seq<string>>, up: seq<nat>, cur: nat, leaf: Node, n: nat)
    requires Forest(nodes, at, up) && cur < |nodes| && nodes[cur].isDir && leaf.children == []
    requires Downward(Grown(nodes, cur, leaf))
    requires n < |nodes| && nodes[n].isDir && at[n] <= at[cur]
    ensures HasDir(KidsAt(nodes, n), at[cur][|at[n]|..])
    ensures KidsAt(Grown(nodes, cur, leaf), n) == AppendAt(KidsAt(nodes, n), at[cur][|at[n]|..], Leaf(leaf))
    decreases |nodes| - n
  {
    var nodes' := Grown(nodes, cur, leaf);
    var before, after := KidsAt(nodes, n), KidsAt(nodes', n);
    if at[n] == at[cur] {
      forall k | 0 <= k < |before| ensures after[k] == before[k] {
        OthersStay(nodes, at, up, cur, leaf, n, |before|, k);
      }
      assert TreeAt(nodes', |nodes|) == Leaf(leaf) by {
        assert nodes'[|nodes|] == leaf;
      }
      assert after == before + [Leaf(leaf)];
    } else {
      var i := ChildTowards(nodes, at, up, n, cur);
      var c := nodes[n].children[i];
      FoundChild(nodes, at, up, n, i);
      forall k | 0 <= k < |before| && k != i ensures after[k] == before[k] {
        OthersStay(nodes, at, up, cur, leaf, n, i, k);
      }
      assert at[c] == at[n] + [nodes[c].name];
      GrownAppends(nodes, at, up, cur, leaf, c);
      TailOf(at[cur], at[n], nodes[c].name);
      assert before[i] == TreeAt(nodes, c) && after[i] == TreeAt(nodes', c) && nodes'[c].name == nodes[c].name;
      assert after == before[i := after[i]];
    }
  }

  function Leaf(leaf: Node): Tree { if leaf.isDir then Dir(leaf.name, []) else File(leaf.name, leaf.fileIndex) }

  lemma TailOf<T>(whole: seq<T>, front: seq<T>, x: T)
    requires front + [x] <= whole
    ensures whole[|front|..] != [] && whole[|front|..][0] == x
    ensures whole[|front|..][1..] == whole[|front + [x]|..]
  {
    assert whole[|front|] == (front + [x])[|front|];
  }

  // A folder the tree has is a node of the vector.
  lemma {:induction false} DirHasNode(nodes: seq<Node>, at: seq<seq<string>>, up: seq<nat>, n: nat, p: seq<string>)
    returns (m: nat)
    requires Forest(nodes, at, up) && n < |nodes| && nodes[n].isDir && HasDir(KidsAt(nodes, n), p)
    ensures m < |nodes| && nodes[m].isDir && at[m] == at[n] + p
    decreases |p|
  {
    m := n;
    if p != [] {
      var kids := KidsAt(nodes, n);
      var j := FindDir(kids, p[0]);
      var c := nodes[n].children[j];
      assert kids[j] == TreeAt(nodes, c);
      m := DirHasNode(nodes, at, up, c, p[1..]);
      assert at[c] == at[n] + [p[0]] && at[n] + p == at[c] + p[1..];
    }
  }

  lemma HasTop(kids: seq<Tree>, x: string)
    ensures HasDir(kids, [x]) <==> FindDir(kids, x) < |kids|
  {
    assert [x][1..] == [];
  }

  // Making a folder that the file needs and that is missing changes nothing
  // about where the file ends up.
  lemma {:induction false} MakingFoldersFirst(kids: seq<Tree>, q: seq<string>, x: string, segs: seq<string>, index: int)
    requires q + [x] < segs && HasDir(kids, q) && !HasDir(kids, q + [x])
    ensures Insert(AppendAt(kids, q, Dir(x, [])), segs, index) == Insert(kids, segs, index)
    decreases |q|
  {
    var j := FindDir(kids, segs[0]);
    assert (q + [x])[0] == segs[0];
    if q == [] {
      HasTop(kids, x);
      FindAppend(kids, Dir(x, []), x);
      assert [] + [x] == [x];
      var t := Dir(x, Insert([], segs[1..], index));
      assert (kids + [Dir(x, [])])[|kids| := t] == kids + [t];
    } else {
      assert (q + [x])[1..] == q[1..] + [x] && q[1..] + [x] < segs[1..];
      MakingFoldersFirst(kids[j].kids, q[1..], x, segs[1..], index);
      FindUpdate(kids, j, AppendAt(kids[j].kids, q[1..], Dir(x, [])), segs[0]);
    }
  }

  // Once all its folders are there, the file goes last into the deepest one.
  lemma {:induction false} FileGoesLast(kids: seq<Tree>, segs: seq<string>, index: int)
    requires segs != [] && HasDir(kids, segs[..|segs| - 1])
    ensures AppendAt(kids, segs[..|segs| - 1], File(segs[|segs| - 1], index)) == Insert(kids, segs, index)
    decreases |segs|
  {
    if |segs| > 1 {
      var j := FindDir(kids, segs[0]);
      assert segs[..|segs| - 1][1..] == segs[1..][..|segs| - 2];
      FileGoesLast(kids[j].kids, segs[1..], index);
    }
  }

  // ---- Folder paths as keys ----

  // The key the code builds up: a '/' before each name.
  function Join(p: seq<string>): string {
    if p == [] then "" else Join(p[..|p| - 1]) + "/" + p[|p| - 1]
  }

  lemma JoinNext(segs: seq<string>, s: nat)
    requires s < |segs|
    ensures segs[..s + 1] == segs[..s] + [segs[s]] && Join(segs[..s + 1]) == Join(segs[..s]) + "/" + segs[s]
    ensures Join(segs[..0]) == ""
  {
    assert segs[..s + 1][..s] == segs[..s];
  }

  predicate Clean(p: seq<string>) {
    forall i :: 0 <= i < |p| ==> p[i] != "" && '/' !in p[i]
  }

  lemma {:induction false} SplitPlain(x: string, part: string)
    requires '/' !in x && '/' !in part && part + x != ""
    ensures SplitFrom(x, part) == [part + x]
    decreases |x|
  {
    if x == "" {
      assert part + x == part;
    } else {
      assert part + [x[0]] + x[1..] == part + x;
      SplitPlain(x[1..], part + [x[0]]);
    }
  }

  lemma {:induction false} SplitLast(a: string, part: string, x: string)
    requires '/' !in part && '/' !in x && x != ""
    ensures SplitFrom(a + "/" + x, part) == SplitFrom(a, part) + [x]
    decreases |a|
  {
    var whole := a + "/" + x;
    if a == "" {
      assert whole[1..] == x;
      SplitPlain(x, "");
      assert "" + x == x;
    } else {
      assert whole[1..] == a[1..] + "/" + x;
      if a[0] == '/' {
        SplitLast(a[1..], "", x);
      } else {
        SplitLast(a[1..], part + [a[0]], x);
      }
    }
  }

  // Different folders have different keys: a key splits back into its names.
  lemma {:induction false} KeysReadBack(p: seq<string>)
    requires Clean(p)
    ensures Segments(Join(p)) == p
    decreases |p|
  {
    if p != [] {
      KeysReadBack(p[..|p| - 1]);
      SplitLast(Join(p[..|p| - 1]), "", p[|p| - 1]);
    }
  }

  // The hash holds exactly the folders below the root, under their paths.
  ghost predicate Indexed(nodes: seq<Node>, at: seq<seq<string>>, dirIndex: map<string, nat>) {
    && |at| == |nodes|
    && (forall n :: 0 <= n < |nodes| && nodes[n].isDir ==> Clean(at[n]))
    && (forall n :: 0 < n < |nodes| && nodes[n].isDir ==> Join(at[n]) in dirIndex)
    && (forall k :: k in dirIndex ==> dirIndex[k] < |nodes| && nodes[dirIndex[k]].isDir && Join(at[dirIndex[k]]) == k)
  }

  // Looking a folder up by its key finds it, or there is none.
  lemma LookedUp(nodes: seq<Node>, at: seq<seq<string>>, up: seq<nat>, dirIndex: map<string, nat>, p: seq<string>)
    requires Forest(nodes, at, up) && Indexed(nodes, at, dirIndex) && Clean(p) && p != []
    ensures Join(p) in dirIndex ==> at[dirIndex[Join(p)]] == p
    ensures Join(p) !in dirIndex ==> forall n :: 0 <= n < |nodes| && nodes[n].isDir ==> at[n] != p
  {
    if Join(p) in dirIndex {
      KeysReadBack(p);
      KeysReadBack(at[dirIndex[Join(p)]]);
    }
  }

  // ---- The code ----

  // What the loops keep: the vector is a forest indexed by folder path whose
  // tree is `tree`.
  ghost predicate Holds(nodes: seq<Node>, at: seq<seq<string>>, up: seq<nat>, dirIndex: map<string, nat>) {
    Forest(nodes, at, up) && Indexed(nodes, at, dirIndex)
  }

  lemma PrefixIsClean(p: seq<string>, segs: seq<string>)
    requires Clean(segs) && p <= segs
    ensures Clean(p)
  {
    assert forall i :: 0 <= i < |p| ==> p[i] == segs[i];
  }

  lemma FoundFolder(nodes: seq<Node>, at: seq<seq<string>>, dirIndex: map<string, nat>, key: string)
    requires Indexed(nodes, at, dirIndex) && key in dirIndex
    ensures dirIndex[key] < |nodes| && nodes[dirIndex[key]].isDir
  {
  }

  lemma NotInTree(nodes: seq<Node>, at: seq<seq<string>>, up: seq<nat>, p: seq<string>)
    requires Forest(nodes, at, up)
    requires forall n :: 0 <= n < |nodes| && nodes[n].isDir ==> at[n] != p
    ensures !HasDir(KidsAt(nodes, 0), p)
  {
    if HasDir(KidsAt(nodes, 0), p) {
      assert [] + p == p;
      var m := DirHasNode(nodes, at, up, 0, p);
    }
  }

  // A folder that is not in the hash is made under `cur`.
  lemma NewFolder(nodes: seq<Node>, at: seq<seq<string>>, up: seq<nat>, dirIndex: map<string, nat>, cur: nat, name: string,
                  segs: seq<string>, index: int)
    requires Holds(nodes, at, up, dirIndex) && cur < |nodes| && nodes[cur].isDir
    requires Clean(segs) && at[cur] + [name] < segs
    requires forall n :: 0 <= n < |nodes| && nodes[n].isDir ==> at[n] != at[cur] + [name]
    ensures var p := at[cur] + [name];
            var nodes' := Grown(nodes, cur, Node(name, true, -1, []));
            && Holds(nodes', at + [p], up + [cur], dirIndex[Join(p) := |nodes|])
            && |nodes'| == |nodes| + 1 && nodes'[|nodes|].isDir
            && Insert(KidsAt(nodes', 0), segs, index) == Insert(KidsAt(nodes, 0), segs, index)
  {
    var p := at[cur] + [name];
    var leaf := Node(name, true, -1, []);
    GrownForest(nodes, at, up, cur, leaf);
    PrefixIsClean(p, segs);
    NewKey(nodes, at, dirIndex, cur, leaf);
    hide Join, Segments, Clean, Insert, AppendAt, HasDir, KidsAt, Indexed;
    GrownAppends(nodes, at, up, cur, leaf, 0);
    assert at[cur][0..] == at[cur];
    NotInTree(nodes, at, up, p);
    MakingFoldersFirst(KidsAt(nodes, 0), at[cur], name, segs, index);
  }

  lemma NewKey(nodes: seq<Node>, at: seq<seq<string>>, dirIndex: map<string, nat>, cur: nat, leaf: Node)
    requires Indexed(nodes, at, dirIndex) && cur < |nodes| && leaf.isDir && Clean(at[cur] + [leaf.name])
    ensures Indexed(Grown(nodes, cur, leaf), at + [at[cur] + [leaf.name]], dirIndex[Join(at[cur] + [leaf.name]) := |nodes|])
  {
  }

  // One folder of a path: the one there is, or a new one.
  method EnterFolder(nodes: seq<Node>, dirIndex: map<string, nat>, cur: nat, name: string, prefix: string,
                     ghost at: seq<seq<string>>, ghost up: seq<nat>, ghost segs: seq<string>, ghost index: int)
    returns (nodes': seq<Node>, dirIndex': map<string, nat>, cur': nat, ghost at': seq<seq<string>>, ghost up': seq<nat>)
    requires Holds(nodes, at, up, dirIndex) && cur < |nodes| && nodes[cur].isDir
    requires Clean(segs) && at[cur] + [name] < segs && prefix == Join(at[cur] + [name])
    ensures Holds(nodes', at', up', dirIndex') && cur' < |nodes'| && nodes'[cur'].isDir
    ensures at'[cur'] == at[cur] + [name]
    ensures Insert(KidsAt(nodes', 0), segs, index) == Insert(KidsAt(nodes, 0), segs, index)
  {
    hide Join, Segments, Clean, Insert, AppendAt, HasDir, KidsAt, Indexed, Grown;
    ghost var p := at[cur] + [name];
    LookedUp(nodes, at, up, dirIndex, p) by { PrefixIsClean(p, segs); }
    if prefix in dirIndex {
      FoundFolder(nodes, at, dirIndex, prefix);
      return nodes, dirIndex, dirIndex[prefix], at, up;
    }
    NewFolder(nodes, at, up, dirIndex, cur, name, segs, index);
    nodes' := Grown(nodes, cur, Node(name, true, -1, []));
    cur' := |nodes|;
    dirIndex' := dirIndex[prefix := cur'];
    at', up' := at + [p], up + [cur];
  }

  lemma NewFile(nodes: seq<Node>, at: seq<seq<string>>, up: seq<nat>, dirIndex: map<string, nat>, cur: nat,
                segs: seq<string>, index: int)
    requires Holds(nodes, at, up, dirIndex) && cur < |nodes| && nodes[cur].isDir && segs != [] && at[cur] == segs[..|segs| - 1]
    ensures var nodes' := Grown(nodes, cur, Node(segs[|segs| - 1], false, index, []));
            && Holds(nodes', at + [segs], up + [cur], dirIndex)
            && KidsAt(nodes', 0) == Insert(KidsAt(nodes, 0), segs, index)
  {
    hide Join, Segments, Clean, Insert, AppendAt, HasDir, KidsAt;
    var leaf := Node(segs[|segs| - 1], false, index, []);
    assert segs == at[cur] + [leaf.name];
    GrownForest(nodes, at, up, cur, leaf);
    GrownAppends(nodes, at, up, cur, leaf, 0);
    assert at[cur][0..] == at[cur];
    FileGoesLast(KidsAt(nodes, 0), segs, index);
  }

  // One path: its folders, then the file.
  method AddPath(nodes: seq<Node>, dirIndex: map<string, nat>, segs: seq<string>, index: nat,
                 ghost at: seq<seq<string>>, ghost up: seq<nat>)
    returns (nodes': seq<Node>, dirIndex': map<string, nat>, ghost at': seq<seq<string>>, ghost up': seq<nat>)
    requires Holds(nodes, at, up, dirIndex) && Clean(segs) && segs != []
    ensures Holds(nodes', at', up', dirIndex')
    ensures KidsAt(nodes', 0) == Insert(KidsAt(nodes, 0), segs, index)
  {
    hide Segments, Join, Clean, Insert, KidsAt, Indexed;
    nodes', dirIndex', at', up' := nodes, dirIndex, at, up;
    var cur: nat, prefix := 0, "";
    JoinNext(segs, 0);
    var s := 0;
    while s < |segs| - 1
      invariant s <= |segs| - 1 && cur < |nodes'| && prefix == Join(segs[..s])
      invariant Holds(nodes', at', up', dirIndex') && nodes'[cur].isDir && at'[cur] == segs[..s]
      invariant Insert(KidsAt(nodes', 0), segs, index) == Insert(KidsAt(nodes, 0), segs, index)
    {
      JoinNext(segs, s);
      prefix := prefix + "/" + segs[s];
      nodes', dirIndex', cur, at', up' := EnterFolder(nodes', dirIndex', cur, segs[s], prefix, at', up', segs, index);
      s := s + 1;
    }
    NewFile(nodes', at', up', dirIndex', cur, segs, index);
    at', up' := at' + [segs], up' + [cur];
    nodes' := Grown(nodes', cur, Node(segs[|segs| - 1], false, index, []));
  }

  lemma {:induction false} RowsInOrder(a: seq<Tree>, t: Tree, depth: nat)
    ensures Rows(a + [t], depth) == Rows(a, depth) + [RowOf(t, depth)] + Rows(Inner(t), depth + 1)
  {
    if a == [] {
      assert a + [t] == [t] && [t][1..] == [];
      FirstRows([t], depth, []);
    } else {
      assert (a + [t])[1..] == a[1..] + [t];
      RowsInOrder(a[1..], t, depth);
    }
  }

  lemma NoRows(depth: nat)
    ensures Rows([], depth) == []
  {
  }

  lemma TreeRow(nodes: seq<Node>, n: nat, i: nat, depth: nat)
    requires Downward(nodes) && n < |nodes| && i < |nodes[n].children|
    ensures |KidsAt(nodes, n)| == |nodes[n].children| && n < nodes[n].children[i] < |nodes|
    ensures var c := nodes[n].children[i]; var t := KidsAt(nodes, n)[i];
            && RowOf(t, depth) == Row(nodes[c].name, depth, nodes[c].isDir, if nodes[c].isDir then -1 else nodes[c].fileIndex)
            && Inner(t) == if nodes[c].isDir then KidsAt(nodes, c) else []
  {
    assert KidsAt(nodes, n)[i] == TreeAt(nodes, nodes[n].children[i]);
  }

  lemma KidsCount(nodes: seq<Node>, n: nat)
    requires Downward(nodes) && n < |nodes|
    ensures |KidsAt(nodes, n)| == |nodes[n].children|
  {
  }

  // The code writes a row's fields as the node has them.
  ghost predicate RowsAreFields(nodes: seq<Node>) {
    forall n :: 0 <= n < |nodes| && nodes[n].isDir ==> nodes[n].fileIndex == -1
  }

  method EmitRows(nodes: seq<Node>, self: nat, depth: nat, out: seq<Row>) returns (out': seq<Row>)
    requires Downward(nodes) && RowsAreFields(nodes) && self < |nodes|
    ensures out' == out + Rows(KidsAt(nodes, self), depth)
    decreases |nodes| - self
  {
    hide Rows, KidsAt, RowOf, Inner;
    out' := out;
    ghost var kids := KidsAt(nodes, self);
    KidsCount(nodes, self);
    NoRows(depth);
    NoRows(depth + 1);
    for i := 0 to |nodes[self].children|
      invariant |kids| == |nodes[self].children| && out' == out + Rows(kids[..i], depth)
    {
      var c := nodes[self].children[i];
      TreeRow(nodes, self, i, depth);
      assert kids[..i + 1] == kids[..i] + [kids[i]];
      RowsInOrder(kids[..i], kids[i], depth);
      out' := out' + [Row(nodes[c].name, depth, nodes[c].isDir, nodes[c].fileIndex)];
      if nodes[c].isDir {
        out' := EmitRows(nodes, c, depth + 1, out');
      }
    }
    assert kids[..|kids|] == kids;
  }

  lemma OnlyTheRoot(nodes: seq<Node>)
    requires nodes == [Node("", true, -1, [])]
    ensures Holds(nodes, [[]], [0], map[]) && KidsAt(nodes, 0) == []
  {
  }

  lemma EmitsTheTree(nodes: seq<Node>, at: seq<seq<string>>, up: seq<nat>, dirIndex: map<string, nat>)
    requires Holds(nodes, at, up, dirIndex)
    ensures nodes != [] && Downward(nodes) && RowsAreFields(nodes)
  {
  }

  lemma BuildStep(paths: seq<string>, i: nat)
    requires i < |paths|
    ensures Build(paths[..i + 1]) == Insert(Build(paths[..i]), Segments(paths[i]), i)
    ensures Segments(paths[i]) == [] ==> Build(paths[..i + 1]) == Build(paths[..i])
  {
    assert paths[..i + 1][..i] == paths[..i];
  }

  method BuildFileTree(paths: seq<string>) returns (out: seq<Row>)
    ensures out == Rows(Build(paths), 0)
  {
    var nodes := [Node("", true, -1, [])];
    var dirIndex: map<string, nat> := map[];
    ghost var at: seq<seq<string>>, up: seq<nat> := [[]], [0];
    OnlyTheRoot(nodes);
    hide Rows, Segments, KidsAt, Insert, Forest, Indexed, Grown, Downward, RowsAreFields;
    for i := 0 to |paths|
      invariant Holds(nodes, at, up, dirIndex) && nodes != [] && Downward(nodes)
      invariant KidsAt(nodes, 0) == Build(paths[..i])
    {
      BuildStep(paths, i);
      var segs := Segments(paths[i]);
      if segs != [] {
        nodes, dirIndex, at, up := AddPath(nodes, dirIndex, segs, i, at, up);
        EmitsTheTree(nodes, at, up, dirIndex);
      }
    }
    assert paths[..|paths|] == paths;
    EmitsTheTree(nodes, at, up, dirIndex);
    out := EmitRows(nodes, 0, 0, []);
    assert [] + Rows(Build(paths), 0) == Rows(Build(paths), 0);
  }

  // What a reader of the list gets back, entry by entry.
  lemma ListHoldsThePaths(paths: seq<string>, e: Entry)
    ensures multiset(Decode(Rows(Build(paths), 0), []))[e]
            == if e.isDir then (if e.index == -1 && IsFolder(paths, e.path) then 1 else 0)
               else if 0 <= e.index < |paths| && e.path != [] && Segments(paths[e.index]) == e.path then 1
               else 0
  {
    RowsReadBack(Build(paths));
    CountIsMultiplicity(Build(paths), [], e);
    if !e.isDir {
      FilesOnce(paths, e.path, e.index);
    } else if e.index == -1 {
      FoldersOnce(paths, e.path);
    } else {
      FoldersHaveNoIndex(Build(paths), [], e);
    }
  }

  lemma {:induction false} FoldersHaveNoIndex(kids: seq<Tree>, at: seq<string>, e: Entry)
    requires e.isDir && e.index != -1
    ensures Count(kids, at, e) == 0
    decreases kids
  {
    if kids != [] {
      FoldersHaveNoIndex(kids[1..], at, e);
      if kids[0].Dir? {
        FoldersHaveNoIndex(kids[0].kids, at + [kids[0].name], e);
      }
    }
  }
}
