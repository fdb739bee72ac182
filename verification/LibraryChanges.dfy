// The torrent list says that data changed, and names what did: which of these
// signals make the library regroup, and which changes it then misses.
// Source: src/bridges/qmllibrarymodel.cpp, src/bridges/qmlpostermodel.cpp.
module LibraryChanges {
  import opened LibraryGroupsSpec
  import opened LibraryModelSpec

  // The kinds of data that rows and their keys are computed from, and the rest.
  datatype Role = NameRole | ShowTmdbRole | ShowKeyRole | SeasonRole | EpisodeRole | CollectionIdRole
                | YearRole | InfoHashRole | OtherRole

  const GROUPING := {NameRole, ShowTmdbRole, ShowKeyRole, SeasonRole, EpisodeRole, CollectionIdRole}

  const LOOKED_AT := GROUPING + {YearRole, InfoHashRole}

  // A signal that names nothing is about everything.
  predicate Regroups(roles: set<Role>) { roles == {} || roles * GROUPING != {} }

  // Six kinds of data regroup; years and hashes do not.
  lemma RegroupsOn(roles: set<Role>)
    ensures Regroups(roles)
            <==> roles == {} || NameRole in roles || ShowTmdbRole in roles || ShowKeyRole in roles
                 || SeasonRole in roles || EpisodeRole in roles || CollectionIdRole in roles
  {
    assert forall r :: r in roles && r in GROUPING ==> r in roles * GROUPING;
  }

  // The torrent list sends three signals: everything, each second's figures,
  // and what a finished lookup can have changed.
  const TICK := {OtherRole}
  const RESOLVED := {YearRole, ShowTmdbRole, ShowKeyRole, CollectionIdRole, OtherRole}

  predicate Sent(roles: set<Role>) { roles == {} || roles == TICK || roles == RESOLVED }

  // The same rows, with only this data changed.
  predicate OnlyChanged(f: Filter, g: Filter, changed: set<Role>) {
    && |g.members| == |f.members| && |g.hashes| == |f.hashes| && g.toSource == f.toSource
    && (forall i :: 0 <= i < |f.members| ==> OnlyChangedAt(f.members[i], g.members[i], changed))
    && (g.hashes == f.hashes || InfoHashRole in changed)
  }

  predicate OnlyChangedAt(m: Member, n: Member, changed: set<Role>) {
    && (m.name == n.name || NameRole in changed) && (m.tmdbId == n.tmdbId || ShowTmdbRole in changed)
    && (m.nameKey == n.nameKey || ShowKeyRole in changed) && (m.season == n.season || SeasonRole in changed)
    && (m.episode == n.episode || EpisodeRole in changed)
    && (m.collectionId == n.collectionId || CollectionIdRole in changed) && (m.year == n.year || YearRole in changed)
  }

  // The signal names everything that changed.
  predicate Announced(f: Filter, g: Filter, roles: set<Role>) {
    if roles == {} then OnlyChanged(f, g, LOOKED_AT) else OnlyChanged(f, g, roles)
  }

  // Rows that were right for f are right for g after the signal.
  predicate KeepsUp(f: Filter, g: Filter, named: set<Role>, expanded: set<string>, expandable: bool) {
    Regroups(named) || Wanted(g, expanded, expandable) == Wanted(f, expanded, expandable)
  }

  // Whatever changes among this data, a signal naming those roles is enough.
  ghost predicate Suffices(changed: set<Role>, named: set<Role>) {
    forall f, g, expanded, expandable :: Showable(f) && Showable(g) && OnlyChanged(f, g, changed) ==>
      KeepsUp(f, g, named, expanded, expandable)
  }

  // Data the rows are not computed from makes no difference.
  lemma NothingLookedAt(f: Filter, g: Filter, changed: set<Role>)
    requires OnlyChanged(f, g, changed) && changed !! LOOKED_AT
    ensures g == f
  {
    assert forall r :: r in LOOKED_AT ==> r !in changed;
    forall i | 0 <= i < |f.members| ensures g.members[i] == f.members[i] {
      assert OnlyChangedAt(f.members[i], g.members[i], changed);
    }
  }

  // ---- Each kind of data can change the rows ----

  // A film of collection 1; two of them make one row, in their order.
  function Film(name: string): Member { Member(0, "", -1, -1, 1, 2003, name) }

  const FILMS := Filter([Film("a"), Film("b")], ["h", "i"], [0, 1])

  lemma PairSharesARow(members: seq<Member>, key: string)
    requires |members| == 2 && Keys(members) == [key, key] && key != "" && Before(members, 0, 1)
    ensures Layout(members, {}) == [Row(key, [0, 1], true, false)]
  {
    var r := Row(key, [0, 1], true, false);
    hide Layout, Keys, Before;
    assert Smallest(r.members) == 0 by {
      assert 0 in r.members && 1 in r.members;
    }
    assert Tops([r][1..]) == [] && Shown([r][1..]) == [] && Open([r][1..], {}) == [];
    assert Tops([r]) == [r] && Open([r], {}) == [r];
    assert Shown([r]) == [0, 1];
    assert 0 in Shown([r]) && 1 in Shown([r]);
    hide Tops, Shown, Open;
    OnlyTheLayout(members, [r], {});
  }

  lemma FilmKey(members: seq<Member>, name: string)
    ensures KeyOf(members, Film(name)) == "col:1"
  {
    assert Number(1) == "1";
  }

  lemma FilmsShareARow()
    ensures Showable(FILMS) && Layout(FILMS.members, {}) == [Row("col:1", [0, 1], true, false)]
  {
    FilmKey(FILMS.members, "a");
    FilmKey(FILMS.members, "b");
    hide Layout, KeyOf;
    PairSharesARow(FILMS.members, "col:1");
  }

  // Two torrents that do not belong together, or not in this order, do not make
  // that row.
  lemma NotThatRow(g: Filter)
    requires |g.members| == 2
    requires !Together(g.members, g.members[0], g.members[1]) || Before(g.members, 1, 0)
    ensures Wanted(g, {}, true) != Wanted(FILMS, {}, true)
  {
    FilmsShareARow();
    WantedAt(FILMS, {}, true, 0);
    if Wanted(g, {}, true) == Wanted(FILMS, {}, true) {
      assert |Layout(g.members, {})| == 1;
      WantedAt(g, {}, true, 0);
      var r := Layout(g.members, {})[0];
      LayoutOrdered(g.members, {});
      assert Tops([r][1..]) == [] && Tops([r]) == [r];
      assert Layout(g.members, {}) == [r];
      assert TopOk(g.members, Keys(g.members), Tops([r])[0]);
      assert r.members == [0, 1];
      SharedKey(g.members, g.members[0], g.members[1]);
      BeforeOneWay(g.members);
      assert false;
    }
  }

  lemma BeforeOneWay(members: seq<Member>)
    requires |members| == 2
    ensures !(Before(members, 0, 1) && Before(members, 1, 0))
  {
    BeforeTotal(members, 0, 1);
  }

  // One of the two films changes, in one way: it leaves the other, or they
  // change places.
  function FilmsWith(r: Role): Filter {
    match r
    case NameRole => FILMS.(members := [Film("c"), Film("b")])
    case ShowTmdbRole => FILMS.(members := [Film("a"), Film("b").(tmdbId := 1)])
    case ShowKeyRole => FILMS.(members := [Film("a"), Film("b").(nameKey := "x")])
    case SeasonRole => FILMS.(members := [Film("a").(season := 1), Film("b")])
    case EpisodeRole => FILMS.(members := [Film("a").(episode := 1), Film("b")])
    case CollectionIdRole => FILMS.(members := [Film("a"), Film("b").(collectionId := 2)])
    case YearRole => FILMS.(members := [Film("a"), Film("b").(year := 0)])
    case _ => FILMS
  }

  lemma FilmsAreShowable(g: Filter)
    requires g == FILMS.(members := g.members) && |g.members| == 2
    ensures Showable(g)
  {
    assert g.hashes[0] == "h" && g.hashes[1] == "i";
  }

  lemma FilmChanges(r: Role, i: nat)
    requires i < 2
    ensures var g := FilmsWith(r);
            && g == FILMS.(members := g.members) && |g.members| == 2
            && OnlyChangedAt(FILMS.members[i], g.members[i], {r})
  {
  }

  lemma FilmsChange(r: Role)
    ensures Showable(FILMS) && Showable(FilmsWith(r)) && OnlyChanged(FILMS, FilmsWith(r), {r})
  {
    FilmChanges(r, 0);
    FilmChanges(r, 1);
    hide OnlyChangedAt, Showable, FilmsWith;
    FilmsAreShowable(FILMS);
    FilmsAreShowable(FilmsWith(r));
  }

  lemma FilmsMove(r: Role)
    requires r in LOOKED_AT && r != InfoHashRole
    ensures Showable(FILMS) && Showable(FilmsWith(r)) && OnlyChanged(FILMS, FilmsWith(r), {r})
    ensures Wanted(FilmsWith(r), {}, true) != Wanted(FILMS, {}, true)
  {
    hide Wanted, Layout, OnlyChanged, Showable;
    FilmsChange(r);
    var g := FilmsWith(r);
    if r in {ShowTmdbRole, ShowKeyRole, CollectionIdRole} {
      PartedBy(g.members);
    } else {
      assert Before(g.members, 1, 0);
    }
    NotThatRow(g);
  }

  lemma PartedBy(members: seq<Member>)
    requires |members| == 2 && members[0] == Film("a")
    requires members[1].tmdbId == 1 || (members[1].tmdbId == 0 && members[1].nameKey == "x")
             || (members[1].tmdbId == 0 && members[1].nameKey == "" && members[1].collectionId == 2)
    ensures !Together(members, members[0], members[1])
  {
    assert ShowOf(members, members[0]) == 0;
    assert members[1..][1..] == [];
  }

  // A torrent of its own is known by its hash.
  function Alone(hash: string): Filter { Filter([Film("a").(collectionId := 0)], [hash], [0]) }

  lemma AloneInItsRow(members: seq<Member>)
    requires |members| == 1 && Keys(members) == [""]
    ensures Layout(members, {}) == [Row("", [0], false, false)]
  {
    var r := Row("", [0], false, false);
    hide Layout, Keys;
    assert Smallest(r.members) == 0;
    assert Tops([r][1..]) == [] && Shown([r][1..]) == [] && Open([r][1..], {}) == [];
    assert Tops([r]) == [r] && Open([r], {}) == [r];
    assert 0 in Shown([r]);
    hide Tops, Shown, Open;
    OnlyTheLayout(members, [r], {});
  }

  lemma HashNamesTheRow(hash: string)
    ensures var rows := Wanted(Alone(hash), {}, true); |rows| == 1 && rows[0].key == "t:" + hash
  {
    var f := Alone(hash);
    AloneInItsRow(f.members);
    hide Layout;
    assert hash + "" == hash;
  }

  lemma EachRoleCounts(r: Role) returns (f: Filter, g: Filter)
    requires r in LOOKED_AT
    ensures Showable(f) && Showable(g) && OnlyChanged(f, g, {r}) && Wanted(g, {}, true) != Wanted(f, {}, true)
  {
    if r == InfoHashRole {
      f, g := Alone("h"), Alone("i");
      HashNamesTheRow("h");
      HashNamesTheRow("i");
      hide Wanted;
      SameTail("t:", "h", "i");
    } else {
      f, g := FILMS, FilmsWith(r);
      FilmsMove(r);
    }
  }

  lemma MoreChanged(f: Filter, g: Filter, some: set<Role>, more: set<Role>)
    requires OnlyChanged(f, g, some) && some <= more
    ensures OnlyChanged(f, g, more)
  {
    forall i | 0 <= i < |f.members| ensures OnlyChangedAt(f.members[i], g.members[i], more) {
      assert OnlyChangedAt(f.members[i], g.members[i], some);
    }
  }

  // ---- Which signals are enough ----

  // A signal is enough for the changes of some data exactly when it regroups,
  // or the rows are not computed from any of that data.
  lemma SufficesExactly(changed: set<Role>, named: set<Role>)
    ensures Suffices(changed, named) <==> Regroups(named) || changed !! LOOKED_AT
  {
    hide Wanted;
    if !Regroups(named) {
      if changed !! LOOKED_AT {
        forall f, g, expanded, expandable | Showable(f) && Showable(g) && OnlyChanged(f, g, changed)
          ensures KeepsUp(f, g, named, expanded, expandable)
        {
          NothingLookedAt(f, g, changed);
        }
      } else {
        var r :| r in changed && r in LOOKED_AT;
        var f, g := EachRoleCounts(r);
        MoreChanged(f, g, {r}, changed);
        assert !KeepsUp(f, g, named, {}, true);
      }
    }
  }

  // So one that names everything that changed is enough exactly when it regroups
  // or names neither years nor hashes.
  lemma NamingSufficesExactly(roles: set<Role>)
    ensures (forall f, g, expanded, expandable :: Showable(f) && Showable(g) && Announced(f, g, roles) ==>
               KeepsUp(f, g, roles, expanded, expandable))
            <==> Regroups(roles) || (YearRole !in roles && InfoHashRole !in roles)
  {
    SufficesExactly(roles, roles);
    hide Wanted, OnlyChanged, Showable;
    if roles != {} && Suffices(roles, roles) {
      forall f, g, expanded, expandable | Showable(f) && Showable(g) && Announced(f, g, roles)
        ensures KeepsUp(f, g, roles, expanded, expandable)
      {
        assert OnlyChanged(f, g, roles);
      }
    }
    if !Regroups(roles) {
      assert forall r :: r in roles && r in GROUPING ==> r in roles * GROUPING;
    }
  }

  // Each of the three signals that are sent is such a one.
  lemma SentSuffices(f: Filter, g: Filter, roles: set<Role>)
    requires Sent(roles) && Announced(f, g, roles)
    ensures Regroups(roles) || g == f
  {
    if roles == TICK {
      NothingLookedAt(f, g, roles);
    } else if roles == RESOLVED {
      assert ShowTmdbRole in roles * GROUPING;
    }
  }

  // But each second's signal names none of the data the rows are computed from.
  // A film's year is 0 from when another lookup is asked for until it succeeds:
  // two films of one collection and one year, the second asked for again, change
  // places, and the next tick leaves them as they were.
  lemma TickMissesAYear()
    ensures var g := FilmsWith(YearRole);
            && g.members[1] == FILMS.members[1].(year := 0) && g.members[0] == FILMS.members[0]
            && g.hashes == FILMS.hashes && g.toSource == FILMS.toSource
            && Showable(FILMS) && Showable(g) && !KeepsUp(FILMS, g, TICK, {}, true)
  {
    FilmsMove(YearRole);
    hide Wanted, Showable, OnlyChanged;
    assert TICK * GROUPING == {};
  }

  // After a tick the rows are right whatever changed among some data exactly
  // when they are not computed from it.
  lemma TickSufficesExactly(changed: set<Role>)
    ensures Suffices(changed, TICK) <==> changed !! LOOKED_AT
  {
    SufficesExactly(changed, TICK);
    assert TICK * GROUPING == {};
  }
}
