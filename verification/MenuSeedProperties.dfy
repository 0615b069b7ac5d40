/** What running the menu seed does to any database, for any seed lists. */
module MenuSeedProperties {
  import opened Text
  import opened Tables
  import opened MenuSeed

  // ---------- Attachments ----------

  /** The (item, group) keys the pairs stand for. */
  function Linked(menuIds: NameIds, groupIds: NameIds, pairs: seq<Pair>): set<(nat, nat)>
    requires Known(pairs, menuIds, groupIds)
  {
    set p | p in pairs :: (menuIds[p.0], groupIds[p.1])
  }

  lemma {:induction false} LinkAllIs(links: Links, menuIds: NameIds, groupIds: NameIds, pairs: seq<Pair>)
    requires Known(pairs, menuIds, groupIds)
    ensures var all, keys := LinkAll(links, menuIds, groupIds, pairs), Linked(menuIds, groupIds, pairs);
            && all.Keys == links.Keys + keys
            && forall k :: k in all ==> all[k] == if k in keys then LinkOverrides(map[]) else links[k]
  {
    if pairs != [] {
      var before, last := pairs[..|pairs| - 1], pairs[|pairs| - 1];
      LinkAllIs(links, menuIds, groupIds, before);
      LinkedSnoc(menuIds, groupIds, pairs);
      hide Linked;
    }
  }

  lemma LinkedSnoc(menuIds: NameIds, groupIds: NameIds, pairs: seq<Pair>)
    requires Known(pairs, menuIds, groupIds) && pairs != []
    ensures var before, last := pairs[..|pairs| - 1], pairs[|pairs| - 1];
            Linked(menuIds, groupIds, pairs)
            == Linked(menuIds, groupIds, before) + {(menuIds[last.0], groupIds[last.1])}
  {
    var before, last := pairs[..|pairs| - 1], pairs[|pairs| - 1];
    assert forall p :: p in pairs <==> p in before || p == last;
  }

  // ---------- Idempotence ----------

  lemma SeededOk(db: Db, e: Engine, seed: Seed)
    requires DbOk(db)
    ensures DbOk(Seeded(db, e, seed))
  {
    UpsertAllOk(db.menus, e, MenuEntries(seed), NEW_MENU);
    UpsertAllOk(db.groups, e, GroupEntries(seed), NEW_GROUP);
    UpsertAllOk(db.values, e, ValueEntries(SeededGroups(db, e, seed), e, seed.restaurant, seed.groups), NoRest);
  }

  /** Seeding twice leaves the four tables, the counters and the name-to-id maps that seeding once leaves. */
  lemma SeedTwice(db: Db, e: Engine, seed: Seed)
    requires DbOk(db)
    ensures Seeded(Seeded(db, e, seed), e, seed) == Seeded(db, e, seed)
    ensures Resolvable(seed) ==> MenuIds(Seeded(db, e, seed), e, seed) == MenuIds(db, e, seed)
    ensures Resolvable(seed) ==> GroupIds(Seeded(db, e, seed), e, seed) == GroupIds(db, e, seed)
  {
    hide UpsertAll, LinkAll, Pairs;
    if Resolvable(seed) {
      UpsertAllTwice(db.menus, e, MenuEntries(seed), NEW_MENU);
      UpsertAllTwice(db.groups, e, GroupEntries(seed), NEW_GROUP);
      UpsertAllTwice(db.values, e, ValueEntries(SeededGroups(db, e, seed), e, seed.restaurant, seed.groups), NoRest);
      PairsResolve(db, e, seed);
      var menuIds, groupIds, pairs := MenuIds(db, e, seed), GroupIds(db, e, seed), Pairs(seed.blocks);
      LinkTwice(db.links, menuIds, groupIds, pairs);
    }
  }

  lemma LinkTwice(links: Links, menuIds: NameIds, groupIds: NameIds, pairs: seq<Pair>)
    requires Known(pairs, menuIds, groupIds)
    ensures var once := LinkAll(links, menuIds, groupIds, pairs);
            LinkAll(once, menuIds, groupIds, pairs) == once
  {
    hide LinkAll, Linked;
    var once := LinkAll(links, menuIds, groupIds, pairs);
    LinkAllIs(links, menuIds, groupIds, pairs);
    LinkAllIs(once, menuIds, groupIds, pairs);
    assert LinkAll(once, menuIds, groupIds, pairs).Keys == once.Keys;
  }

  /** If no table has two rows for one key, none has after the seed. */
  lemma SeedKeepsKeysUnique(db: Db, e: Engine, seed: Seed)
    requires DbOk(db) && Unique(db.menus, e) && Unique(db.groups, e) && Unique(db.values, e)
    ensures var after := Seeded(db, e, seed);
            Unique(after.menus, e) && Unique(after.groups, e) && Unique(after.values, e)
  {
    UpsertAllUnique(db.menus, e, MenuEntries(seed), NEW_MENU);
    UpsertAllUnique(db.groups, e, GroupEntries(seed), NEW_GROUP);
    UpsertAllUnique(db.values, e, ValueEntries(SeededGroups(db, e, seed), e, seed.restaurant, seed.groups), NoRest);
  }

  /** Two runs of the script, one after the other, leave what one leaves and end with the same dictionaries. */
  method SeedDatabaseTwice(engine: Engine, db: Db, seed: Seed)
    returns (once: Db, twice: Db, ids: Option<(NameIds, NameIds)>, idsAgain: Option<(NameIds, NameIds)>)
    requires DbOk(db)
    ensures once == Seeded(db, engine, seed) && twice == once && DbOk(twice)
    ensures ids == idsAgain && (ids.Some? <==> Resolvable(seed))
  {
    hide Seeded, MenuIds, GroupIds;
    var first := new Session(engine, db);
    ids := first.SeedDatabase(seed);
    once := first.committed;
    SeededOk(db, engine, seed);
    var second := new Session(engine, once);
    idsAgain := second.SeedDatabase(seed);
    twice := second.committed;
    SeedTwice(db, engine, seed);
    SeededOk(once, engine, seed);
  }

  // ---------- Effect ----------

  /** Every name of the list is mapped to a row of its key, which holds what the last item of that key says. */
  lemma ItemsTakeEffect(db: Db, e: Engine, seed: Seed, i: nat)
    requires DbOk(db) && i < |seed.items|
    ensures var name, ids, t := seed.items[i].itemName, MenuIds(db, e, seed), SeededMenus(db, e, seed);
            && name in ids && ids[name] in t.rows
            && SameKey(e, t.rows[ids[name]].owner, t.rows[ids[name]].name, seed.restaurant, name)
            && t.rows[ids[name]].fields
               == LastFor(e, MenuEntries(seed), MenuEntry(seed.restaurant, seed.items[i])).fields
  {
    var entries := MenuEntries(seed);
    var x := entries[i];
    UpsertAllFinds(db.menus, e, entries, NEW_MENU);
    LastWins(db.menus, e, entries, NEW_MENU, x);
    IdsLocate(SeededMenus(db, e, seed), e, entries, i);
    assert Found(SeededMenus(db, e, seed), e, x);
    assert Located(SeededMenus(db, e, seed), e, x) in Matches(SeededMenus(db, e, seed), e, x.owner, x.name);
  }

  lemma GroupsTakeEffect(db: Db, e: Engine, seed: Seed, i: nat)
    requires DbOk(db) && i < |seed.groups|
    ensures var name, ids, t := seed.groups[i].name, GroupIds(db, e, seed), SeededGroups(db, e, seed);
            && name in ids && ids[name] in t.rows
            && SameKey(e, t.rows[ids[name]].owner, t.rows[ids[name]].name, seed.restaurant, name)
            && t.rows[ids[name]].fields
               == LastFor(e, GroupEntries(seed), GroupEntry(seed.restaurant, seed.groups[i])).fields
  {
    var entries := GroupEntries(seed);
    var x := entries[i];
    UpsertAllFinds(db.groups, e, entries, NEW_GROUP);
    LastWins(db.groups, e, entries, NEW_GROUP, x);
    IdsLocate(SeededGroups(db, e, seed), e, entries, i);
    assert Found(SeededGroups(db, e, seed), e, x);
    assert Located(SeededGroups(db, e, seed), e, x) in Matches(SeededGroups(db, e, seed), e, x.owner, x.name);
  }

  /**
    Every listed value has a row under its group, which holds what the last value of that key says; every pair is
    attached.
   */
  lemma ValuesAndLinksTakeEffect(db: Db, e: Engine, seed: Seed)
    requires DbOk(db) && Resolvable(seed)
    ensures var entries := ValueEntries(SeededGroups(db, e, seed), e, seed.restaurant, seed.groups);
            var t := Seeded(db, e, seed).values;
            forall k :: 0 <= k < |entries| ==>
              && Found(t, e, entries[k]) && Located(t, e, entries[k]) in t.rows
              && t.rows[Located(t, e, entries[k])].fields == LastFor(e, entries, entries[k]).fields
    ensures Known(Pairs(seed.blocks), MenuIds(db, e, seed), GroupIds(db, e, seed))
    ensures forall key :: key in Linked(MenuIds(db, e, seed), GroupIds(db, e, seed), Pairs(seed.blocks)) ==>
              key in Seeded(db, e, seed).links && Seeded(db, e, seed).links[key] == LinkOverrides(map[])
  {
    PairsResolve(db, e, seed);
    LinkAllIs(db.links, MenuIds(db, e, seed), GroupIds(db, e, seed), Pairs(seed.blocks));
    var entries := ValueEntries(SeededGroups(db, e, seed), e, seed.restaurant, seed.groups);
    hide ValueEntries, Linked, LinkAll;
    forall k | 0 <= k < |entries|
      ensures var t := UpsertAll(db.values, e, entries, NoRest);
              && Found(t, e, entries[k]) && Located(t, e, entries[k]) in t.rows
              && t.rows[Located(t, e, entries[k])].fields == LastFor(e, entries, entries[k]).fields
    {
      LastWins(db.values, e, entries, NoRest, entries[k]);
    }
  }

  /** Names with equal spelling and owner are located together, so the dictionary holds the row of each. */
  lemma {:induction false} IdsLocate<F, X>(t: Table<F, X>, e: Engine, entries: seq<Entry<F>>, i: nat)
    requires i < |entries|
    requires forall j, k :: 0 <= j < |entries| && 0 <= k < |entries| ==> entries[j].owner == entries[k].owner
    ensures entries[i].name in Ids(t, e, entries) && Ids(t, e, entries)[entries[i].name] == Located(t, e, entries[i])
  {
    var before, last := entries[..|entries| - 1], entries[|entries| - 1];
    if entries[i].name == last.name {
      assert entries[i].owner == last.owner;
    } else {
      assert before[i] == entries[i];
      IdsLocate(t, e, before, i);
    }
  }

  // ---------- Frame ----------

  function ItemNames(seed: Seed): seq<string> {
    seq(|seed.items|, i requires 0 <= i < |seed.items| => seed.items[i].itemName)
  }

  function GroupNames(seed: Seed): seq<string> {
    seq(|seed.groups|, i requires 0 <= i < |seed.groups| => seed.groups[i].name)
  }

  /**
    Menu and group rows whose key is not in the lists are as before; inserted rows belong to the restaurant and have
    new ids.
   */
  lemma MenusAndGroupsFrame(db: Db, e: Engine, seed: Seed)
    requires DbOk(db)
    ensures Framed(db.menus, Seeded(db, e, seed).menus, e, seed.restaurant, ItemNames(seed))
    ensures Framed(db.groups, Seeded(db, e, seed).groups, e, seed.restaurant, GroupNames(seed))
  {
    hide Framed;
    MenusFrame(db, e, seed);
    GroupsFrame(db, e, seed);
  }

  lemma MenusFrame(db: Db, e: Engine, seed: Seed)
    requires DbOk(db)
    ensures Framed(db.menus, SeededMenus(db, e, seed), e, seed.restaurant, ItemNames(seed))
    ensures Framed(db.menus, db.menus, e, seed.restaurant, ItemNames(seed))
  {
    UpsertAllFramed(db.menus, e, MenuEntries(seed), NEW_MENU, seed.restaurant, ItemNames(seed));
  }

  lemma GroupsFrame(db: Db, e: Engine, seed: Seed)
    requires DbOk(db)
    ensures Framed(db.groups, SeededGroups(db, e, seed), e, seed.restaurant, GroupNames(seed))
    ensures Framed(db.groups, db.groups, e, seed.restaurant, GroupNames(seed))
  {
    UpsertAllFramed(db.groups, e, GroupEntries(seed), NEW_GROUP, seed.restaurant, GroupNames(seed));
  }

  /** The groups the option values go under are groups of the seeded restaurant. */
  lemma {:induction false} ValueOwners(t: Table<GroupFields, GroupRest>, e: Engine, restaurant: nat,
                                       groups: seq<OptionGroup>, k: nat)
    requires forall j :: 0 <= j < |groups| ==> Found(t, e, GroupEntry(restaurant, groups[j]))
    requires k < |ValueEntries(t, e, restaurant, groups)|
    ensures var g := ValueEntries(t, e, restaurant, groups)[k].owner; g in t.rows && t.rows[g].owner == restaurant
  {
    var last := groups[|groups| - 1];
    var before := ValueEntries(t, e, restaurant, groups[..|groups| - 1]);
    if k < |before| {
      ValueOwners(t, e, restaurant, groups[..|groups| - 1], k);
    } else {
      var x := GroupEntry(restaurant, last);
      assert Found(t, e, x);
      assert Located(t, e, x) in Matches(t, e, x.owner, x.name);
    }
  }

  predicate OthersValue(db: Db, seed: Seed, value: Row<ValueFields, ValueRest>) {
    value.owner in db.groups.rows && db.groups.rows[value.owner].owner != seed.restaurant
  }

  predicate OthersItem(db: Db, seed: Seed, item: nat) {
    item in db.menus.rows && db.menus.rows[item].owner != seed.restaurant
  }

  /**
    The option values of another restaurant's groups, and the attachments of another restaurant's items, are as
    before.
   */
  lemma OtherRestaurantsFrame(db: Db, e: Engine, seed: Seed)
    requires DbOk(db)
    ensures var after := Seeded(db, e, seed);
            && (forall r :: r in db.values.rows && OthersValue(db, seed, db.values.rows[r]) ==>
                  r in after.values.rows && after.values.rows[r] == db.values.rows[r])
            && (forall k :: k in db.links && OthersItem(db, seed, k.0) ==>
                  k in after.links && after.links[k] == db.links[k])
  {
    if Resolvable(seed) {
      ValuesFrame(db, e, seed);
      LinksFrame(db, e, seed);
    }
  }

  lemma ValuesFrame(db: Db, e: Engine, seed: Seed)
    requires DbOk(db)
    ensures var entries := ValueEntries(SeededGroups(db, e, seed), e, seed.restaurant, seed.groups);
            var after := UpsertAll(db.values, e, entries, NoRest);
            forall r :: r in db.values.rows && OthersValue(db, seed, db.values.rows[r]) ==>
              r in after.rows && after.rows[r] == db.values.rows[r]
  {
    var groups := SeededGroups(db, e, seed);
    var entries := ValueEntries(groups, e, seed.restaurant, seed.groups);
    UpsertAllGrows(db.groups, e, GroupEntries(seed), NEW_GROUP);
    GroupsFound(db, e, seed);
    forall r | r in db.values.rows && OthersValue(db, seed, db.values.rows[r])
      ensures var after := UpsertAll(db.values, e, entries, NoRest);
              r in after.rows && after.rows[r] == db.values.rows[r]
    {
      forall k | 0 <= k < |entries|
        ensures !SameKey(e, db.values.rows[r].owner, db.values.rows[r].name, entries[k].owner, entries[k].name)
      {
        ValueOwners(groups, e, seed.restaurant, seed.groups, k);
      }
      OtherKeysUntouched(db.values, e, entries, NoRest, r);
    }
  }

  /** An inserted option value has a new id and one of the seeded restaurant's groups. */
  lemma InsertedValues(db: Db, e: Engine, seed: Seed, r: nat)
    requires DbOk(db)
    requires r in Seeded(db, e, seed).values.rows && r !in db.values.rows
    ensures var after := Seeded(db, e, seed);
            && db.values.next <= r < after.values.next
            && after.values.rows[r].owner in after.groups.rows
            && after.groups.rows[after.values.rows[r].owner].owner == seed.restaurant
  {
    var groups := SeededGroups(db, e, seed);
    var entries := ValueEntries(groups, e, seed.restaurant, seed.groups);
    UpsertAllGrows(db.values, e, entries, NoRest);
    GroupsFound(db, e, seed);
    hide UpsertAll, SeededGroups;
    var row := UpsertAll(db.values, e, entries, NoRest).rows[r];
    assert Inserted(row, entries);
    var k :| 0 <= k < |entries| && row.owner == entries[k].owner && row.name == entries[k].name;
    ValueOwners(groups, e, seed.restaurant, seed.groups, k);
  }

  lemma GroupsFound(db: Db, e: Engine, seed: Seed)
    requires DbOk(db)
    ensures forall j :: 0 <= j < |seed.groups| ==>
              Found(SeededGroups(db, e, seed), e, GroupEntry(seed.restaurant, seed.groups[j]))
  {
    UpsertAllFinds(db.groups, e, GroupEntries(seed), NEW_GROUP);
    forall j | 0 <= j < |seed.groups|
      ensures Found(SeededGroups(db, e, seed), e, GroupEntry(seed.restaurant, seed.groups[j]))
    {
      assert Found(SeededGroups(db, e, seed), e, GroupEntries(seed)[j]);
    }
  }

  lemma LinksFrame(db: Db, e: Engine, seed: Seed)
    requires DbOk(db) && Resolvable(seed)
    ensures forall k :: k in db.links && OthersItem(db, seed, k.0) ==>
              k in Seeded(db, e, seed).links && Seeded(db, e, seed).links[k] == db.links[k]
  {
    PairsResolve(db, e, seed);
    var menuIds, groupIds, pairs := MenuIds(db, e, seed), GroupIds(db, e, seed), Pairs(seed.blocks);
    LinkAllIs(db.links, menuIds, groupIds, pairs);
    UpsertAllGrows(db.menus, e, MenuEntries(seed), NEW_MENU);
    forall p | p in pairs
      ensures menuIds[p.0] in SeededMenus(db, e, seed).rows
                && SeededMenus(db, e, seed).rows[menuIds[p.0]].owner == seed.restaurant
    {
      var b := PairsFrom(seed.blocks, p);
      var i :| 0 <= i < |seed.items| && seed.items[i].itemName == p.0;
      ItemsTakeEffect(db, e, seed, i);
    }
  }

  /** A value that the lists do not name is as before, in the seeded restaurant too. */
  lemma ValueOutsideTheLists(db: Db, e: Engine, seed: Seed, r: nat)
    requires DbOk(db) && r in db.values.rows
    requires var row := db.values.rows[r];
             var entries := ValueEntries(SeededGroups(db, e, seed), e, seed.restaurant, seed.groups);
             forall x <- entries :: !SameKey(e, row.owner, row.name, x.owner, x.name)
    ensures r in Seeded(db, e, seed).values.rows && Seeded(db, e, seed).values.rows[r] == db.values.rows[r]
  {
    hide UpsertAll, ValueEntries, SameKey, SeededGroups;
    var row, entries := db.values.rows[r], ValueEntries(SeededGroups(db, e, seed), e, seed.restaurant, seed.groups);
    forall k | 0 <= k < |entries| ensures !SameKey(e, row.owner, row.name, entries[k].owner, entries[k].name) {
      assert entries[k] in entries;
    }
    OtherKeysUntouched(db.values, e, entries, NoRest, r);
  }

  /** So is an attachment. */
  lemma LinkOutsideTheLists(db: Db, e: Engine, seed: Seed, k: (nat, nat))
    requires k in db.links && Resolvable(seed)
    ensures Known(Pairs(seed.blocks), MenuIds(db, e, seed), GroupIds(db, e, seed))
    ensures k !in Linked(MenuIds(db, e, seed), GroupIds(db, e, seed), Pairs(seed.blocks)) ==>
              k in Seeded(db, e, seed).links && Seeded(db, e, seed).links[k] == db.links[k]
  {
    PairsResolve(db, e, seed);
    LinkAllIs(db.links, MenuIds(db, e, seed), GroupIds(db, e, seed), Pairs(seed.blocks));
    hide Linked, LinkAll;
  }
}
