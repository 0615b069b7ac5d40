/** What one run of the menu seed puts into the database, stated of the seed lists, column by column. */
module MenuSeedEffects {
  import opened Text
  import opened Tables
  import opened MenuSeed
  import opened MenuSeedProperties

  // ---------- Attachments ----------

  lemma {:induction false} BlockPairsIff(items: seq<string>, groups: seq<string>, p: Pair)
    ensures p in BlockPairs(items, groups) <==> p.0 in items && p.1 in groups
  {
    if items != [] {
      var before, last := items[..|items| - 1], items[|items| - 1];
      BlockPairsIff(before, groups, p);
      assert items == before + [last];
      if p.0 == last && p.1 in groups {
        var i :| 0 <= i < |groups| && groups[i] == p.1;
        assert ItemPairs(last, groups)[i] == p;
      }
    }
  }

  lemma {:induction false} PairsIff(blocks: seq<Block>, p: Pair)
    ensures p in Pairs(blocks) <==> exists b <- blocks :: p.0 in b.items && p.1 in b.groups
  {
    if blocks != [] {
      var before, last := blocks[..|blocks| - 1], blocks[|blocks| - 1];
      PairsIff(before, p);
      BlockPairsIff(last.items, last.groups, p);
      assert blocks == before + [last];
    }
  }

  /** Every group of a block is attached to every item of it, with nothing overridden. */
  lemma EveryPairAttached(db: Db, e: Engine, seed: Seed, b: Block, item: string, group: string)
    requires DbOk(db) && Resolvable(seed) && b in seed.blocks && item in b.items && group in b.groups
    ensures var menuIds, groupIds := MenuIds(db, e, seed), GroupIds(db, e, seed);
            var links := Seeded(db, e, seed).links;
            && item in menuIds && group in groupIds && (menuIds[item], groupIds[group]) in links
            && links[(menuIds[item], groupIds[group])] == LinkFields(Null, Null, Null, Null, Null, Null, Whole(0))
  {
    ValuesAndLinksTakeEffect(db, e, seed);
    PairsIff(seed.blocks, (item, group));
    assert (item, group) in Pairs(seed.blocks);
    hide MenuIds, GroupIds, Seeded, Pairs;
    var menuIds, groupIds := MenuIds(db, e, seed), GroupIds(db, e, seed);
    assert (menuIds[item], groupIds[group]) in Linked(menuIds, groupIds, Pairs(seed.blocks));
  }

  /** And nothing else: an attachment that was not there joins a group of a block to an item of it; the others stay. */
  lemma NothingElseAttached(db: Db, e: Engine, seed: Seed, k: (nat, nat))
    requires DbOk(db) && Resolvable(seed)
    ensures k in db.links ==> k in Seeded(db, e, seed).links
    ensures k in Seeded(db, e, seed).links ==>
              || (k in db.links && Seeded(db, e, seed).links[k] == db.links[k])
              || (exists b <- seed.blocks, item <- b.items, group <- b.groups ::
                    && item in MenuIds(db, e, seed) && group in GroupIds(db, e, seed)
                    && k == (MenuIds(db, e, seed)[item], GroupIds(db, e, seed)[group]))
  {
    PairsResolve(db, e, seed);
    var menuIds, groupIds := MenuIds(db, e, seed), GroupIds(db, e, seed);
    LinkAllIs(db.links, menuIds, groupIds, Pairs(seed.blocks));
    var links := Seeded(db, e, seed).links;
    hide MenuIds, GroupIds, Pairs, LinkAll;
    if k in Linked(menuIds, groupIds, Pairs(seed.blocks)) {
      var p :| p in Pairs(seed.blocks) && k == (menuIds[p.0], groupIds[p.1]);
      PairsIff(seed.blocks, p);
      var b :| b in seed.blocks && p.0 in b.items && p.1 in b.groups;
      assert b in seed.blocks && p.0 in b.items && p.1 in b.groups;
    }
  }

  // ---------- Items and groups ----------

  lemma {:induction false} LastForIs<F>(e: Engine, entries: seq<Entry<F>>, x: Entry<F>, i: nat)
    requires i < |entries| && SameKey(e, entries[i].owner, entries[i].name, x.owner, x.name)
    requires forall j :: i < j < |entries| ==> !SameKey(e, entries[j].owner, entries[j].name, x.owner, x.name)
    ensures LastFor(e, entries, x) == entries[i]
  {
    if i < |entries| - 1 {
      LastForIs(e, entries[..|entries| - 1], x, i);
    }
  }

  /** Of the items of one key the last decides: its row has these columns, from its own attributes. */
  lemma ItemColumns(db: Db, e: Engine, seed: Seed, i: nat)
    requires DbOk(db) && Resolvable(seed) && i < |seed.items|
    requires forall j :: i < j < |seed.items| ==> e.collate(seed.items[j].itemName) != e.collate(seed.items[i].itemName)
    ensures var name, a, ids, t := seed.items[i].itemName, seed.items[i].attrs, MenuIds(db, e, seed),
                                    Seeded(db, e, seed).menus;
            && name in ids && ids[name] in t.rows
            && var row := t.rows[ids[name]];
               && row.owner == seed.restaurant && e.collate(row.name) == e.collate(name)
               && row.fields.category == (if "category" in a then a["category"] else Null)
               && row.fields.subCategory == (if "sub_category" in a then a["sub_category"] else Null)
               && row.fields.itemDesc == (if "item_desc" in a then a["item_desc"] else Null)
               && row.fields.price == (if "price" in a then a["price"] else Null)
               && row.fields.avgPrepTime == (if "avg_prep_time" in a then a["avg_prep_time"] else Null)
               && row.fields.isAvailable == (if "is_available" in a then a["is_available"] else Flag(true))
               && row.fields.isSpecial == (if "is_special" in a then a["is_special"] else Flag(false))
  {
    ItemsTakeEffect(db, e, seed, i);
    LastForIs(e, MenuEntries(seed), MenuEntry(seed.restaurant, seed.items[i]), i);
    hide MenuIds, SeededMenus, LastFor;
  }

  lemma GroupColumns(db: Db, e: Engine, seed: Seed, i: nat)
    requires DbOk(db) && Resolvable(seed) && i < |seed.groups|
    requires forall j :: i < j < |seed.groups| ==> e.collate(seed.groups[j].name) != e.collate(seed.groups[i].name)
    ensures var name, a, ids, t := seed.groups[i].name, seed.groups[i].attrs, GroupIds(db, e, seed),
                                    Seeded(db, e, seed).groups;
            && name in ids && ids[name] in t.rows
            && var row := t.rows[ids[name]];
               && row.owner == seed.restaurant && e.collate(row.name) == e.collate(name)
               && row.fields.description == (if "description" in a then a["description"] else Null)
               && row.fields.selectionType == (if "selection_type" in a then a["selection_type"] else Words("multiple"))
               && row.fields.minSelect == (if "min_select" in a then a["min_select"] else Whole(0))
               && row.fields.maxSelect == (if "max_select" in a then a["max_select"] else Null)
               && row.fields.freeAllowance == (if "free_allowance" in a then a["free_allowance"] else Whole(0))
               && row.fields.allowsQuantity == (if "allows_quantity" in a then a["allows_quantity"] else Flag(false))
               && row.fields.maxQuantityPerOption
                  == (if "max_quantity_per_option" in a then a["max_quantity_per_option"] else Null)
               && row.fields.promptStyle
                  == (if "prompt_style" in a then a["prompt_style"] else Words("ASK_IF_MENTIONED"))
               && row.fields.isRequired == (if "is_required" in a then a["is_required"] else Flag(false))
               && row.fields.isAvailable == (if "is_available" in a then a["is_available"] else Flag(true))
               && row.fields.sortOrder == (if "sort_order" in a then a["sort_order"] else Whole(0))
  {
    GroupsTakeEffect(db, e, seed, i);
    LastForIs(e, GroupEntries(seed), GroupEntry(seed.restaurant, seed.groups[i]), i);
    hide GroupIds, SeededGroups, LastFor;
  }

  /** Inserted rows have the names of the lists, and the defaults in the columns the seed leaves alone. */
  lemma InsertedItems(db: Db, e: Engine, seed: Seed, r: nat)
    requires DbOk(db) && Resolvable(seed)
    requires r in Seeded(db, e, seed).menus.rows && r !in db.menus.rows
    ensures Seeded(db, e, seed).menus.rows[r].rest == MenuRest(Null)
    ensures exists i :: 0 <= i < |seed.items| && Seeded(db, e, seed).menus.rows[r].name == seed.items[i].itemName
  {
    UpsertAllGrows(db.menus, e, MenuEntries(seed), NEW_MENU);
    var row := Seeded(db, e, seed).menus.rows[r];
    assert Inserted(row, MenuEntries(seed)) && row.rest == NEW_MENU;
    hide UpsertAll, Seeded;
    var i :| 0 <= i < |MenuEntries(seed)| && row.owner == MenuEntries(seed)[i].owner
        && row.name == MenuEntries(seed)[i].name;
    assert row.name == seed.items[i].itemName;
  }

  lemma InsertedGroups(db: Db, e: Engine, seed: Seed, r: nat)
    requires DbOk(db) && Resolvable(seed)
    requires r in Seeded(db, e, seed).groups.rows && r !in db.groups.rows
    ensures Seeded(db, e, seed).groups.rows[r].rest == GroupRest(Words("HIGHEST_PRICE_FIRST"))
    ensures exists i :: 0 <= i < |seed.groups| && Seeded(db, e, seed).groups.rows[r].name == seed.groups[i].name
  {
    UpsertAllGrows(db.groups, e, GroupEntries(seed), NEW_GROUP);
    var row := Seeded(db, e, seed).groups.rows[r];
    assert Inserted(row, GroupEntries(seed)) && row.rest == NEW_GROUP;
    hide UpsertAll, Seeded;
    var i :| 0 <= i < |GroupEntries(seed)| && row.owner == GroupEntries(seed)[i].owner
        && row.name == GroupEntries(seed)[i].name;
    assert row.name == seed.groups[i].name;
  }

  // ---------- What stays ----------

  /** Items and groups of other restaurants, and those of this one that the lists do not name, are as before. */
  lemma UnlistedStay(db: Db, e: Engine, seed: Seed, r: nat)
    requires DbOk(db)
    ensures r in db.menus.rows
            && (|| db.menus.rows[r].owner != seed.restaurant
                || forall i :: 0 <= i < |seed.items| ==>
                     e.collate(seed.items[i].itemName) != e.collate(db.menus.rows[r].name)) ==>
              r in Seeded(db, e, seed).menus.rows && Seeded(db, e, seed).menus.rows[r] == db.menus.rows[r]
    ensures r in db.groups.rows
            && (|| db.groups.rows[r].owner != seed.restaurant
                || forall i :: 0 <= i < |seed.groups| ==>
                     e.collate(seed.groups[i].name) != e.collate(db.groups.rows[r].name)) ==>
              r in Seeded(db, e, seed).groups.rows && Seeded(db, e, seed).groups.rows[r] == db.groups.rows[r]
  {
    MenusAndGroupsFrame(db, e, seed);
    hide Seeded;
    assert forall i :: 0 <= i < |seed.items| ==> ItemNames(seed)[i] == seed.items[i].itemName;
    assert forall i :: 0 <= i < |seed.groups| ==> GroupNames(seed)[i] == seed.groups[i].name;
    hide ItemNames, GroupNames;
  }

  /** No two rows of one owner have names the collation takes for equal. */
  ghost predicate NamesUnique<F, X>(t: Table<F, X>, e: Engine) {
    forall i <- t.rows, j <- t.rows ::
      t.rows[i].owner == t.rows[j].owner && e.collate(t.rows[i].name) == e.collate(t.rows[j].name) ==> i == j
  }

  /** The seed keeps it so in the three tables. */
  lemma SeedKeepsNamesUnique(db: Db, e: Engine, seed: Seed)
    requires DbOk(db) && NamesUnique(db.menus, e) && NamesUnique(db.groups, e) && NamesUnique(db.values, e)
    ensures var after := Seeded(db, e, seed);
            NamesUnique(after.menus, e) && NamesUnique(after.groups, e) && NamesUnique(after.values, e)
  {
    SeedKeepsKeysUnique(db, e, seed);
    hide Seeded;
  }

  // ---------- Option values ----------

  /** Value `k` of group `g` comes after value `k0` of group `g0` in the lists. */
  predicate After(groups: seq<OptionGroup>, g0: nat, k0: nat, g: int, k: int) {
    0 <= g < |groups| && 0 <= k < |groups[g].values| && (g > g0 || (g == g0 && k > k0))
  }

  function GroupAt(t: Table<GroupFields, GroupRest>, e: Engine, restaurant: nat, group: OptionGroup): nat {
    Located(t, e, GroupEntry(restaurant, group))
  }

  /** The entry is made of a value that comes after that one. */
  ghost predicate Behind(t: Table<GroupFields, GroupRest>, e: Engine, restaurant: nat, groups: seq<OptionGroup>,
                         g: nat, k: nat, x: Entry<ValueFields>)
  {
    exists g', k' :: After(groups, g, k, g', k')
                     && x == ValueEntry(GroupAt(t, e, restaurant, groups[g']), groups[g'].values[k'])
  }

  lemma BehindStays(t: Table<GroupFields, GroupRest>, e: Engine, restaurant: nat, groups: seq<OptionGroup>,
                    g: nat, k: nat, x: Entry<ValueFields>)
    requires groups != [] && Behind(t, e, restaurant, groups[..|groups| - 1], g, k, x)
    ensures Behind(t, e, restaurant, groups, g, k, x)
  {
    hide GroupAt, ValueEntry;
    var init := groups[..|groups| - 1];
    var g', k' :| After(init, g, k, g', k')
                  && x == ValueEntry(GroupAt(t, e, restaurant, init[g']), init[g'].values[k']);
    assert After(groups, g, k, g', k');
  }

  lemma LastIsBehind(t: Table<GroupFields, GroupRest>, e: Engine, restaurant: nat, groups: seq<OptionGroup>,
                     g: nat, k: nat, k': nat)
    requires groups != [] && After(groups, g, k, |groups| - 1, k')
    ensures var last := groups[|groups| - 1];
            Behind(t, e, restaurant, groups, g, k, ValueEntry(GroupAt(t, e, restaurant, last), last.values[k']))
  {
  }

  /** Entry `p` is made of value `k` of group `g`, and those behind it of the values behind that one. */
  ghost predicate Placed(t: Table<GroupFields, GroupRest>, e: Engine, restaurant: nat, groups: seq<OptionGroup>,
                         g: nat, k: nat, p: nat)
  {
    var entries := ValueEntries(t, e, restaurant, groups);
    && g < |groups| && k < |groups[g].values| && p < |entries|
    && entries[p] == ValueEntry(GroupAt(t, e, restaurant, groups[g]), groups[g].values[k])
    && forall q :: p < q < |entries| ==> Behind(t, e, restaurant, groups, g, k, entries[q])
  }

  lemma LastGroupEntries(t: Table<GroupFields, GroupRest>, e: Engine, restaurant: nat, groups: seq<OptionGroup>)
    requires groups != []
    ensures var n := |groups| - 1;
            var entries, before := ValueEntries(t, e, restaurant, groups), ValueEntries(t, e, restaurant, groups[..n]);
            && |entries| == |before| + |groups[n].values| && entries[..|before|] == before
            && forall k :: 0 <= k < |groups[n].values| ==>
                 entries[|before| + k] == ValueEntry(GroupAt(t, e, restaurant, groups[n]), groups[n].values[k])
  {
  }

  lemma PlacedInLast(t: Table<GroupFields, GroupRest>, e: Engine, restaurant: nat, groups: seq<OptionGroup>, k: nat)
    requires groups != [] && k < |groups[|groups| - 1].values|
    ensures Placed(t, e, restaurant, groups, |groups| - 1, k, |ValueEntries(t, e, restaurant, groups[..|groups| - 1])|
              + k)
  {
    LastGroupEntries(t, e, restaurant, groups);
    hide ValueEntries, GroupAt, ValueEntry, Behind;
    var n, entries := |groups| - 1, ValueEntries(t, e, restaurant, groups);
    var m := |ValueEntries(t, e, restaurant, groups[..n])|;
    forall q | m + k < q < |entries| ensures Behind(t, e, restaurant, groups, n, k, entries[q]) {
      assert entries[m + (q - m)] == ValueEntry(GroupAt(t, e, restaurant, groups[n]), groups[n].values[q - m]);
      LastIsBehind(t, e, restaurant, groups, n, k, q - m);
    }
  }

  lemma StaysPlaced(t: Table<GroupFields, GroupRest>, e: Engine, restaurant: nat, groups: seq<OptionGroup>,
                    g: nat, k: nat, p: nat)
    requires groups != [] && Placed(t, e, restaurant, groups[..|groups| - 1], g, k, p)
    ensures Placed(t, e, restaurant, groups, g, k, p)
  {
    LastGroupEntries(t, e, restaurant, groups);
    hide ValueEntries, GroupAt, ValueEntry, Behind;
    var n, entries := |groups| - 1, ValueEntries(t, e, restaurant, groups);
    var before := ValueEntries(t, e, restaurant, groups[..n]);
    assert entries[p] == entries[..|before|][p] == before[p];
    forall q | p < q < |entries| ensures Behind(t, e, restaurant, groups, g, k, entries[q]) {
      if q < |before| {
        assert entries[q] == entries[..|before|][q] == before[q];
        BehindStays(t, e, restaurant, groups, g, k, entries[q]);
      } else {
        var m := |before|;
        assert entries[m + (q - m)] == ValueEntry(GroupAt(t, e, restaurant, groups[n]), groups[n].values[q - m]);
        LastIsBehind(t, e, restaurant, groups, g, k, q - m);
      }
    }
  }

  /** Every listed value has its place among the entries. */
  lemma {:induction false} ValuePlace(t: Table<GroupFields, GroupRest>, e: Engine, restaurant: nat,
                                      groups: seq<OptionGroup>, g: nat, k: nat)
    returns (p: nat)
    requires g < |groups| && k < |groups[g].values|
    ensures Placed(t, e, restaurant, groups, g, k, p)
  {
    hide Placed;
    if g == |groups| - 1 {
      p := |ValueEntries(t, e, restaurant, groups[..|groups| - 1])| + k;
      PlacedInLast(t, e, restaurant, groups, k);
    } else {
      p := ValuePlace(t, e, restaurant, groups[..|groups| - 1], g, k);
      StaysPlaced(t, e, restaurant, groups, g, k, p);
    }
  }

  /** The dictionary holds the row each group's name is found at. */
  lemma GroupIdsAre(db: Db, e: Engine, seed: Seed, g: nat)
    requires g < |seed.groups|
    ensures seed.groups[g].name in GroupIds(db, e, seed)
    ensures GroupIds(db, e, seed)[seed.groups[g].name]
         == GroupAt(SeededGroups(db, e, seed), e, seed.restaurant, seed.groups[g])
  {
    IdsLocate(SeededGroups(db, e, seed), e, GroupEntries(seed), g);
    hide SeededGroups;
  }

  /** No value that comes after this one has its group's id and its name. */
  predicate LastOfItsKey(e: Engine, seed: Seed, ids: NameIds, g: nat, k: nat)
    requires g < |seed.groups| && k < |seed.groups[g].values|
  {
    forall g', k' | 0 <= g' < |seed.groups| && 0 <= k' < |seed.groups[g'].values| && After(seed.groups, g, k, g', k') ::
      !(&& seed.groups[g].name in ids && seed.groups[g'].name in ids
        && ids[seed.groups[g'].name] == ids[seed.groups[g].name]
        && e.collate(seed.groups[g'].values[k'].name) == e.collate(seed.groups[g].values[k].name))
  }

  lemma NoneBehind(db: Db, e: Engine, seed: Seed, g: nat, k: nat, x: Entry<ValueFields>)
    requires g < |seed.groups| && k < |seed.groups[g].values| && LastOfItsKey(e, seed, GroupIds(db, e, seed), g, k)
    requires Behind(SeededGroups(db, e, seed), e, seed.restaurant, seed.groups, g, k, x)
    ensures seed.groups[g].name in GroupIds(db, e, seed)
    ensures !SameKey(e, x.owner, x.name, GroupIds(db, e, seed)[seed.groups[g].name], seed.groups[g].values[k].name)
  {
    GroupIdsAre(db, e, seed, g);
    hide GroupAt, SeededGroups, GroupIds;
    var t := SeededGroups(db, e, seed);
    var g', k' :| After(seed.groups, g, k, g', k')
                  && x == ValueEntry(GroupAt(t, e, seed.restaurant, seed.groups[g']), seed.groups[g'].values[k']);
    GroupIdsAre(db, e, seed, g');
  }

  /** Of the values of one key the last decides: under its group's id there is a row of its name that holds it. */
  lemma ValueTakesEffect(db: Db, e: Engine, seed: Seed, g: nat, k: nat) returns (id: nat)
    requires DbOk(db) && Resolvable(seed) && g < |seed.groups| && k < |seed.groups[g].values|
    requires LastOfItsKey(e, seed, GroupIds(db, e, seed), g, k)
    ensures var value, t := seed.groups[g].values[k], Seeded(db, e, seed).values;
            && seed.groups[g].name in GroupIds(db, e, seed) && id in t.rows
            && var group := GroupIds(db, e, seed)[seed.groups[g].name];
               && SameKey(e, t.rows[id].owner, t.rows[id].name, group, value.name)
               && t.rows[id].fields == ValueEntry(group, value).fields
  {
    var groups := SeededGroups(db, e, seed);
    var entries := ValueEntries(groups, e, seed.restaurant, seed.groups);
    var p := ValuePlace(groups, e, seed.restaurant, seed.groups, g, k);
    GroupIdsAre(db, e, seed, g);
    SeededValuesAre(db, e, seed);
    hide UpsertAll, SeededGroups, Seeded, GroupIds, ValueEntries, LastOfItsKey;
    var x := entries[p];
    forall q | p < q < |entries| ensures !SameKey(e, entries[q].owner, entries[q].name, x.owner, x.name) {
      assert Behind(groups, e, seed.restaurant, seed.groups, g, k, entries[q]);
      NoneBehind(db, e, seed, g, k, entries[q]);
    }
    hide GroupAt, Behind, LastFor;
    LastForIs(e, entries, x, p);
    LastWins(db.values, e, entries, NoRest, x);
    id := Located(UpsertAll(db.values, e, entries, NoRest), e, x);
    FoundHasKey(UpsertAll(db.values, e, entries, NoRest), e, x);
  }

  lemma SeededValuesAre(db: Db, e: Engine, seed: Seed)
    requires Resolvable(seed)
    ensures Seeded(db, e, seed).values
         == UpsertAll(db.values, e, ValueEntries(SeededGroups(db, e, seed), e, seed.restaurant, seed.groups), NoRest)
  {
    hide UpsertAll, SeededGroups, ValueEntries;
  }

  lemma FoundHasKey<F, X>(t: Table<F, X>, e: Engine, x: Entry<F>)
    requires Found(t, e, x)
    ensures Located(t, e, x) in t.rows
    ensures SameKey(e, t.rows[Located(t, e, x)].owner, t.rows[Located(t, e, x)].name, x.owner, x.name)
  {
    assert Located(t, e, x) in Matches(t, e, x.owner, x.name);
  }

  /** Its columns, from its own attributes. */
  lemma ValueColumns(db: Db, e: Engine, seed: Seed, g: nat, k: nat) returns (id: nat)
    requires DbOk(db) && Resolvable(seed) && g < |seed.groups| && k < |seed.groups[g].values|
    requires LastOfItsKey(e, seed, GroupIds(db, e, seed), g, k)
    ensures var value, t := seed.groups[g].values[k], Seeded(db, e, seed).values;
            var a := value.attrs;
            && seed.groups[g].name in GroupIds(db, e, seed) && id in t.rows
            && var row := t.rows[id];
               && row.owner == GroupIds(db, e, seed)[seed.groups[g].name]
                   && e.collate(row.name) == e.collate(value.name)
               && row.fields.priceDelta == (if "price_delta" in a then a["price_delta"] else Whole(0))
               && row.fields.isDefault == (if "is_default" in a then a["is_default"] else Flag(false))
               && row.fields.isAvailable == (if "is_available" in a then a["is_available"] else Flag(true))
               && row.fields.sortOrder == (if "sort_order" in a then a["sort_order"] else Whole(0))
  {
    id := ValueTakesEffect(db, e, seed, g, k);
    hide Seeded, GroupIds, LastOfItsKey;
  }
}
