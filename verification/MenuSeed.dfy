/** The menu seed (`scripts/seed_frying_pan_menu.py`): upserts over four tables, in one transaction. */
module MenuSeed {
  import opened Text
  import opened Tables

  /** A column value. */
  datatype Cell = Null | Flag(b: bool) | Whole(n: int) | Amount(r: real) | Words(s: string)

  type Attributes = map<string, Cell>

  /** The attachments by (item, group), and the dictionaries from names to ids. */
  type Links = map<(nat, nat), LinkFields>

  type NameIds = map<string, nat>

  /** An attachment as names: the item's, then the group's. */
  type Pair = (string, string)

  /** Python's `attrs.get(key, default)`. */
  function Get(attrs: Attributes, key: string, default: Cell): Cell {
    if key in attrs then attrs[key] else default
  }

  datatype MenuItem = MenuItem(itemName: string, attrs: Attributes)
  datatype OptionValue = OptionValue(name: string, attrs: Attributes)
  datatype OptionGroup = OptionGroup(name: string, attrs: Attributes, values: seq<OptionValue>)

  datatype MenuFields = MenuFields(
    category: Cell, subCategory: Cell, itemDesc: Cell, price: Cell, avgPrepTime: Cell, isAvailable: Cell,
    isSpecial: Cell)
  datatype MenuRest = MenuRest(suggestedItems: Cell)

  datatype GroupFields = GroupFields(
    description: Cell, selectionType: Cell, minSelect: Cell, maxSelect: Cell, freeAllowance: Cell, allowsQuantity: Cell,
    maxQuantityPerOption: Cell, promptStyle: Cell, isRequired: Cell, isAvailable: Cell, sortOrder: Cell)
  datatype GroupRest = GroupRest(freeAllowanceStrategy: Cell)

  datatype ValueFields = ValueFields(priceDelta: Cell, isDefault: Cell, isAvailable: Cell, sortOrder: Cell)
  datatype ValueRest = NoRest

  datatype LinkFields = LinkFields(
    minSelect: Cell, maxSelect: Cell, freeAllowance: Cell, allowsQuantity: Cell, maxQuantityPerOption: Cell,
    isRequired: Cell, sortOrder: Cell)

  const NEW_MENU := MenuRest(Null)
  const NEW_GROUP := GroupRest(Words("HIGHEST_PRICE_FIRST"))

  /** `Menus`, `Menu_Option_Groups`, `Menu_Option_Values` and `Menu_Item_Option_Groups`, whose key is (item, group). */
  datatype Db = Db(
    menus: Table<MenuFields, MenuRest>,
    groups: Table<GroupFields, GroupRest>,
    values: Table<ValueFields, ValueRest>,
    links: Links)

  function MenuEntry(restaurant: nat, item: MenuItem): Entry<MenuFields> {
    var a := item.attrs;
    Entry(restaurant, item.itemName,
          MenuFields(Get(a, "category", Null), Get(a, "sub_category", Null), Get(a, "item_desc", Null),
                     Get(a, "price", Null), Get(a, "avg_prep_time", Null), Get(a, "is_available", Flag(true)),
                     Get(a, "is_special", Flag(false))))
  }

  function GroupEntry(restaurant: nat, group: OptionGroup): Entry<GroupFields> {
    var a := group.attrs;
    Entry(restaurant, group.name,
          GroupFields(Get(a, "description", Null), Get(a, "selection_type", Words("multiple")),
                      Get(a, "min_select", Whole(0)), Get(a, "max_select", Null), Get(a, "free_allowance", Whole(0)),
                      Get(a, "allows_quantity", Flag(false)),
                      Get(a, "max_quantity_per_option", Null), Get(a, "prompt_style", Words("ASK_IF_MENTIONED")),
                      Get(a, "is_required", Flag(false)), Get(a, "is_available", Flag(true)),
                      Get(a, "sort_order", Whole(0))))
  }

  function ValueEntry(group: nat, value: OptionValue): Entry<ValueFields> {
    var a := value.attrs;
    Entry(group, value.name,
          ValueFields(Get(a, "price_delta", Whole(0)), Get(a, "is_default", Flag(false)),
                      Get(a, "is_available", Flag(true)),
                      Get(a, "sort_order", Whole(0))))
  }

  function LinkOverrides(a: Attributes): LinkFields {
    LinkFields(Get(a, "min_select_override", Null), Get(a, "max_select_override", Null),
               Get(a, "free_allowance_override", Null),
               Get(a, "allows_quantity_override", Null), Get(a, "max_quantity_per_option_override", Null),
               Get(a, "is_required_override", Null), Get(a, "sort_order", Whole(0)))
  }

  /** The rows that attach groups to items: every group of a block to every item of it. */
  datatype Block = Block(items: seq<string>, groups: seq<string>)

  datatype Seed = Seed(restaurant: nat, items: seq<MenuItem>, groups: seq<OptionGroup>, blocks: seq<Block>)

  // ---------- What a seed leads to ----------

  function MenuEntries(seed: Seed): seq<Entry<MenuFields>> {
    seq(|seed.items|, i requires 0 <= i < |seed.items| => MenuEntry(seed.restaurant, seed.items[i]))
  }

  function GroupEntries(seed: Seed): seq<Entry<GroupFields>> {
    seq(|seed.groups|, i requires 0 <= i < |seed.groups| => GroupEntry(seed.restaurant, seed.groups[i]))
  }

  function ValuesOf(group: nat, values: seq<OptionValue>): seq<Entry<ValueFields>> {
    seq(|values|, i requires 0 <= i < |values| => ValueEntry(group, values[i]))
  }

  /** The option values, each under the id its group has in the given table. */
  function ValueEntries(groupTable: Table<GroupFields, GroupRest>, e: Engine, restaurant: nat,
                        groups: seq<OptionGroup>): seq<Entry<ValueFields>> {
    if groups == [] then []
    else
      var last := groups[|groups| - 1];
      ValueEntries(groupTable, e, restaurant, groups[..|groups| - 1])
        + ValuesOf(Located(groupTable, e, GroupEntry(restaurant, last)), last.values)
  }

  /** A name-to-id map read off the final table. */
  function Ids<F, X>(t: Table<F, X>, e: Engine, entries: seq<Entry<F>>): NameIds {
    if entries == [] then map[]
    else
      var last := entries[|entries| - 1];
      Ids(t, e, entries[..|entries| - 1])[last.name := Located(t, e, last)]
  }

  function ItemPairs(item: string, groups: seq<string>): seq<Pair> {
    seq(|groups|, i requires 0 <= i < |groups| => (item, groups[i]))
  }

  /** The attachments in order, as names. */
  function BlockPairs(items: seq<string>, groups: seq<string>): seq<Pair> {
    if items == [] then []
    else BlockPairs(items[..|items| - 1], groups) + ItemPairs(items[|items| - 1], groups)
  }

  function Pairs(blocks: seq<Block>): seq<Pair> {
    if blocks == [] then []
    else Pairs(blocks[..|blocks| - 1]) + BlockPairs(blocks[|blocks| - 1].items, blocks[|blocks| - 1].groups)
  }

  /** Whether the attachments meet no name the seed lists do not have; the source looks names up in dictionaries. */
  predicate Resolvable(seed: Seed) {
    forall b :: b in seed.blocks ==>
      && (forall n :: n in b.items ==> exists i :: 0 <= i < |seed.items| && seed.items[i].itemName == n)
      && (b.items != [] ==> forall n :: n in b.groups ==>
            exists i :: 0 <= i < |seed.groups| && seed.groups[i].name == n)
  }

  predicate Known(pairs: seq<Pair>, menuIds: NameIds, groupIds: NameIds) {
    forall p <- pairs :: p.0 in menuIds && p.1 in groupIds
  }

  function LinkAll(links: Links, menuIds: NameIds, groupIds: NameIds, pairs: seq<Pair>): Links
    requires Known(pairs, menuIds, groupIds)
  {
    if pairs == [] then links
    else
      var (item, group) := pairs[|pairs| - 1];
      LinkAll(links, menuIds, groupIds, pairs[..|pairs| - 1])[(menuIds[item], groupIds[group]) := LinkOverrides(map[])]
  }

  function SeededMenus(db: Db, e: Engine, seed: Seed): Table<MenuFields, MenuRest> {
    UpsertAll(db.menus, e, MenuEntries(seed), NEW_MENU)
  }

  function SeededGroups(db: Db, e: Engine, seed: Seed): Table<GroupFields, GroupRest> {
    UpsertAll(db.groups, e, GroupEntries(seed), NEW_GROUP)
  }

  function MenuIds(db: Db, e: Engine, seed: Seed): NameIds {
    Ids(SeededMenus(db, e, seed), e, MenuEntries(seed))
  }

  function GroupIds(db: Db, e: Engine, seed: Seed): NameIds {
    Ids(SeededGroups(db, e, seed), e, GroupEntries(seed))
  }

  lemma {:induction false} IdsNames<F, X>(t: Table<F, X>, e: Engine, entries: seq<Entry<F>>, name: string)
    ensures name in Ids(t, e, entries) <==> exists i :: 0 <= i < |entries| && entries[i].name == name
  {
    if entries != [] {
      IdsNames(t, e, entries[..|entries| - 1], name);
      assert forall i :: 0 <= i < |entries| - 1 ==> entries[..|entries| - 1][i] == entries[i];
    }
  }

  lemma PairsResolve(db: Db, e: Engine, seed: Seed)
    requires Resolvable(seed)
    ensures Known(Pairs(seed.blocks), MenuIds(db, e, seed), GroupIds(db, e, seed))
  {
    forall p | p in Pairs(seed.blocks)
      ensures p.0 in MenuIds(db, e, seed) && p.1 in GroupIds(db, e, seed)
    {
      var b := PairsFrom(seed.blocks, p);
      var i :| 0 <= i < |seed.items| && seed.items[i].itemName == p.0;
      assert MenuEntries(seed)[i].name == p.0;
      IdsNames(SeededMenus(db, e, seed), e, MenuEntries(seed), p.0);
      var j :| 0 <= j < |seed.groups| && seed.groups[j].name == p.1;
      assert GroupEntries(seed)[j].name == p.1;
      IdsNames(SeededGroups(db, e, seed), e, GroupEntries(seed), p.1);
    }
  }

  lemma {:induction false} PairsFrom(blocks: seq<Block>, p: (string, string)) returns (b: Block)
    requires p in Pairs(blocks)
    ensures b in blocks && p.0 in b.items && p.1 in b.groups
  {
    var last := blocks[|blocks| - 1];
    if p in Pairs(blocks[..|blocks| - 1]) {
      b := PairsFrom(blocks[..|blocks| - 1], p);
    } else {
      b := last;
      BlockPairsFrom(last.items, last.groups, p);
    }
  }

  lemma {:induction false} BlockPairsFrom(items: seq<string>, groups: seq<string>, p: (string, string))
    requires p in BlockPairs(items, groups)
    ensures p.0 in items && p.1 in groups
  {
    if p in BlockPairs(items[..|items| - 1], groups) {
      BlockPairsFrom(items[..|items| - 1], groups, p);
    }
  }

  /** The database a run commits. A name that is missing raises `KeyError` before the commit, so nothing is kept. */
  function Seeded(db: Db, e: Engine, seed: Seed): Db {
    if !Resolvable(seed) then db
    else
      PairsResolve(db, e, seed);
      Db(SeededMenus(db, e, seed), SeededGroups(db, e, seed),
         UpsertAll(db.values, e, ValueEntries(SeededGroups(db, e, seed), e, seed.restaurant, seed.groups), NoRest),
         LinkAll(db.links, MenuIds(db, e, seed), GroupIds(db, e, seed), Pairs(seed.blocks)))
  }

  ghost predicate DbOk(db: Db) {
    Ok(db.menus) && Ok(db.groups) && Ok(db.values)
  }

  // ---------- The script ----------

  /** A connection with its open transaction: `working` is what it sees, `committed` what others will see. */
  class Session {
    const engine: Engine
    var working: Db
    var committed: Db

    constructor (engine: Engine, db: Db)
      ensures this.engine == engine && working == committed == db
    {
      this.engine := engine;
      working, committed := db, db;
    }

    method EnsureMenuItem(restaurant: nat, item: MenuItem) returns (id: nat)
      modifies this`working
      ensures (working.menus, id) == Upsert(old(working).menus, engine, MenuEntry(restaurant, item), NEW_MENU)
      ensures working == old(working).(menus := working.menus)
    {
      var t, x := working.menus, MenuEntry(restaurant, item);
      var found := Matches(t, engine, restaurant, item.itemName);
      if found != {} {
        id := engine.pick(found);
        working := working.(menus := t.(rows := t.rows[id := t.rows[id].(fields := x.fields)]));
      } else {
        id := t.next;
        working := working.(menus := Table(t.rows[id := Row(restaurant, item.itemName, x.fields, NEW_MENU)], id + 1));
      }
    }

    method EnsureOptionGroup(restaurant: nat, group: OptionGroup) returns (id: nat)
      modifies this`working
      ensures (working.groups, id) == Upsert(old(working).groups, engine, GroupEntry(restaurant, group), NEW_GROUP)
      ensures working == old(working).(groups := working.groups)
    {
      var t, x := working.groups, GroupEntry(restaurant, group);
      var found := Matches(t, engine, restaurant, group.name);
      if found != {} {
        id := engine.pick(found);
        working := working.(groups := t.(rows := t.rows[id := t.rows[id].(fields := x.fields)]));
      } else {
        id := t.next;
        working := working.(groups := Table(t.rows[id := Row(restaurant, group.name, x.fields, NEW_GROUP)], id + 1));
      }
    }

    method EnsureOptionValue(group: nat, value: OptionValue) returns (id: nat)
      modifies this`working
      ensures (working.values, id) == Upsert(old(working).values, engine, ValueEntry(group, value), NoRest)
      ensures working == old(working).(values := working.values)
    {
      var t, x := working.values, ValueEntry(group, value);
      var found := Matches(t, engine, group, value.name);
      if found != {} {
        id := engine.pick(found);
        working := working.(values := t.(rows := t.rows[id := t.rows[id].(fields := x.fields)]));
      } else {
        id := t.next;
        working := working.(values := Table(t.rows[id := Row(group, value.name, x.fields, NoRest)], id + 1));
      }
    }

    /** One statement: insert, or update on a duplicate (item, group). */
    method AttachGroupToItem(item: nat, group: nat, overrides: Attributes)
      modifies this`working
      ensures working == old(working).(links := old(working).links[(item, group) := LinkOverrides(overrides)])
    {
      working := working.(links := working.links[(item, group) := LinkOverrides(overrides)]);
    }

    method SeedMenus(seed: Seed) returns (menuIds: NameIds)
      requires DbOk(working)
      modifies this`working
      ensures working == old(working).(menus := SeededMenus(old(working), engine, seed))
      ensures menuIds == MenuIds(old(working), engine, seed)
    {
      ghost var db, entries := working, MenuEntries(seed);
      menuIds := map[];
      for i := 0 to |seed.items|
        invariant working == db.(menus := UpsertAll(db.menus, engine, entries[..i], NEW_MENU))
        invariant menuIds == Ids(working.menus, engine, entries[..i])
      {
        OneMoreEntry(db.menus, engine, entries, NEW_MENU, i);
        var id := EnsureMenuItem(seed.restaurant, seed.items[i]);
        menuIds := menuIds[seed.items[i].itemName := id];
      }
      assert entries[..|seed.items|] == entries;
    }

    method SeedGroups(seed: Seed) returns (groupIds: NameIds)
      requires DbOk(working)
      modifies this`working
      ensures working == old(working).(
                groups := SeededGroups(old(working), engine, seed),
                values := UpsertAll(old(working).values, engine,
                                    ValueEntries(SeededGroups(old(working), engine, seed), engine, seed.restaurant,
                                        seed.groups), NoRest))
      ensures groupIds == GroupIds(old(working), engine, seed)
    {
      ghost var db, entries := working, GroupEntries(seed);
      groupIds := map[];
      for i := 0 to |seed.groups|
        invariant working == db.(groups := working.groups, values := working.values)
        invariant working.groups == UpsertAll(db.groups, engine, entries[..i], NEW_GROUP)
        invariant working.values == UpsertAll(db.values, engine,
                                              ValueEntries(working.groups, engine, seed.restaurant, seed.groups[..i]),
                                                  NoRest)
        invariant groupIds == Ids(working.groups, engine, entries[..i])
      {
        OneMoreEntry(db.groups, engine, entries, NEW_GROUP, i);
        OneMoreGroup(db.groups, engine, seed, i);
        var group := seed.groups[i];
        var id := EnsureOptionGroup(seed.restaurant, group);
        groupIds := groupIds[group.name := id];
        SeedValues(id, group.values, db.values,
            ValueEntries(working.groups, engine, seed.restaurant, seed.groups[..i]));
      }
      assert entries[..|seed.groups|] == entries && seed.groups[..|seed.groups|] == seed.groups;
    }

    /** The inner loop over a group's values; `before` are the values written so far. */
    method SeedValues(group: nat, values: seq<OptionValue>, ghost start: Table<ValueFields, ValueRest>,
                      ghost before: seq<Entry<ValueFields>>)
      requires working.values == UpsertAll(start, engine, before, NoRest)
      modifies this`working
      ensures working == old(working).(values := UpsertAll(start, engine, before + ValuesOf(group, values), NoRest))
    {
      hide UpsertAll;
      ghost var db, done := working, before;
      for j := 0 to |values|
        invariant done == before + ValuesOf(group, values)[..j]
        invariant working == db.(values := UpsertAll(start, engine, done, NoRest))
      {
        ghost var entry := ValuesOf(group, values)[j];
        UpsertAllSnoc(start, engine, done, entry, NoRest);
        var _ := EnsureOptionValue(group, values[j]);
        done := done + [entry];
      }
      assert done == before + ValuesOf(group, values);
    }

    /** The attach loops; false is the `KeyError`. */
    method SeedLinks(blocks: seq<Block>, menuIds: NameIds, groupIds: NameIds) returns (ok: bool)
      modifies this`working
      ensures ok <==> BlocksResolve(blocks, menuIds, groupIds)
      ensures ok ==> Known(Pairs(blocks), menuIds, groupIds)
      ensures ok ==> working == old(working).(links := LinkAll(old(working).links, menuIds, groupIds, Pairs(blocks)))
    {
      ghost var db := working;
      for b := 0 to |blocks|
        invariant BlocksResolve(blocks[..b], menuIds, groupIds)
        invariant Known(Pairs(blocks[..b]), menuIds, groupIds)
        invariant working == db.(links := LinkAll(db.links, menuIds, groupIds, Pairs(blocks[..b])))
      {
        assert blocks[b] in blocks && blocks[..b + 1][..b] == blocks[..b];
        var found := SeedBlock(blocks[b], menuIds, groupIds, db.links, Pairs(blocks[..b]));
        if !found {
          return false;
        }
      }
      assert blocks[..|blocks|] == blocks;
      return true;
    }

    /** The attachments of one item. */
    method AttachAll(item: string, groups: seq<string>, menuIds: NameIds, groupIds: NameIds, ghost start: Links,
                     ghost before: seq<Pair>)
      returns (ok: bool)
      requires item in menuIds && Known(before, menuIds, groupIds)
      requires working.links == LinkAll(start, menuIds, groupIds, before)
      modifies this`working
      ensures ok <==> forall n :: n in groups ==> n in groupIds
      ensures ok ==> Known(before + ItemPairs(item, groups), menuIds, groupIds)
      ensures ok ==> working == old(working).(
                links := LinkAll(start, menuIds, groupIds, before + ItemPairs(item, groups)))
    {
      hide LinkAll, Known;
      ghost var db, done := working, before;
      for k := 0 to |groups|
        invariant forall j :: 0 <= j < k ==> groups[j] in groupIds
        invariant done == before + ItemPairs(item, groups)[..k]
        invariant Known(done, menuIds, groupIds)
        invariant working == db.(links := LinkAll(start, menuIds, groupIds, done))
      {
        if groups[k] !in groupIds {
          return false;
        }
        LinkAllSnoc(start, menuIds, groupIds, done, (item, groups[k]));
        AttachGroupToItem(menuIds[item], groupIds[groups[k]], map[]);
        done := done + [(item, groups[k])];
      }
      assert done == before + ItemPairs(item, groups);
      return true;
    }

    method SeedBlock(block: Block, menuIds: NameIds, groupIds: NameIds, ghost start: Links, ghost before: seq<Pair>)
      returns (ok: bool)
      requires Known(before, menuIds, groupIds)
      requires working.links == LinkAll(start, menuIds, groupIds, before)
      modifies this`working
      ensures ok <==> BlockResolves(block, menuIds, groupIds)
      ensures ok ==> Known(before + BlockPairs(block.items, block.groups), menuIds, groupIds)
      ensures ok ==> working == old(working).(
                links := LinkAll(start, menuIds, groupIds, before + BlockPairs(block.items, block.groups)))
    {
      hide LinkAll, ItemPairs, Known;
      ghost var db, done := working, before;
      assert before == before + BlockPairs(block.items[..0], block.groups);
      hide BlockPairs;
      for i := 0 to |block.items|
        invariant forall j :: 0 <= j < i ==> block.items[j] in menuIds
        invariant i > 0 ==> forall n :: n in block.groups ==> n in groupIds
        invariant done == before + BlockPairs(block.items[..i], block.groups)
        invariant Known(done, menuIds, groupIds)
        invariant working == db.(links := LinkAll(start, menuIds, groupIds, done))
      {
        if block.items[i] !in menuIds {
          return false;
        }
        var found := AttachAll(block.items[i], block.groups, menuIds, groupIds, start, done);
        if !found {
          return false;
        }
        BlockPairsSnoc(block, before, i);
        done := done + ItemPairs(block.items[i], block.groups);
      }
      assert block.items[..|block.items|] == block.items;
      return true;
    }

    /** `main`. */
    method SeedDatabase(seed: Seed) returns (ids: Option<(NameIds, NameIds)>)
      requires working == committed && DbOk(committed)
      modifies this
      ensures committed == Seeded(old(committed), engine, seed)
      ensures ids.None? <==> exists b <- seed.blocks ::
                || (exists n <- b.items :: forall i :: 0 <= i < |seed.items| ==> seed.items[i].itemName != n)
                || (b.items != []
                    && exists n <- b.groups :: forall i :: 0 <= i < |seed.groups| ==> seed.groups[i].name != n)
      ensures ids.None? ==> committed == old(committed)
      ensures ids == if Resolvable(seed)
                     then Some((MenuIds(old(committed), engine, seed), GroupIds(old(committed), engine, seed)))
                     else None
    {
      ghost var db := committed;
      var menuIds := SeedMenus(seed);
      UpsertAllOk(db.menus, engine, MenuEntries(seed), NEW_MENU);
      var groupIds := SeedGroups(seed);
      assert SeededGroups(db.(menus := working.menus), engine, seed) == SeededGroups(db, engine, seed);
      assert groupIds == GroupIds(db, engine, seed);
      ResolvableIs(db, engine, seed);
      var ok := SeedLinks(seed.blocks, menuIds, groupIds);
      if !ok {
        return None;
      }
      committed := working;
      return Some((menuIds, groupIds));
    }
  }

  predicate BlockResolves(block: Block, menuIds: NameIds, groupIds: NameIds) {
    && (forall n :: n in block.items ==> n in menuIds)
    && (block.items != [] ==> forall n :: n in block.groups ==> n in groupIds)
  }

  predicate BlocksResolve(blocks: seq<Block>, menuIds: NameIds, groupIds: NameIds) {
    forall b :: b in blocks ==> BlockResolves(b, menuIds, groupIds)
  }

  lemma MenuIdsNames(db: Db, e: Engine, seed: Seed, n: string)
    ensures n in MenuIds(db, e, seed) <==> exists i :: 0 <= i < |seed.items| && seed.items[i].itemName == n
  {
    IdsNames(SeededMenus(db, e, seed), e, MenuEntries(seed), n);
    assert forall i :: 0 <= i < |seed.items| ==> MenuEntries(seed)[i].name == seed.items[i].itemName;
  }

  lemma GroupIdsNames(db: Db, e: Engine, seed: Seed, n: string)
    ensures n in GroupIds(db, e, seed) <==> exists i :: 0 <= i < |seed.groups| && seed.groups[i].name == n
  {
    IdsNames(SeededGroups(db, e, seed), e, GroupEntries(seed), n);
    assert forall i :: 0 <= i < |seed.groups| ==> GroupEntries(seed)[i].name == seed.groups[i].name;
  }

  lemma ResolvableIs(db: Db, e: Engine, seed: Seed)
    ensures Resolvable(seed) <==> BlocksResolve(seed.blocks, MenuIds(db, e, seed), GroupIds(db, e, seed))
  {
    hide MenuIds, GroupIds;
    forall n: string
      ensures n in MenuIds(db, e, seed) <==> exists i :: 0 <= i < |seed.items| && seed.items[i].itemName == n
    {
      MenuIdsNames(db, e, seed, n);
    }
    forall n: string
      ensures n in GroupIds(db, e, seed) <==> exists i :: 0 <= i < |seed.groups| && seed.groups[i].name == n
    {
      GroupIdsNames(db, e, seed, n);
    }
  }

  lemma UpsertAllSnoc<F, X>(t: Table<F, X>, e: Engine, entries: seq<Entry<F>>, x: Entry<F>, rest: X)
    ensures UpsertAll(t, e, entries + [x], rest) == Upsert(UpsertAll(t, e, entries, rest), e, x, rest).0
  {
    assert (entries + [x])[..|entries|] == entries;
  }

  lemma LinkAllSnoc(links: Links, menuIds: NameIds, groupIds: NameIds, pairs: seq<Pair>, p: (string, string))
    requires Known(pairs, menuIds, groupIds) && p.0 in menuIds && p.1 in groupIds
    ensures Known(pairs + [p], menuIds, groupIds)
    ensures LinkAll(links, menuIds, groupIds, pairs + [p])
         == LinkAll(links, menuIds, groupIds, pairs)[(menuIds[p.0], groupIds[p.1]) := LinkOverrides(map[])]
  {
    assert (pairs + [p])[..|pairs|] == pairs;
  }

  lemma BlockPairsSnoc(block: Block, before: seq<Pair>, i: nat)
    requires i < |block.items|
    ensures before + BlockPairs(block.items[..i + 1], block.groups)
         == before + BlockPairs(block.items[..i], block.groups)
            + ItemPairs(block.items[i], block.groups)
  {
    assert block.items[..i + 1][..i] == block.items[..i];
  }

  /** Ids read off the table survive an upsert, which adds its own. */
  lemma {:induction false} IdsStay<F, X>(t: Table<F, X>, e: Engine, entries: seq<Entry<F>>, y: Entry<F>, rest: X)
    requires Ok(t) && AllFound(t, e, entries)
    ensures Ids(Upsert(t, e, y, rest).0, e, entries) == Ids(t, e, entries)
  {
    if entries != [] {
      var before, last := entries[..|entries| - 1], entries[|entries| - 1];
      assert Found(t, e, entries[|before|]);
      MatchesStay(t, e, y, rest, last.owner, last.name);
      assert AllFound(t, e, before) by {
        forall k | 0 <= k < |before| ensures Found(t, e, before[k]) {
          assert Found(t, e, entries[k]);
        }
      }
      IdsStay(t, e, before, y, rest);
    }
  }

  lemma OneMoreEntry<F, X>(t: Table<F, X>, e: Engine, entries: seq<Entry<F>>, rest: X, i: nat)
    requires Ok(t) && i < |entries|
    ensures var mid := UpsertAll(t, e, entries[..i], rest);
            var (t', id) := Upsert(mid, e, entries[i], rest);
            && UpsertAll(t, e, entries[..i + 1], rest) == t'
            && Ids(t', e, entries[..i + 1]) == Ids(mid, e, entries[..i])[entries[i].name := id]
  {
    var mid := UpsertAll(t, e, entries[..i], rest);
    assert entries[..i + 1][..i] == entries[..i];
    UpsertAllOk(t, e, entries[..i], rest);
    UpsertAllFinds(t, e, entries[..i], rest);
    IdsStay(mid, e, entries[..i], entries[i], rest);
    UpsertFinds(mid, e, entries[i], rest);
  }

  lemma {:induction false} ValueEntriesStay(t: Table<GroupFields, GroupRest>, e: Engine, restaurant: nat,
                                            groups: seq<OptionGroup>, y: Entry<GroupFields>)
    requires Ok(t) && forall k :: 0 <= k < |groups| ==> Found(t, e, GroupEntry(restaurant, groups[k]))
    ensures ValueEntries(Upsert(t, e, y, NEW_GROUP).0, e, restaurant, groups) == ValueEntries(t, e, restaurant, groups)
  {
    if groups != [] {
      var last := groups[|groups| - 1];
      assert Found(t, e, GroupEntry(restaurant, last));
      MatchesStay(t, e, y, NEW_GROUP, restaurant, last.name);
      ValueEntriesStay(t, e, restaurant, groups[..|groups| - 1], y);
    }
  }

  lemma OneMoreGroup(t: Table<GroupFields, GroupRest>, e: Engine, seed: Seed, i: nat)
    requires Ok(t) && i < |seed.groups|
    ensures var mid := UpsertAll(t, e, GroupEntries(seed)[..i], NEW_GROUP);
            var (t', id) := Upsert(mid, e, GroupEntries(seed)[i], NEW_GROUP);
            && ValueEntries(t', e, seed.restaurant, seed.groups[..i])
               == ValueEntries(mid, e, seed.restaurant, seed.groups[..i])
            && ValueEntries(t', e, seed.restaurant, seed.groups[..i + 1])
                 == ValueEntries(t', e, seed.restaurant, seed.groups[..i]) + ValuesOf(id, seed.groups[i].values)
  {
    hide UpsertAll, Upsert;
    var entries := GroupEntries(seed);
    var mid := UpsertAll(t, e, entries[..i], NEW_GROUP);
    UpsertAllOk(t, e, entries[..i], NEW_GROUP);
    UpsertAllFinds(t, e, entries[..i], NEW_GROUP);
    UpsertFinds(mid, e, entries[i], NEW_GROUP);
    forall k | 0 <= k < i ensures Found(mid, e, GroupEntry(seed.restaurant, seed.groups[..i][k])) {
      assert Found(mid, e, entries[..i][k]);
    }
    ValueEntriesStay(mid, e, seed.restaurant, seed.groups[..i], entries[i]);
    assert seed.groups[..i + 1][..i] == seed.groups[..i];
  }
}
