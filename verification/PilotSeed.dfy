/**
  The pilot seed (`scripts/seed_pilot_restaurants.py`): insert what is missing, skip what is there; the first of equal
  names wins.
 */
module PilotSeed {
  import opened Tables
  import opened MenuSeed

  type MenuTable = Table<MenuFields, MenuRest>

  /** Whether a statement for the item at an index raises the connector's error. */
  type Fails = nat -> bool

  datatype PilotItem = PilotItem(itemName: string, price: Cell, attrs: Attributes)

  function PilotEntry(restaurant: nat, item: PilotItem): Entry<MenuFields> {
    var a := item.attrs;
    Entry(restaurant, item.itemName,
          MenuFields(Get(a, "category", Null), Get(a, "sub_category", Null), Get(a, "item_desc", Null), item.price,
                     Get(a, "avg_prep_time", Whole(15)), Get(a, "is_available", Flag(true)),
                     Get(a, "is_special", Flag(false))))
  }

  function PilotRow(restaurant: nat, item: PilotItem): Row<MenuFields, MenuRest> {
    Row(restaurant, item.itemName, PilotEntry(restaurant, item).fields,
        MenuRest(Get(item.attrs, "suggested_items", Words("[]"))))
  }

  datatype Tally = Tally(menus: MenuTable, added: nat, skipped: nat, failed: nat)

  /** The loop over the first `n` items; `fails(i)` says that a statement for item `i` raised the connector's error. */
  function AddUpTo(t: MenuTable, e: Engine, restaurant: nat, items: seq<PilotItem>, fails: Fails, n: nat): Tally
    requires n <= |items|
  {
    if n == 0 then Tally(t, 0, 0, 0)
    else
      var s, item := AddUpTo(t, e, restaurant, items, fails, n - 1), items[n - 1];
      if fails(n - 1) then s.(failed := s.failed + 1)
      else if Matches(s.menus, e, restaurant, item.itemName) != {} then s.(skipped := s.skipped + 1)
      else
        var m := s.menus;
        s.(menus := Table(m.rows[m.next := PilotRow(restaurant, item)], m.next + 1), added := s.added + 1)
  }

  function AddAll(t: MenuTable, e: Engine, restaurant: nat, items: seq<PilotItem>, fails: Fails): Tally {
    AddUpTo(t, e, restaurant, items, fails, |items|)
  }

  class MenuConnection {
    const engine: Engine
    var menus: MenuTable

    constructor (engine: Engine, menus: MenuTable)
      ensures this.engine == engine && this.menus == menus
    {
      this.engine, this.menus := engine, menus;
    }

    method AddMenuItems(restaurant: nat, items: seq<PilotItem>, fails: Fails) returns (added: nat, skipped: nat)
      modifies this
      ensures var all := AddAll(old(menus), engine, restaurant, items, fails);
              menus == all.menus && added == all.added && skipped == all.skipped
    {
      added, skipped := 0, 0;
      for i := 0 to |items|
        invariant var all := AddUpTo(old(menus), engine, restaurant, items, fails, i);
                  menus == all.menus && added == all.added && skipped == all.skipped
      {
        if fails(i) {
          continue;
        }
        if Matches(menus, engine, restaurant, items[i].itemName) != {} {
          skipped := skipped + 1;
          continue;
        }
        menus := Table(menus.rows[menus.next := PilotRow(restaurant, items[i])], menus.next + 1);
        added := added + 1;
      }
    }
  }

  // ---------- What the loop does ----------

  function Failures(fails: Fails, n: nat): nat {
    if n == 0 then 0 else Failures(fails, n - 1) + if fails(n - 1) then 1 else 0
  }

  lemma {:induction false} CountsAddUp(t: MenuTable, e: Engine, restaurant: nat, items: seq<PilotItem>, fails: Fails,
                                       n: nat)
    requires n <= |items|
    ensures var s := AddUpTo(t, e, restaurant, items, fails, n);
            && s.added + s.skipped + s.failed == n && s.failed == Failures(fails, n)
            && s.menus.next == t.next + s.added
  {
    if n > 0 {
      CountsAddUp(t, e, restaurant, items, fails, n - 1);
    }
  }

  /** Item `i` is the first of its key that did not fail, and the table had no row for it. */
  predicate FirstMissing(t: MenuTable, e: Engine, restaurant: nat, items: seq<PilotItem>, fails: Fails, i: nat)
    requires i < |items|
  {
    && !fails(i) && Matches(t, e, restaurant, items[i].itemName) == {}
    && forall j :: 0 <= j < i && !fails(j) ==> e.collate(items[j].itemName) != e.collate(items[i].itemName)
  }

  /** The row item `i` was inserted as. */
  predicate InsertedAt(s: Tally, t: MenuTable, restaurant: nat, item: PilotItem, id: nat) {
    t.next <= id < s.menus.next && id in s.menus.rows && s.menus.rows[id] == PilotRow(restaurant, item)
  }

  /** After `n` items a key has a row exactly if it had one at the start or one of these items, not failed, has it. */
  lemma {:induction false} KeyThere(t: MenuTable, e: Engine, restaurant: nat, items: seq<PilotItem>, fails: Fails,
                                    n: nat, name: string)
    requires Ok(t) && n <= |items|
    ensures Ok(AddUpTo(t, e, restaurant, items, fails, n).menus)
    ensures Matches(AddUpTo(t, e, restaurant, items, fails, n).menus, e, restaurant, name) == {}
       <==> Matches(t, e, restaurant, name) == {}
            && forall j :: 0 <= j < n && !fails(j) ==> e.collate(items[j].itemName) != e.collate(name)
  {
    hide PilotRow, SameKey;
    if n > 0 {
      var s, item := AddUpTo(t, e, restaurant, items, fails, n - 1).menus, items[n - 1];
      var s' := AddUpTo(t, e, restaurant, items, fails, n).menus;
      KeyThere(t, e, restaurant, items, fails, n - 1, name);
      KeyThere(t, e, restaurant, items, fails, n - 1, item.itemName);
      if !fails(n - 1) {
        if Matches(s, e, restaurant, item.itemName) == {} {
          InsertMatches(s, e, restaurant, item, name);
        } else {
          SameMatches(s, e, restaurant, item.itemName, name);
        }
      }
    }
  }

  lemma SameMatches(t: MenuTable, e: Engine, restaurant: nat, a: string, b: string)
    ensures e.collate(a) == e.collate(b) ==> Matches(t, e, restaurant, a) == Matches(t, e, restaurant, b)
  {
  }

  lemma InsertMatches(t: MenuTable, e: Engine, restaurant: nat, item: PilotItem, name: string)
    requires Ok(t)
    ensures var t' := Table(t.rows[t.next := PilotRow(restaurant, item)], t.next + 1);
            Matches(t', e, restaurant, name)
            == Matches(t, e, restaurant, name) + if e.collate(item.itemName) == e.collate(name) then {t.next} else {}
  {
  }

  /** One more item: it is inserted exactly if it is the first missing of its key; nothing else changes. */
  lemma AddStep(t: MenuTable, e: Engine, restaurant: nat, items: seq<PilotItem>, fails: Fails, n: nat)
    requires Ok(t) && n < |items|
    ensures var s, s' := AddUpTo(t, e, restaurant, items, fails, n), AddUpTo(t, e, restaurant, items, fails, n + 1);
            && Ok(s.menus) && t.next <= s.menus.next
            && s'.menus == if FirstMissing(t, e, restaurant, items, fails, n)
                           then Table(s.menus.rows[s.menus.next := PilotRow(restaurant, items[n])], s.menus.next + 1)
                           else s.menus
  {
    hide PilotRow, Matches;
    CountsAddUp(t, e, restaurant, items, fails, n);
    KeyThere(t, e, restaurant, items, fails, n, items[n].itemName);
  }

  /** Rows that were there stay. */
  lemma {:induction false} RowsStay(t: MenuTable, e: Engine, restaurant: nat, items: seq<PilotItem>, fails: Fails,
                                    n: nat)
    requires Ok(t) && n <= |items|
    ensures var s := AddUpTo(t, e, restaurant, items, fails, n);
            forall id :: id in t.rows ==> id in s.menus.rows && s.menus.rows[id] == t.rows[id]
  {
    hide PilotRow, FirstMissing;
    if n > 0 {
      RowsStay(t, e, restaurant, items, fails, n - 1);
      AddStep(t, e, restaurant, items, fails, n - 1);
    }
  }

  /** Each first missing item is inserted. */
  lemma {:induction false} InsertsFirstMissing(t: MenuTable, e: Engine, restaurant: nat, items: seq<PilotItem>,
                                               fails: Fails, n: nat, i: nat)
    returns (id: nat)
    requires Ok(t) && i < n <= |items| && FirstMissing(t, e, restaurant, items, fails, i)
    ensures InsertedAt(AddUpTo(t, e, restaurant, items, fails, n), t, restaurant, items[i], id)
  {
    hide PilotRow, FirstMissing, AddUpTo;
    AddStep(t, e, restaurant, items, fails, n - 1);
    if i < n - 1 {
      id := InsertsFirstMissing(t, e, restaurant, items, fails, n - 1, i);
    } else {
      id := AddUpTo(t, e, restaurant, items, fails, n - 1).menus.next;
    }
  }

  /** The columns of an inserted row, from the item's own attributes. */
  lemma InsertedColumns(s: Tally, t: MenuTable, restaurant: nat, item: PilotItem, id: nat)
    requires InsertedAt(s, t, restaurant, item, id)
    ensures var row, a := s.menus.rows[id], item.attrs;
            && row.owner == restaurant && row.name == item.itemName && row.fields.price == item.price
            && row.fields.category == (if "category" in a then a["category"] else Null)
            && row.fields.subCategory == (if "sub_category" in a then a["sub_category"] else Null)
            && row.fields.itemDesc == (if "item_desc" in a then a["item_desc"] else Null)
            && row.fields.avgPrepTime == (if "avg_prep_time" in a then a["avg_prep_time"] else Whole(15))
            && row.fields.isAvailable == (if "is_available" in a then a["is_available"] else Flag(true))
            && row.fields.isSpecial == (if "is_special" in a then a["is_special"] else Flag(false))
            && row.rest == MenuRest(if "suggested_items" in a then a["suggested_items"] else Words("[]"))
  {
  }

  /** Nothing else is inserted. */
  lemma {:induction false} InsertsNothingElse(t: MenuTable, e: Engine, restaurant: nat, items: seq<PilotItem>,
                                              fails: Fails, n: nat, id: nat)
    returns (i: nat)
    requires Ok(t) && n <= |items|
    requires id in AddUpTo(t, e, restaurant, items, fails, n).menus.rows && id !in t.rows
    ensures i < n && FirstMissing(t, e, restaurant, items, fails, i)
    ensures InsertedAt(AddUpTo(t, e, restaurant, items, fails, n), t, restaurant, items[i], id)
  {
    assert n > 0;
    hide PilotRow, FirstMissing, AddUpTo;
    AddStep(t, e, restaurant, items, fails, n - 1);
    i := n - 1;
    if id in AddUpTo(t, e, restaurant, items, fails, n - 1).menus.rows {
      i := InsertsNothingElse(t, e, restaurant, items, fails, n - 1, id);
    }
  }

  /** How many of the first `n` items are the first missing of their key. */
  function FirstMissings(t: MenuTable, e: Engine, restaurant: nat, items: seq<PilotItem>, fails: Fails, n: nat): nat
    requires n <= |items|
  {
    if n == 0 then 0
    else
      var before := FirstMissings(t, e, restaurant, items, fails, n - 1);
      before + if FirstMissing(t, e, restaurant, items, fails, n - 1) then 1 else 0
  }

  /** No item is inserted twice. */
  lemma {:induction false} AddsOnePerFirstMissing(t: MenuTable, e: Engine, restaurant: nat, items: seq<PilotItem>,
                                                  fails: Fails, n: nat)
    requires Ok(t) && n <= |items|
    ensures AddUpTo(t, e, restaurant, items, fails, n).added == FirstMissings(t, e, restaurant, items, fails, n)
  {
    hide PilotRow, Matches, FirstMissing;
    if n > 0 {
      AddsOnePerFirstMissing(t, e, restaurant, items, fails, n - 1);
      AddStep(t, e, restaurant, items, fails, n - 1);
      CountsAddUp(t, e, restaurant, items, fails, n - 1);
      CountsAddUp(t, e, restaurant, items, fails, n);
    }
  }

  /**
    If nothing fails, a second run adds nothing and leaves the table as it is, even if statements of the second run
    fail.
   */
  lemma SecondRunAddsNothing(t: MenuTable, e: Engine, restaurant: nat, items: seq<PilotItem>, fails: Fails,
                             failsAgain: Fails)
    requires Ok(t) && forall i :: 0 <= i < |items| ==> !fails(i)
    ensures var once := AddAll(t, e, restaurant, items, fails);
            var twice := AddAll(once.menus, e, restaurant, items, failsAgain);
            twice.menus == once.menus && twice.added == 0
  {
    var once := AddAll(t, e, restaurant, items, fails);
    forall i | 0 <= i < |items| ensures Matches(once.menus, e, restaurant, items[i].itemName) != {} {
      KeyThere(t, e, restaurant, items, fails, |items|, items[i].itemName);
    }
    NothingMissing(once.menus, e, restaurant, items, failsAgain, |items|);
  }

  lemma {:induction false} NothingMissing(t: MenuTable, e: Engine, restaurant: nat, items: seq<PilotItem>,
                                          fails: Fails, n: nat)
    requires n <= |items| && forall i :: 0 <= i < |items| ==> Matches(t, e, restaurant, items[i].itemName) != {}
    ensures var s := AddUpTo(t, e, restaurant, items, fails, n); s.menus == t && s.added == 0
  {
    if n > 0 {
      NothingMissing(t, e, restaurant, items, fails, n - 1);
    }
  }
}
