/**
  A database table with an auto-increment id, seen through the statements the seed scripts send: select a row by owner
  and name, update its columns by id, insert. `Engine` holds what the database decides: which of several matching rows
  `LIMIT 1` returns, and which names its collation takes for equal.
 */
module Tables {

  type Pick = f: set<nat> -> nat | forall s: set<nat> :: s != {} ==> f(s) in s
    ghost witness (s: set<nat>) => if s == {} then 0 else var x :| x in s; x

  datatype Engine = Engine(pick: Pick, collate: string -> string)

  /** `fields` are the columns a seed writes; `rest` are the ones it leaves to their defaults. */
  datatype Row<F, X> = Row(owner: nat, name: string, fields: F, rest: X)

  datatype Table<F, X> = Table(rows: map<nat, Row<F, X>>, next: nat)

  /** One row a seed wants to see. */
  datatype Entry<F> = Entry(owner: nat, name: string, fields: F)

  predicate SameKey(e: Engine, owner1: nat, name1: string, owner2: nat, name2: string) {
    owner1 == owner2 && e.collate(name1) == e.collate(name2)
  }

  /** The ids of the rows the select matches. */
  function Matches<F, X>(t: Table<F, X>, e: Engine, owner: nat, name: string): set<nat> {
    set id | id in t.rows && SameKey(e, t.rows[id].owner, t.rows[id].name, owner, name)
  }

  /** Select, then update or insert: the new table and the id of the row. */
  function Upsert<F, X>(t: Table<F, X>, e: Engine, x: Entry<F>, rest: X): (Table<F, X>, nat) {
    var found := Matches(t, e, x.owner, x.name);
    if found != {} then
      var id := e.pick(found);
      (t.(rows := t.rows[id := t.rows[id].(fields := x.fields)]), id)
    else
      (Table(t.rows[t.next := Row(x.owner, x.name, x.fields, rest)], t.next + 1), t.next)
  }

  function UpsertAll<F, X>(t: Table<F, X>, e: Engine, entries: seq<Entry<F>>, rest: X): Table<F, X> {
    if entries == [] then t
    else Upsert(UpsertAll(t, e, entries[..|entries| - 1], rest), e, entries[|entries| - 1], rest).0
  }

  /** Ids in use are below the counter. */
  ghost predicate Ok<F, X>(t: Table<F, X>) {
    forall id :: id in t.rows ==> id < t.next
  }

  /** At most one row per owner and name. */
  ghost predicate Unique<F, X>(t: Table<F, X>, e: Engine) {
    forall i <- t.rows, j <- t.rows ::
      SameKey(e, t.rows[i].owner, t.rows[i].name, t.rows[j].owner, t.rows[j].name) ==> i == j
  }

  /** The row the select returns for an entry. */
  function Located<F, X>(t: Table<F, X>, e: Engine, x: Entry<F>): nat {
    e.pick(Matches(t, e, x.owner, x.name))
  }

  predicate Found<F, X>(t: Table<F, X>, e: Engine, x: Entry<F>) {
    Matches(t, e, x.owner, x.name) != {}
  }

  predicate AllFound<F, X>(t: Table<F, X>, e: Engine, entries: seq<Entry<F>>) {
    forall k :: 0 <= k < |entries| ==> Found(t, e, entries[k])
  }

  /** The entry that has the last word on `x`'s key. */
  function LastFor<F>(e: Engine, entries: seq<Entry<F>>, x: Entry<F>): Entry<F> {
    if entries == [] then x
    else
      var last := entries[|entries| - 1];
      if SameKey(e, last.owner, last.name, x.owner, x.name) then last else LastFor(e, entries[..|entries| - 1], x)
  }

  // ---------- One upsert ----------

  /** A key that is found keeps its matches through any upsert. */
  lemma MatchesStay<F, X>(t: Table<F, X>, e: Engine, y: Entry<F>, rest: X, owner: nat, name: string)
    requires Ok(t) && Matches(t, e, owner, name) != {}
    ensures Matches(Upsert(t, e, y, rest).0, e, owner, name) == Matches(t, e, owner, name)
  {
    assert SameKey(e, y.owner, y.name, owner, name) ==> Matches(t, e, y.owner, y.name) == Matches(t, e, owner, name);
  }

  /** After its upsert an entry is found, at the id that was returned, with its own fields. */
  lemma UpsertFinds<F, X>(t: Table<F, X>, e: Engine, x: Entry<F>, rest: X)
    requires Ok(t)
    ensures var (t', id) := Upsert(t, e, x, rest);
            && Ok(t') && Found(t', e, x) && Located(t', e, x) == id
            && id in t'.rows && t'.rows[id].fields == x.fields
  {
    var (t', id) := Upsert(t, e, x, rest);
    if Found(t, e, x) {
      MatchesStay(t, e, x, rest, x.owner, x.name);
    } else {
      assert Matches(t', e, x.owner, x.name) == {t.next};
    }
  }

  /** An upsert writes one row, and nothing but the seed's own columns of a row that was there. */
  lemma UpsertFrame<F, X>(t: Table<F, X>, e: Engine, x: Entry<F>, rest: X)
    requires Ok(t)
    ensures var (t', id) := Upsert(t, e, x, rest);
            && t.rows.Keys <= t'.rows.Keys == t.rows.Keys + {id}
            && (forall i :: i in t.rows && i != id ==> t'.rows[i] == t.rows[i])
            && (forall i :: i in t.rows ==> t'.rows[i].(fields := t.rows[i].fields) == t.rows[i])
            && SameKey(e, t'.rows[id].owner, t'.rows[id].name, x.owner, x.name)
            && (Found(t, e, x) <==> id in t.rows) && (Found(t, e, x) ==> t'.next == t.next)
            && (!Found(t, e, x) ==> id == t.next && t'.rows[id] == Row(x.owner, x.name, x.fields, rest))
  {
  }

  // ---------- A whole list ----------

  lemma {:induction false} UpsertAllOk<F, X>(t: Table<F, X>, e: Engine, entries: seq<Entry<F>>, rest: X)
    requires Ok(t)
    ensures Ok(UpsertAll(t, e, entries, rest))
  {
    if entries != [] {
      UpsertAllOk(t, e, entries[..|entries| - 1], rest);
    }
  }

  /** Every entry is found in the final table, and a key found at the start keeps its matches. */
  lemma {:induction false} UpsertAllFinds<F, X>(t: Table<F, X>, e: Engine, entries: seq<Entry<F>>, rest: X)
    requires Ok(t)
    ensures AllFound(UpsertAll(t, e, entries, rest), e, entries)
    ensures forall owner, name {:trigger Matches(t, e, owner, name)} :: Matches(t, e, owner, name) != {} ==>
              Matches(UpsertAll(t, e, entries, rest), e, owner, name) == Matches(t, e, owner, name)
  {
    if entries != [] {
      var before, last := entries[..|entries| - 1], entries[|entries| - 1];
      var mid := UpsertAll(t, e, before, rest);
      UpsertAllOk(t, e, before, rest);
      UpsertAllFinds(t, e, before, rest);
      UpsertFinds(mid, e, last, rest);
      forall k | 0 <= k < |before| ensures Found(Upsert(mid, e, last, rest).0, e, entries[k]) {
        assert Found(mid, e, before[k]);
        MatchesStay(mid, e, last, rest, before[k].owner, before[k].name);
      }
      forall owner, name {:trigger Matches(t, e, owner, name)} | Matches(t, e, owner, name) != {}
        ensures Matches(Upsert(mid, e, last, rest).0, e, owner, name) == Matches(t, e, owner, name)
      {
        MatchesStay(mid, e, last, rest, owner, name);
      }
    }
  }

  /** Repeated keys: the last entry wins. */
  lemma {:induction false} LastWins<F, X>(t: Table<F, X>, e: Engine, entries: seq<Entry<F>>, rest: X, x: Entry<F>)
    requires Ok(t) && exists k :: 0 <= k < |entries| && SameKey(e, entries[k].owner, entries[k].name, x.owner, x.name)
    ensures var t' := UpsertAll(t, e, entries, rest);
            && Found(t', e, x) && Located(t', e, x) in t'.rows
            && t'.rows[Located(t', e, x)].fields == LastFor(e, entries, x).fields
  {
    var before, last := entries[..|entries| - 1], entries[|entries| - 1];
    var mid := UpsertAll(t, e, before, rest);
    UpsertAllOk(t, e, before, rest);
    UpsertFinds(mid, e, last, rest);
    UpsertFrame(mid, e, last, rest);
    var (t', id) := Upsert(mid, e, last, rest);
    if SameKey(e, last.owner, last.name, x.owner, x.name) {
      assert Matches(t', e, last.owner, last.name) == Matches(t', e, x.owner, x.name);
    } else {
      var k :| 0 <= k < |entries| && SameKey(e, entries[k].owner, entries[k].name, x.owner, x.name);
      assert before[k] == entries[k];
      LastWins(t, e, before, rest, x);
      MatchesStay(mid, e, last, rest, x.owner, x.name);
      assert Located(mid, e, x) in Matches(mid, e, x.owner, x.name);
    }
  }

  /**
    Rows only gain: no id goes, no row changes its owner, name or untouched columns, new ids are new and belong to an
    entry.
   */
  lemma {:induction false} UpsertAllGrows<F, X>(t: Table<F, X>, e: Engine, entries: seq<Entry<F>>, rest: X)
    requires Ok(t)
    ensures var t' := UpsertAll(t, e, entries, rest);
            && t.next <= t'.next && t.rows.Keys <= t'.rows.Keys
            && (forall i :: i in t.rows ==> t'.rows[i].(fields := t.rows[i].fields) == t.rows[i])
            && (forall i :: i in t'.rows && i !in t.rows ==>
                  t.next <= i < t'.next && Inserted(t'.rows[i], entries) && t'.rows[i].rest == rest)
  {
    if entries != [] {
      var before, last := entries[..|entries| - 1], entries[|entries| - 1];
      var mid := UpsertAll(t, e, before, rest);
      UpsertAllOk(t, e, before, rest);
      UpsertAllGrows(t, e, before, rest);
      UpsertFrame(mid, e, last, rest);
      var t' := Upsert(mid, e, last, rest).0;
      forall i | i in t'.rows && i !in t.rows
        ensures t.next <= i < t'.next && Inserted(t'.rows[i], entries) && t'.rows[i].rest == rest
      {
        if i in mid.rows {
          var k :| 0 <= k < |before| && mid.rows[i].owner == before[k].owner && mid.rows[i].name == before[k].name;
          assert before[k] == entries[k];
        } else {
          assert entries[|before|] == last;
        }
      }
    }
  }

  predicate Inserted<F, X>(row: Row<F, X>, entries: seq<Entry<F>>) {
    exists k :: 0 <= k < |entries| && row.owner == entries[k].owner && row.name == entries[k].name
  }

  /** Only the rows the entries locate are written. */
  lemma {:induction false} UpsertAllFrame<F, X>(t: Table<F, X>, e: Engine, entries: seq<Entry<F>>, rest: X, i: nat)
    requires Ok(t) && i in t.rows
    requires forall k :: 0 <= k < |entries| ==> i != Located(UpsertAll(t, e, entries, rest), e, entries[k])
    ensures i in UpsertAll(t, e, entries, rest).rows && UpsertAll(t, e, entries, rest).rows[i] == t.rows[i]
  {
    if entries != [] {
      var before, last := entries[..|entries| - 1], entries[|entries| - 1];
      var mid := UpsertAll(t, e, before, rest);
      UpsertAllOk(t, e, before, rest);
      UpsertAllFinds(t, e, before, rest);
      UpsertFrame(mid, e, last, rest);
      UpsertFinds(mid, e, last, rest);
      assert i != Located(UpsertAll(t, e, entries, rest), e, entries[|before|]);
      forall k | 0 <= k < |before| ensures i != Located(mid, e, before[k]) {
        assert Found(mid, e, before[k]) && before[k] == entries[k];
        MatchesStay(mid, e, last, rest, before[k].owner, before[k].name);
        assert i != Located(UpsertAll(t, e, entries, rest), e, entries[k]);
      }
      UpsertAllFrame(t, e, before, rest, i);
    }
  }

  /** A row whose key no entry has is not written. */
  lemma OtherKeysUntouched<F, X>(t: Table<F, X>, e: Engine, entries: seq<Entry<F>>, rest: X, i: nat)
    requires Ok(t) && i in t.rows
    requires forall k :: 0 <= k < |entries| ==>
              !SameKey(e, t.rows[i].owner, t.rows[i].name, entries[k].owner, entries[k].name)
    ensures i in UpsertAll(t, e, entries, rest).rows && UpsertAll(t, e, entries, rest).rows[i] == t.rows[i]
  {
    var t' := UpsertAll(t, e, entries, rest);
    UpsertAllFinds(t, e, entries, rest);
    UpsertAllGrows(t, e, entries, rest);
    forall k | 0 <= k < |entries| ensures i != Located(t', e, entries[k]) {
      assert Found(t', e, entries[k]);
      assert Located(t', e, entries[k]) in Matches(t', e, entries[k].owner, entries[k].name);
    }
    UpsertAllFrame(t, e, entries, rest, i);
  }

  /** `row` has the key of one of the names. */
  predicate Keyed<F, X>(row: Row<F, X>, e: Engine, owner: nat, names: seq<string>) {
    exists i :: 0 <= i < |names| && SameKey(e, row.owner, row.name, owner, names[i])
  }

  /**
    What upserts under the given names may do to a table: rows of other keys stay as they are, the others keep their
    owner, name and untouched columns, and inserted rows are the owner's and have new ids.
   */
  ghost predicate Framed<F, X>(t: Table<F, X>, t': Table<F, X>, e: Engine, owner: nat, names: seq<string>) {
    && t.rows.Keys <= t'.rows.Keys
    && (forall r :: r in t.rows && !Keyed(t.rows[r], e, owner, names) ==> t'.rows[r] == t.rows[r])
    && (forall r :: r in t.rows ==> t'.rows[r].(fields := t.rows[r].fields) == t.rows[r])
    && (forall r :: r in t'.rows && r !in t.rows ==> t.next <= r < t'.next && t'.rows[r].owner == owner)
  }

  lemma UpsertAllFramed<F, X>(t: Table<F, X>, e: Engine, entries: seq<Entry<F>>, rest: X, owner: nat,
                              names: seq<string>)
    requires Ok(t) && |names| == |entries|
    requires forall k :: 0 <= k < |entries| ==> entries[k].owner == owner && entries[k].name == names[k]
    ensures Framed(t, UpsertAll(t, e, entries, rest), e, owner, names)
  {
    UpsertAllGrows(t, e, entries, rest);
    forall r | r in t.rows && !Keyed(t.rows[r], e, owner, names)
      ensures UpsertAll(t, e, entries, rest).rows[r] == t.rows[r]
    {
      OtherKeysUntouched(t, e, entries, rest, r);
    }
  }

  lemma {:induction false} UpsertAllInPlace<F, X>(t: Table<F, X>, e: Engine, entries: seq<Entry<F>>, rest: X)
    requires Ok(t) && AllFound(t, e, entries)
    ensures UpsertAll(t, e, entries, rest).next == t.next && UpsertAll(t, e, entries, rest).rows.Keys == t.rows.Keys
  {
    if entries != [] {
      var before, last := entries[..|entries| - 1], entries[|entries| - 1];
      var mid := UpsertAll(t, e, before, rest);
      assert forall k :: 0 <= k < |before| ==> before[k] == entries[k];
      assert Found(t, e, entries[|before|]);
      UpsertAllOk(t, e, before, rest);
      UpsertAllInPlace(t, e, before, rest);
      UpsertAllFinds(t, e, before, rest);
      UpsertFrame(mid, e, last, rest);
    }
  }

  /** The whole list a second time changes nothing. */
  lemma UpsertAllTwice<F, X>(t: Table<F, X>, e: Engine, entries: seq<Entry<F>>, rest: X)
    requires Ok(t)
    ensures var once := UpsertAll(t, e, entries, rest);
            UpsertAll(once, e, entries, rest) == once
  {
    var once := UpsertAll(t, e, entries, rest);
    var twice := UpsertAll(once, e, entries, rest);
    UpsertAllOk(t, e, entries, rest);
    UpsertAllFinds(t, e, entries, rest);
    UpsertAllFinds(once, e, entries, rest);
    UpsertAllGrows(once, e, entries, rest);
    UpsertAllInPlace(once, e, entries, rest);
    forall i | i in once.rows ensures twice.rows[i] == once.rows[i] {
      if k :| 0 <= k < |entries| && i == Located(twice, e, entries[k]) {
        var x := entries[k];
        assert Found(once, e, x);
        LastWins(t, e, entries, rest, x);
        LastWins(once, e, entries, rest, x);
      } else {
        UpsertAllFrame(once, e, entries, rest, i);
      }
    }
    assert twice.rows == once.rows;
  }

  lemma {:induction false} UpsertAllUnique<F, X>(t: Table<F, X>, e: Engine, entries: seq<Entry<F>>, rest: X)
    requires Ok(t) && Unique(t, e)
    ensures Unique(UpsertAll(t, e, entries, rest), e)
  {
    if entries != [] {
      var before, last := entries[..|entries| - 1], entries[|entries| - 1];
      var mid := UpsertAll(t, e, before, rest);
      UpsertAllOk(t, e, before, rest);
      UpsertAllUnique(t, e, before, rest);
      var t' := Upsert(mid, e, last, rest).0;
      if !Found(mid, e, last) {
        forall i | i in mid.rows ensures !SameKey(e, mid.rows[i].owner, mid.rows[i].name, last.owner, last.name) {
          assert i !in Matches(mid, e, last.owner, last.name);
        }
      }
    }
  }
}
