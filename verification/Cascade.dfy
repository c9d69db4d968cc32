/**
 * What a relational database does on DELETE: follow ON DELETE CASCADE until nothing more goes, and null the
 * ON DELETE SET NULL columns of what stays. For any schema whose foreign keys point at lower-ranked tables.
 */
module Cascade {
  import opened Wrappers

  type Id = nat

  /**
   * Tables `T` and foreign key columns `C`. `home` is where a table's first cascading foreign key points, if
   * it has one; `complete` stands for its NOT NULL and CHECK constraints on which cascading columns are set.
   */
  datatype Schema<!T(==), !C(==)> = Schema(
    root: T, rank: T -> nat, home: T -> Option<T>, source: C -> T, target: C -> T, setsNull: C -> bool,
    complete: (T, bool, set<C>) -> bool)

  ghost predicate Lawful<T(!new), C(!new)>(sc: Schema<T, C>) {
    && sc.home(sc.root).None?
    && (forall t: T :: sc.home(t).Some? ==> sc.rank(sc.home(t).value) < sc.rank(t))
    && forall c: C :: sc.rank(sc.target(c)) < sc.rank(sc.source(c))
  }

  /** A row's foreign keys; null columns are absent from the maps. */
  datatype Row<T(==), C(==)> = Row(table: T, home: Option<Id>, cascade: map<C, Id>, setNull: map<C, Id>)

  type Database<T, C> = map<Id, Row<T, C>>

  predicate Is<T(==), C(==)>(db: Database<T, C>, r: Id, t: T) {
    r in db && db[r].table == t
  }

  /** Every reference is to an existing row of the right table. */
  ghost predicate RefersWell<T, C>(sc: Schema<T, C>, db: Database<T, C>, row: Row<T, C>) {
    && (row.home.Some? ==> sc.home(row.table).Some? && Is(db, row.home.value, sc.home(row.table).value))
    && (forall c :: c in row.cascade ==>
      sc.source(c) == row.table && !sc.setsNull(c) && Is(db, row.cascade[c], sc.target(c)))
    && forall c :: c in row.setNull ==>
      sc.source(c) == row.table && sc.setsNull(c) && Is(db, row.setNull[c], sc.target(c))
  }

  ghost predicate RowIntact<T, C>(sc: Schema<T, C>, db: Database<T, C>, r: Id) {
    r in db ==> RefersWell(sc, db, db[r]) && sc.complete(db[r].table, db[r].home.Some?, db[r].cascade.Keys)
  }

  /** Every constraint of the schema. */
  ghost predicate Intact<T, C>(sc: Schema<T, C>, db: Database<T, C>) {
    forall r :: RowIntact(sc, db, r)
  }

  /** The root row a row transitively belongs to, if any. */
  function Owner<T(==), C(==)>(sc: Schema<T, C>, db: Database<T, C>, r: Id): Option<Id>
    decreases if r in db then sc.rank(db[r].table) else 0
  {
    if r !in db then None
    else if db[r].table == sc.root then Some(r)
    else if db[r].home.None? || db[r].home.value !in db || sc.rank(db[db[r].home.value].table) >= sc.rank(db[r].table) then None
    else Owner(sc, db, db[r].home.value)
  }

  ghost predicate RowAgrees<T, C>(sc: Schema<T, C>, db: Database<T, C>, r: Id) {
    r in db ==>
      && (forall c :: c in db[r].cascade ==> Owner(sc, db, db[r].cascade[c]) == Owner(sc, db, r))
      && (Owner(sc, db, r).Some? ==>
        forall c :: c in db[r].setNull ==> Owner(sc, db, db[r].setNull[c]) == Owner(sc, db, r))
  }

  /** Nobody's rows hang off anybody else's, and what belongs to somebody refers to nothing of anybody else's. */
  ghost predicate OwnersAgree<T, C>(sc: Schema<T, C>, db: Database<T, C>) {
    forall r :: RowAgrees(sc, db, r)
  }

  ghost predicate Sound<T(!new), C(!new)>(sc: Schema<T, C>, db: Database<T, C>) {
    Lawful(sc) && Intact(sc, db) && OwnersAgree(sc, db)
  }

  // ----- the delete -----

  /** A row outside `gone` that cascades from a row inside it. */
  predicate Dangles<T(==), C(==)>(db: Database<T, C>, gone: set<Id>, r: Id) {
    r in db && r !in gone
    && ((db[r].home.Some? && db[r].home.value in gone) || exists c :: c in db[r].cascade && db[r].cascade[c] in gone)
  }

  /** The fixpoint the database stops at. */
  ghost predicate Closed<T, C>(db: Database<T, C>, gone: set<Id>) {
    forall r :: !Dangles(db, gone, r)
  }

  /** `DELETE ... WHERE id = start`, cascading row by row to the least fixpoint. */
  method CascadeFrom<T(==), C(==)>(db: Database<T, C>, start: Id) returns (gone: set<Id>)
    requires start in db
    ensures start in gone && gone <= db.Keys && Closed(db, gone)
    ensures forall other: set<Id> :: start in other && Closed(db, other) ==> gone <= other
  {
    gone := {start};
    var next := set r | r in db && Dangles(db, gone, r);
    while next != {}
      invariant start in gone && gone <= db.Keys
      invariant next == set r | r in db && Dangles(db, gone, r)
      invariant forall other: set<Id> :: start in other && Closed(db, other) ==> gone <= other
      decreases db.Keys - gone
    {
      var r :| r in next;
      forall other: set<Id> | start in other && Closed(db, other) ensures r in other {
        assert !Dangles(db, other, r);
      }
      gone := gone + {r};
      next := set r | r in db && Dangles(db, gone, r);
    }
    forall r ensures !Dangles(db, gone, r) {
      assert r !in next;
    }
  }

  function Nulled<T(==), C(==)>(row: Row<T, C>, gone: set<Id>): Row<T, C> {
    row.(setNull := map c | c in row.setNull && row.setNull[c] !in gone :: row.setNull[c])
  }

  function Remaining<T(==), C(==)>(db: Database<T, C>, gone: set<Id>): Database<T, C> {
    map r | r in db && r !in gone :: Nulled(db[r], gone)
  }

  /** The rows a root row transitively owns, itself included. */
  function OwnedBy<T(==), C(==)>(sc: Schema<T, C>, db: Database<T, C>, owner: Id): set<Id> {
    set r | r in db && Owner(sc, db, r) == Some(owner)
  }

  lemma {:induction false} OwnedRowsGo<T, C>(sc: Schema<T, C>, db: Database<T, C>, owner: Id, gone: set<Id>, r: Id)
    requires owner in gone && Closed(db, gone)
    requires r in db && Owner(sc, db, r) == Some(owner)
    ensures r in gone
    decreases sc.rank(db[r].table)
  {
    if db[r].table != sc.root {
      OwnedRowsGo(sc, db, owner, gone, db[r].home.value);
      assert !Dangles(db, gone, r);
    }
  }

  /** A row belongs to whatever the row it hangs off belongs to. */
  lemma OwnerOfHome<T(!new), C(!new)>(sc: Schema<T, C>, db: Database<T, C>, r: Id)
    requires Lawful(sc) && Intact(sc, db) && r in db && db[r].home.Some?
    ensures db[r].home.value in db && Owner(sc, db, db[r].home.value) == Owner(sc, db, r)
  {
    assert RowIntact(sc, db, r);
  }

  lemma OwnedRowsAreClosed<T(!new), C(!new)>(sc: Schema<T, C>, db: Database<T, C>, owner: Id)
    requires Sound(sc, db) && Is(db, owner, sc.root)
    ensures owner in OwnedBy(sc, db, owner) && Closed(db, OwnedBy(sc, db, owner))
  {
    forall r ensures !Dangles(db, OwnedBy(sc, db, owner), r) {
      assert RowAgrees(sc, db, r);
      if r in db && db[r].home.Some? {
        OwnerOfHome(sc, db, r);
      }
    }
  }

  /** Somebody else's row, one of whose columns cascades from a row of this owner's. */
  ghost predicate HangsOff<T, C>(sc: Schema<T, C>, db: Database<T, C>, owner: Id, r: Id) {
    r in db && Owner(sc, db, r) != Some(owner)
    && exists c :: c in db[r].cascade && Owner(sc, db, db[r].cascade[c]) == Some(owner)
  }

  /** In any database the schema allows, the cascade takes exactly what is owned when nobody else's row hangs off it. */
  lemma CascadeIsOwnershipIff<T(!new), C(!new)>(sc: Schema<T, C>, db: Database<T, C>, owner: Id, gone: set<Id>)
    requires Lawful(sc) && Intact(sc, db) && Is(db, owner, sc.root)
    requires owner in gone && gone <= db.Keys && Closed(db, gone)
    requires forall other: set<Id> :: owner in other && Closed(db, other) ==> gone <= other
    ensures gone == OwnedBy(sc, db, owner) <==> forall r :: !HangsOff(sc, db, owner, r)
  {
    var owned := OwnedBy(sc, db, owner);
    if gone == owned {
      forall r ensures !HangsOff(sc, db, owner, r) {
        assert !Dangles(db, gone, r) && RowIntact(sc, db, r);
      }
    }
    if forall r :: !HangsOff(sc, db, owner, r) {
      forall r ensures !Dangles(db, owned, r) {
        assert !HangsOff(sc, db, owner, r);
        if r in db && db[r].home.Some? {
          OwnerOfHome(sc, db, r);
        }
      }
      forall r | r in owned ensures r in gone {
        OwnedRowsGo(sc, db, owner, gone, r);
      }
      assert Closed(db, owned) && owner in owned;
    }
  }

  /** Deleting a root row: the cascade's fixpoint is exactly what it owns. */
  method DeleteRoot<T(!new, ==), C(!new, ==)>(ghost sc: Schema<T, C>, db: Database<T, C>, owner: Id)
    returns (after: Database<T, C>)
    requires Sound(sc, db) && Is(db, owner, sc.root)
    ensures after == Remaining(db, OwnedBy(sc, db, owner))
  {
    var gone := CascadeFrom(db, owner);
    OwnedRowsAreClosed(sc, db, owner);
    forall r | r in OwnedBy(sc, db, owner) ensures r in gone {
      OwnedRowsGo(sc, db, owner, gone, r);
    }
    assert gone == OwnedBy(sc, db, owner);
    after := map r | r in db && r !in gone :: Nulled(db[r], gone);
  }

  /** After a deletion no foreign key dangles and every constraint still holds. */
  lemma NothingDangles<T(!new), C(!new)>(sc: Schema<T, C>, db: Database<T, C>, owner: Id)
    requires Sound(sc, db) && Is(db, owner, sc.root)
    ensures Intact(sc, Remaining(db, OwnedBy(sc, db, owner)))
  {
    var gone, after := OwnedBy(sc, db, owner), Remaining(db, OwnedBy(sc, db, owner));
    OwnedRowsAreClosed(sc, db, owner);
    forall r ensures RowIntact(sc, after, r) {
      assert !Dangles(db, gone, r) && RowIntact(sc, db, r);
    }
  }

  /** It leaves nothing the deleted account owned, and every row of every other account as it was. */
  lemma OthersAreUntouched<T(!new), C(!new)>(sc: Schema<T, C>, db: Database<T, C>, owner: Id, r: Id)
    requires Sound(sc, db) && Is(db, owner, sc.root) && r in db
    ensures Owner(sc, db, r) == Some(owner) <==> r !in Remaining(db, OwnedBy(sc, db, owner))
    ensures Owner(sc, db, r).Some? && Owner(sc, db, r) != Some(owner) ==>
      Remaining(db, OwnedBy(sc, db, owner))[r] == db[r]
  {
    if Owner(sc, db, r).Some? && Owner(sc, db, r) != Some(owner) {
      assert RowAgrees(sc, db, r);
      assert Nulled(db[r], OwnedBy(sc, db, owner)).setNull == db[r].setNull;
    }
  }

  /** A row of nobody's survives, with exactly its references to what is still there. */
  lemma TrailSurvives<T(!new), C(!new)>(sc: Schema<T, C>, db: Database<T, C>, owner: Id, r: Id)
    requires Sound(sc, db) && Is(db, owner, sc.root) && r in db && Owner(sc, db, r).None?
    ensures var after := Remaining(db, OwnedBy(sc, db, owner));
      && r in after && after[r].table == db[r].table
      && (forall c :: c in after[r].setNull <==> (c in db[r].setNull && db[r].setNull[c] in after))
      && forall c :: c in after[r].setNull ==> after[r].setNull[c] == db[r].setNull[c] && after[r].setNull[c] != owner
  {
    assert RowIntact(sc, db, r);
  }

  // ----- what else may happen to the rows -----

  /** Tables and homes are never updated in place. */
  ghost predicate SamePlaces<T, C>(db: Database<T, C>, db': Database<T, C>) {
    forall x :: x in db && x in db' ==> db'[x].table == db[x].table && db'[x].home == db[x].home
  }

  lemma {:induction false} OwnerStays<T(!new), C(!new)>(sc: Schema<T, C>, db: Database<T, C>, db': Database<T, C>, r: Id)
    requires Lawful(sc) && Intact(sc, db) && Intact(sc, db') && SamePlaces(db, db')
    requires r in db && r in db'
    ensures Owner(sc, db', r) == Owner(sc, db, r)
    decreases sc.rank(db[r].table)
  {
    assert RowIntact(sc, db, r) && RowIntact(sc, db', r);
    if db[r].home.Some? {
      OwnerStays(sc, db, db', db[r].home.value);
    }
  }

  /** A row that agreed with its owner still does in a database that keeps its references where they were. */
  lemma RowStillAgrees<T(!new), C(!new)>(sc: Schema<T, C>, db: Database<T, C>, db': Database<T, C>, r: Id)
    requires Sound(sc, db) && Intact(sc, db') && SamePlaces(db, db') && r in db && r in db'
    requires db'[r].cascade == db[r].cascade
    requires forall c :: c in db'[r].setNull ==> c in db[r].setNull && db'[r].setNull[c] == db[r].setNull[c]
    ensures RowAgrees(sc, db', r)
  {
    assert RowAgrees(sc, db, r) && RowIntact(sc, db, r) && RowIntact(sc, db', r);
    OwnerStays(sc, db, db', r);
    forall c | c in db'[r].cascade ensures Owner(sc, db', db'[r].cascade[c]) == Owner(sc, db', r) {
      OwnerStays(sc, db, db', db[r].cascade[c]);
    }
    forall c | c in db'[r].setNull && Owner(sc, db', r).Some? ensures Owner(sc, db', db'[r].setNull[c]) == Owner(sc, db', r) {
      OwnerStays(sc, db, db', db[r].setNull[c]);
    }
  }

  /** Removing rows, with whatever nulling, breaks no agreement between owners. */
  lemma FewerRowsStillAgree<T(!new), C(!new)>(sc: Schema<T, C>, db: Database<T, C>, db': Database<T, C>)
    requires Sound(sc, db) && Intact(sc, db') && db'.Keys <= db.Keys && SamePlaces(db, db')
    requires forall x :: x in db' ==> db'[x].cascade == db[x].cascade
    requires forall x, c :: x in db' && c in db'[x].setNull ==> c in db[x].setNull && db'[x].setNull[c] == db[x].setNull[c]
    ensures Sound(sc, db')
  {
    forall r ensures RowAgrees(sc, db', r) {
      if r in db' {
        RowStillAgrees(sc, db, db', r);
      }
    }
  }

  /** A new row that refers well, and only to its own owner's rows, fits in. */
  lemma InsertKeepsSound<T(!new), C(!new)>(sc: Schema<T, C>, db: Database<T, C>, id: Id, row: Row<T, C>)
    requires Sound(sc, db) && id !in db
    requires RefersWell(sc, db, row) && sc.complete(row.table, row.home.Some?, row.cascade.Keys)
    requires row.cascade != map[] ==> row.home.Some?
    requires forall c :: c in row.cascade ==> Owner(sc, db, row.cascade[c]) == Owner(sc, db, row.home.value)
    requires row.setNull != map[] ==> row.home.None? && row.table != sc.root
    ensures Sound(sc, db[id := row])
  {
    var db' := db[id := row];
    forall r ensures RowIntact(sc, db', r) {
      assert RowIntact(sc, db, r);
    }
    forall r ensures RowAgrees(sc, db', r) {
      if r in db {
        RowStillAgrees(sc, db, db', r);
      } else if r == id && row.home.Some? {
        OwnerOfHome(sc, db', id);
        OwnerStays(sc, db, db', row.home.value);
        forall c | c in row.cascade ensures Owner(sc, db', row.cascade[c]) == Owner(sc, db', id) {
          OwnerStays(sc, db, db', row.cascade[c]);
        }
      }
    }
  }

  /** Dropping a row of a table nothing refers to. */
  lemma DropKeepsSound<T(!new), C(!new)>(sc: Schema<T, C>, db: Database<T, C>, id: Id)
    requires Sound(sc, db) && id in db
    requires forall t: T :: sc.home(t) != Some(db[id].table)
    requires forall c: C :: sc.target(c) != db[id].table
    ensures Sound(sc, db - {id})
  {
    forall r ensures RowIntact(sc, db - {id}, r) {
      assert RowIntact(sc, db, r);
    }
    FewerRowsStillAgree(sc, db, db - {id});
  }

  lemma DeleteKeepsSound<T(!new), C(!new)>(sc: Schema<T, C>, db: Database<T, C>, owner: Id)
    requires Sound(sc, db) && Is(db, owner, sc.root)
    ensures Sound(sc, Remaining(db, OwnedBy(sc, db, owner)))
  {
    NothingDangles(sc, db, owner);
    FewerRowsStillAgree(sc, db, Remaining(db, OwnedBy(sc, db, owner)));
  }

}
