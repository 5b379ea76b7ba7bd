/** The relational semantics the models rely on, for one table: a table is
    the sequence of its rows in insertion order, and each statement the
    models issue (a plain insert, an insert with an ON CONFLICT clause, an
    UPDATE … WHERE) is a function from the old rows to the new ones. */
module Table {
  import opened Protocol

  /** A stored row: the record the application inserted, plus the
      soft-delete column that the database fills with null on insert. */
  datatype Row<R> = Row(record: R, deletedAt: Option<Date>)

  /** Some row's record has key `k`. */
  predicate Has<R, K(==)>(t: seq<Row<R>>, key: R -> K, k: K)
  {
    exists i :: 0 <= i < |t| && key(t[i].record) == k
  }

  /** No two rows share a key: what a unique index on `key` enforces. */
  predicate UniqueBy<R, K(==)>(t: seq<Row<R>>, key: R -> K)
  {
    forall i, j :: 0 <= i < j < |t| ==> key(t[i].record) != key(t[j].record)
  }

  /** INSERT INTO t VALUES (r), with no conflict clause. */
  function Insert<R>(t: seq<Row<R>>, r: R): seq<Row<R>>
  {
    t + [Row(r, None)]
  }

  /** INSERT INTO t VALUES (r) ON CONFLICT (key) DO NOTHING. */
  function InsertOrIgnore<R, K(==)>(t: seq<Row<R>>, r: R, key: R -> K): (u: seq<Row<R>>)
    ensures |u| == if Has(t, key, key(r)) then |t| else |t| + 1
    ensures u[..|t|] == t
    ensures |u| > |t| ==> u[|t|] == Row(r, None)
    ensures Has(u, key, key(r))
  {
    if Has(t, key, key(r)) then t
    else
      var u := Insert(t, r);
      assert key(u[|t|].record) == key(r);
      u
  }

  /** UPDATE t SET … WHERE matches(record): `assign` rewrites every row whose
      record matches, and every other row stays as it was. */
  function Update<R>(t: seq<Row<R>>, matches: R -> bool, assign: Row<R> -> Row<R>): (u: seq<Row<R>>)
    ensures |u| == |t|
    ensures forall i :: 0 <= i < |t| ==> u[i] == if matches(t[i].record) then assign(t[i]) else t[i]
  {
    if t == [] then []
    else [if matches(t[0].record) then assign(t[0]) else t[0]] + Update(t[1..], matches, assign)
  }

  /** UPDATE t SET deletedAt = at WHERE hash = h. */
  function SoftDelete<R>(t: seq<Row<R>>, hashOf: R -> Bytes, h: Bytes, at: Option<Date>): (u: seq<Row<R>>)
    ensures |u| == |t|
    ensures forall i :: 0 <= i < |t| ==> u[i].record == t[i].record
    ensures forall i :: 0 <= i < |t| ==>
              u[i].deletedAt == if hashOf(t[i].record) == h then at else t[i].deletedAt
  {
    Update(t, r => hashOf(r) == h, (row: Row<R>) => row.(deletedAt := at))
  }

  /** INSERT INTO t VALUES (r) ON CONFLICT (key) DO UPDATE SET …: when a row
      with r's key exists, `merge(stored, r)` replaces its record (its
      deletedAt is kept); otherwise r is inserted. */
  function InsertOrUpdate<R, K(==)>(t: seq<Row<R>>, r: R, key: R -> K, merge: (R, R) -> R): (u: seq<Row<R>>)
    ensures |u| == if Has(t, key, key(r)) then |t| else |t| + 1
    ensures Has(t, key, key(r)) ==>
              forall i :: 0 <= i < |t| ==>
                u[i].deletedAt == t[i].deletedAt &&
                u[i].record == if key(t[i].record) == key(r) then merge(t[i].record, r) else t[i].record
    ensures !Has(t, key, key(r)) ==> u[..|t|] == t && u[|t|] == Row(r, None)
  {
    if Has(t, key, key(r)) then
      Update(t, x => key(x) == key(r), (row: Row<R>) => row.(record := merge(row.record, r)))
    else Insert(t, r)
  }

  /** Inserting a record whose key is absent keeps the keys unique. */
  lemma InsertKeepsUnique<R, K>(t: seq<Row<R>>, r: R, key: R -> K)
    requires UniqueBy(t, key) && !Has(t, key, key(r))
    ensures UniqueBy(Insert(t, r), key)
  {
    var u := Insert(t, r);
    forall i, j | 0 <= i < j < |u| ensures key(u[i].record) != key(u[j].record) {
      if j == |t| {
        assert u[i] == t[i];
      } else {
        assert u[i] == t[i] && u[j] == t[j];
      }
    }
  }

  /** An insert that ignores conflicts never breaks a unique index on its
      own conflict key. */
  lemma InsertOrIgnoreKeepsUnique<R, K>(t: seq<Row<R>>, r: R, key: R -> K)
    requires UniqueBy(t, key)
    ensures UniqueBy(InsertOrIgnore(t, r, key), key)
  {
    if !Has(t, key, key(r)) {
      InsertKeepsUnique(t, r, key);
    }
  }

  /** Applying the same insert-or-ignore twice is applying it once. */
  lemma InsertOrIgnoreIdempotent<R, K>(t: seq<Row<R>>, r: R, key: R -> K)
    ensures InsertOrIgnore(InsertOrIgnore(t, r, key), r, key) == InsertOrIgnore(t, r, key)
  {
  }

  /** An UPDATE that does not touch records keeps every key of every row. */
  lemma SoftDeleteKeepsUnique<R, K>(t: seq<Row<R>>, hashOf: R -> Bytes, h: Bytes,
                                        at: Option<Date>, key: R -> K)
    requires UniqueBy(t, key)
    ensures UniqueBy(SoftDelete(t, hashOf, h, at), key)
  {
  }

  /** Running the same soft-delete twice gives the table it gives once. */
  lemma SoftDeleteIdempotent<R>(t: seq<Row<R>>, hashOf: R -> Bytes, h: Bytes, at: Option<Date>)
    ensures SoftDelete(SoftDelete(t, hashOf, h, at), hashOf, h, at) == SoftDelete(t, hashOf, h, at)
  {
    var u := SoftDelete(t, hashOf, h, at);
    var v := SoftDelete(u, hashOf, h, at);
    assert forall i :: 0 <= i < |t| ==> v[i] == u[i];
  }

  /** A soft-delete whose hash no row carries leaves the table as it was:
      it never creates a row. */
  lemma SoftDeleteMissingHash<R>(t: seq<Row<R>>, hashOf: R -> Bytes, h: Bytes, at: Option<Date>)
    requires !Has(t, hashOf, h)
    ensures SoftDelete(t, hashOf, h, at) == t
  {
    var u := SoftDelete(t, hashOf, h, at);
    forall i | 0 <= i < |t| ensures u[i] == t[i] {
      assert hashOf(t[i].record) != h;
    }
  }
}
