/**
 * In-memory stand-in for a Postgres table with a `serial` primary key, and the three query
 * shapes the storage layer uses on it: `where ... ` returning every matching row, the
 * destructured `const [row] = await db.select()...` returning one match, and `orderBy`.
 */
module Tables {
  import opened Wrappers

  /** Rows by primary key, and the key the next insert receives (serials start at 1). */
  datatype Table<T> = Table(rows: map<int, T>, nextId: int)

  function EmptyTable<T>(): Table<T> {
    Table(map[], 1)
  }

  /** Each row sits under its own id, and every id lies between 1 and the serial counter. */
  ghost predicate Keyed<T>(t: Table<T>, idOf: T -> int) {
    && 1 <= t.nextId
    && InRange(t)
    && forall k :: k in t.rows ==> idOf(t.rows[k]) == k
  }

  /** No two keys hold the same row. */
  ghost predicate Distinct<T>(m: map<int, T>) {
    forall j, k :: j in m && k in m && j != k ==> m[j] != m[k]
  }

  lemma KeyedDistinct<T>(t: Table<T>, idOf: T -> int)
    requires Keyed(t, idOf)
    ensures Distinct(t.rows)
  {
    forall j, k | j in t.rows && k in t.rows && j != k
      ensures t.rows[j] != t.rows[k]
    {
      assert idOf(t.rows[j]) == j && idOf(t.rows[k]) == k;
    }
  }

  /** The row under `id`, or `undefined`. */
  function Get<T>(t: Table<T>, id: int): Option<T> {
    if id in t.rows then Some(t.rows[id]) else None
  }

  /** `insert ... returning`: the row goes under the serial counter, which then moves on. */
  function Append<T>(t: Table<T>, row: T): Table<T> {
    Table(t.rows[t.nextId := row], t.nextId + 1)
  }

  /** Inserting a row built with the next id keeps the table keyed. */
  lemma AppendKeyed<T>(t: Table<T>, row: T, idOf: T -> int)
    requires Keyed(t, idOf)
    requires idOf(row) == t.nextId
    ensures Keyed(Append(t, row), idOf)
  {
  }

  /**
   * An insert the table refuses after drawing its id: `nextval` is not rolled back, so the
   * counter moves on although no row is added.
   */
  function Skip<T>(t: Table<T>): (r: Table<T>)
    ensures r.rows == t.rows && r.nextId == t.nextId + 1
  {
    Table(t.rows, t.nextId + 1)
  }

  /** Drawing an id without storing a row keeps the table keyed. */
  lemma SkipKeyed<T>(t: Table<T>, idOf: T -> int)
    requires Keyed(t, idOf)
    ensures Keyed(Skip(t), idOf)
  {
  }

  /** Replacing the row under an existing id by one with the same id keeps the table keyed. */
  lemma ReplaceKeyed<T>(t: Table<T>, id: int, row: T, idOf: T -> int)
    requires Keyed(t, idOf)
    requires id in t.rows && idOf(row) == id
    ensures Keyed(Table(t.rows[id := row], t.nextId), idOf)
  {
  }

  // ---------------------------------------------------------------------------------------------
  // Selection

  /** Every key lies in `[1, nextId)`: serials start at 1 and only grow. */
  ghost predicate InRange<T>(t: Table<T>) {
    forall k :: k in t.rows ==> 1 <= k < t.nextId
  }

  /** The rows under keys `lo`, `lo + 1`, ..., `hi - 1` that satisfy `keep`, in key order. */
  function SelectRange<T(==)>(m: map<int, T>, keep: T -> bool, lo: int, hi: int): (rows: seq<T>)
    requires Distinct(m)
    ensures forall r :: r in rows ==> keep(r) && exists k :: lo <= k < hi && k in m && m[k] == r
    ensures forall k :: lo <= k < hi && k in m && keep(m[k]) ==> multiset(rows)[m[k]] == 1
    decreases hi - lo
  {
    if hi <= lo then []
    else
      var rest := SelectRange(m, keep, lo + 1, hi);
      if lo in m && keep(m[lo]) then
        assert m[lo] !in rest;
        [m[lo]] + rest
      else rest
  }

  /**
   * `select().from(t).where(keep)`: every row that satisfies `keep`, each exactly once, and
   * nothing else.
   */
  function Select<T(==)>(t: Table<T>, idOf: T -> int, keep: T -> bool): (rows: seq<T>)
    requires Keyed(t, idOf)
    ensures forall x :: x in rows ==> x in t.rows.Values && keep(x)
    ensures forall k :: k in t.rows && keep(t.rows[k]) ==> t.rows[k] in rows
    ensures forall x :: x in rows ==> multiset(rows)[x] == 1
  {
    KeyedDistinct(t, idOf);
    SelectRange(t.rows, keep, 1, t.nextId)
  }

  /** `rows` holds exactly the rows of `t` that satisfy `keep`, each once. */
  ghost predicate Exactly<T>(rows: seq<T>, t: Table<T>, keep: T -> bool) {
    && (forall x :: x in rows ==> x in t.rows.Values && keep(x))
    && (forall k :: k in t.rows && keep(t.rows[k]) ==> t.rows[k] in rows)
    && (forall x :: x in rows ==> multiset(rows)[x] == 1)
  }

  /** Replacing the row under an existing id. */
  function Replace<T>(t: Table<T>, id: int, row: T): (r: Table<T>)
    requires id in t.rows
    ensures r.rows.Keys == t.rows.Keys && r.nextId == t.nextId
    ensures r.rows[id] == row
    ensures forall k :: k in t.rows && k != id ==> r.rows[k] == t.rows[k]
  {
    Table(t.rows[id := row], t.nextId)
  }

  /** The first key in `[lo, hi)` holding a row that satisfies `keep`. */
  function FirstKey<T>(m: map<int, T>, keep: T -> bool, lo: int, hi: int): (k: Option<int>)
    ensures k.None? <==> forall j :: lo <= j < hi && j in m ==> !keep(m[j])
    ensures k.Some? ==> lo <= k.value < hi && k.value in m && keep(m[k.value])
    decreases hi - lo
  {
    if hi <= lo then None
    else if lo in m && keep(m[lo]) then Some(lo)
    else FirstKey(m, keep, lo + 1, hi)
  }

  /**
   * `const [row] = await db.select().from(t).where(keep)`: a matching row if there is one.
   * Postgres promises no order; the model returns the match with the smallest id.
   */
  function FirstWhere<T>(t: Table<T>, keep: T -> bool): (r: Option<T>)
    requires InRange(t)
    ensures r.None? <==> forall k :: k in t.rows ==> !keep(t.rows[k])
    ensures r.Some? ==> exists k :: k in t.rows && t.rows[k] == r.value && keep(r.value)
  {
    match FirstKey(t.rows, keep, 1, t.nextId)
    case None => None
    case Some(k) => Some(t.rows[k])
  }

  // ---------------------------------------------------------------------------------------------
  // Ordering

  ghost predicate SortedBy<T>(xs: seq<T>, key: T -> int) {
    forall i, j :: 0 <= i < j < |xs| ==> key(xs[i]) <= key(xs[j])
  }

  /** Where `x` goes in `xs`: after every element with a smaller key, before the others. */
  function InsertionPoint<T>(x: T, xs: seq<T>, key: T -> int): (p: nat)
    requires SortedBy(xs, key)
    ensures p <= |xs|
    ensures forall i :: 0 <= i < p ==> key(xs[i]) < key(x)
    ensures forall i :: p <= i < |xs| ==> key(x) <= key(xs[i])
    decreases |xs|
  {
    if |xs| == 0 || key(x) <= key(xs[0]) then 0 else 1 + InsertionPoint(x, xs[1..], key)
  }

  function InsertBy<T>(x: T, xs: seq<T>, key: T -> int): (r: seq<T>)
    requires SortedBy(xs, key)
    ensures SortedBy(r, key)
    ensures multiset(r) == multiset(xs) + multiset{x}
  {
    var p := InsertionPoint(x, xs, key);
    InsertAtKeepsSorted(x, xs, p, key);
    assert xs == xs[..p] + xs[p..];
    xs[..p] + [x] + xs[p..]
  }

  /** Putting `x` between the smaller and the larger keys keeps a sorted sequence sorted. */
  lemma InsertAtKeepsSorted<T>(x: T, xs: seq<T>, p: nat, key: T -> int)
    requires SortedBy(xs, key) && p <= |xs|
    requires forall i :: 0 <= i < p ==> key(xs[i]) < key(x)
    requires forall i :: p <= i < |xs| ==> key(x) <= key(xs[i])
    ensures SortedBy(xs[..p] + [x] + xs[p..], key)
  {
    var r := xs[..p] + [x] + xs[p..];
    forall i, j | 0 <= i < j < |r|
      ensures key(r[i]) <= key(r[j])
    {
      assert r[i] == if i < p then xs[i] else if i == p then x else xs[i - 1];
      assert r[j] == if j < p then xs[j] else if j == p then x else xs[j - 1];
    }
  }

  /** `orderBy(key)`: the same rows, rearranged so that `key` never decreases. */
  function SortBy<T>(xs: seq<T>, key: T -> int): (r: seq<T>)
    ensures SortedBy(r, key)
    ensures multiset(r) == multiset(xs)
    decreases |xs|
  {
    if |xs| == 0 then []
    else
      assert xs == [xs[0]] + xs[1..];
      InsertBy(xs[0], SortBy(xs[1..], key), key)
  }

  /** Rearranging a query result keeps it exact. */
  lemma ExactlyPermutation<T>(rows: seq<T>, perm: seq<T>, t: Table<T>, keep: T -> bool)
    requires Exactly(rows, t, keep) && multiset(perm) == multiset(rows)
    ensures Exactly(perm, t, keep)
  {
    forall x
      ensures x in perm <==> x in rows
    {
      assert x in perm <==> multiset(perm)[x] > 0;
      assert x in rows <==> multiset(rows)[x] > 0;
    }
  }

  /** A filter query with `orderBy(key)`: exactly the matching rows, `key` never decreasing. */
  function SelectSorted<T(==)>(t: Table<T>, idOf: T -> int, keep: T -> bool, key: T -> int): (r: seq<T>)
    requires Keyed(t, idOf)
    ensures Exactly(r, t, keep)
    ensures SortedBy(r, key)
  {
    var matching := Select(t, idOf, keep);
    var r := SortBy(matching, key);
    ExactlyPermutation(matching, r, t, keep);
    r
  }
}
