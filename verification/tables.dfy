/**
  One collection of the in-memory store (server/storage.ts): an insertion-ordered
  `Map<number, X>` plus the auto-increment counter that feeds it.

  The map is a sequence of rows in insertion order (the iteration order of a
  JavaScript `Map`); `nextId` is the counter, which starts at 1.
 */
module Tables {
  import opened Wrappers
  import opened Schema
  import opened Seqs

  datatype Table<P> = Table(rows: seq<Entity<P>>, nextId: nat)

  /**
    The invariant every table keeps: rows carry the ids 1, 2, 3, … in insertion
    order, and the counter is one past the last of them. Nothing is ever deleted.
   */
  predicate Valid<P>(t: Table<P>) {
    t.nextId == |t.rows| + 1 &&
    forall i :: 0 <= i < |t.rows| ==> t.rows[i].id == i + 1
  }

  /** A fresh collection: `new Map()` with its counter at 1. */
  function EmptyTable<P>(): (t: Table<P>)
    ensures Valid(t) && |t.rows| == 0 && t.nextId == 1
  {
    Table([], 1)
  }

  /** `const id = this.xId++; map.set(id, { ...payload, id })`. */
  function Insert<P>(t: Table<P>, p: P): (r: (Entity<P>, Table<P>))
    ensures r.0 == Entity(t.nextId, p)
    ensures r.1.rows == t.rows + [r.0] && r.1.nextId == t.nextId + 1
    ensures Valid(t) ==> Valid(r.1)
  {
    var e := Entity(t.nextId, p);
    (e, Table(t.rows + [e], t.nextId + 1))
  }

  /** Successive inserts of `ps`, in order. */
  function InsertAll<P>(t: Table<P>, ps: seq<P>): (r: Table<P>)
    ensures |r.rows| == |t.rows| + |ps| && r.nextId == t.nextId + |ps|
    ensures r.rows[..|t.rows|] == t.rows
    ensures forall i :: 0 <= i < |ps| ==> r.rows[|t.rows| + i] == Entity(t.nextId + i, ps[i])
    ensures Valid(t) ==> Valid(r)
    decreases |ps|
  {
    if |ps| == 0 then t else InsertAll(Insert(t, ps[0]).1, ps[1..])
  }

  function HasId<P>(id: int): Entity<P> -> bool {
    (e: Entity<P>) => e.id == id
  }

  /** `map.get(id)`: under the invariant, the row at position `id - 1` when `id` was issued. */
  function Get<P>(t: Table<P>, id: int): (r: Option<Entity<P>>)
    ensures r.Some? <==> exists i :: 0 <= i < |t.rows| && t.rows[i].id == id
    ensures r.Some? ==> r.value in t.rows && r.value.id == id
    ensures Valid(t) ==> r == if 1 <= id < t.nextId then Some(t.rows[id - 1]) else None
  {
    First(t.rows, HasId(id))
  }

  /**
    `map.set(id, { ...row, ...change })` for an id already present: the row keeps
    its id and its place in the iteration order, every other row is untouched.
   */
  function Replace<P>(t: Table<P>, id: int, data: P): (r: Table<P>)
    ensures |r.rows| == |t.rows| && r.nextId == t.nextId
    ensures forall i :: 0 <= i < |t.rows| && t.rows[i].id == id ==> r.rows[i] == Entity(t.rows[i].id, data)
    ensures forall i :: 0 <= i < |t.rows| && t.rows[i].id != id ==> r.rows[i] == t.rows[i]
    ensures Valid(t) ==> Valid(r)
  {
    Table(seq(|t.rows|, i requires 0 <= i < |t.rows| =>
                if t.rows[i].id == id then t.rows[i].(data := data) else t.rows[i]),
          t.nextId)
  }

  /** Ids within a table are unique and strictly increasing in creation order. */
  lemma IdsStrictlyIncreasing<P>(t: Table<P>)
    requires Valid(t)
    ensures forall i, j :: 0 <= i < j < |t.rows| ==> 1 <= t.rows[i].id < t.rows[j].id < t.nextId
  {
  }
}
