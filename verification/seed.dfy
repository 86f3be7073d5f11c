/**
 * The seed script: insert the owner's pinned comment unless one already
 * exists. The database is an abstract sequence of rows.
 */
module Seed {
  import opened Common
  import opened Comments

  /** `findFirst({ name: 'Thanh Tai', isPinned: true })` finds a row. */
  predicate HasOwnerPinned(store: seq<Row>) {
    exists i :: 0 <= i < |store| && IsOwnerPinned(store[i].isPinned, store[i].name)
  }

  /** The row `create` inserts, with the database's `id` and creation time. */
  function OwnerRow(id: string, now: int): Row {
    Row(id, OwnerName, OwnerMessage, Some(OwnerPhoto), true, now)
  }

  /**
   * `main()`: check, then create only when missing. `dbOk` is whether the
   * database calls succeed; when one throws, the script logs the error and
   * exits with status 1, and a single-row `create` leaves nothing behind.
   */
  function SeedStore(store: seq<Row>, id: string, now: int, dbOk: bool): (r: seq<Row>)
    ensures !dbOk ==> r == store
    ensures dbOk && HasOwnerPinned(store) ==> r == store
    ensures dbOk && !HasOwnerPinned(store) ==> r == store + [OwnerRow(id, now)]
    ensures dbOk ==> HasOwnerPinned(r)
    ensures HasOwnerPinned(store) ==> HasOwnerPinned(r)
  {
    if !dbOk || HasOwnerPinned(store) then store
    else
      var r := store + [OwnerRow(id, now)];
      assert IsOwnerPinned(r[|store|].isPinned, r[|store|].name);
      r
  }

  /**
   * A second run changes nothing after a successful one, whatever ids, times
   * and outcome it has; after a failed one it is as if it were the first.
   */
  lemma SeedIdempotent(store: seq<Row>, id1: string, now1: int, ok1: bool, id2: string, now2: int, ok2: bool)
    ensures ok1 ==> SeedStore(SeedStore(store, id1, now1, ok1), id2, now2, ok2) == SeedStore(store, id1, now1, ok1)
    ensures !ok1 ==> SeedStore(SeedStore(store, id1, now1, ok1), id2, now2, ok2) == SeedStore(store, id2, now2, ok2)
  {
  }
}
