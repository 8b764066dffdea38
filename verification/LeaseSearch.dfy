// `logdb_lease_acquire_write` as the loop it is, while nobody else moves, against
// the functions of `SearchSpec`. `CommitSearch` proves of the same functions, step
// by step and with both lock levels, that they decide whether the search ends.
module LeaseSearch {
  import opened Layout
  import opened FileFormat
  import opened Recovery
  import opened Leases
  import opened SearchSpec

  /** One walk over at most four entries before `from`, newest first. */
  method WalkBack(db: Database, from: nat, size: nat) returns (found: bool, index: nat, visited: nat)
    requires db.Valid() && from <= |db.entries|
    ensures WalkFrom(db.entries, size, from, 0) == if found then Chosen(index, visited) else Nothing
  {
    index, visited, found := from, 0, false;
    while index > 0 && visited < MAX_WALK
      invariant visited <= MAX_WALK && index <= from
      invariant WalkFrom(db.entries, size, from, 0) == WalkFrom(db.entries, size, index, visited)
      decreases index
    {
      index, visited := index - 1, visited + 1;
      var entry := db.ReadEntry(index);
      if SECTION_SIZE - entry.value >= size {
        found := true;
        return;
      }
    }
  }

  /** `locked` are the entries whose lock, at either level, is not to be had. If the
      search ends at all, it ends within five walks and leaves at most one new
      section behind. */
  method AcquireWrite(db: Database, locked: set<nat>, size: nat) returns (ok: bool, lease: Lease, ghost walks: nat)
    requires db.Valid() && |db.entries| + 1 < MAX_SECTIONS
    requires forall i :: i in locked ==> i < |db.entries|
    requires size <= SECTION_SIZE ==> Ends(db.entries, size, locked, 0, 5)
    modifies db`entries
    ensures db.Valid() && (db.entries == old(db.entries) || db.entries == old(db.entries) + [0])
    ensures db.Content() == old(db.Content()) + if db.entries == old(db.entries) then [] else [[]]
    ensures ok <==> size <= SECTION_SIZE
    ensures !ok ==> db.entries == old(db.entries)
    ensures ok ==>
              && lease.index == EndsAt(old(db.entries), size, locked, 0, 5)
              && db.entries == old(db.entries) + if lease.index == |old(db.entries)| then [0] else []
    ensures ok ==>
              && fresh(lease) && lease.connection == db && lease.len == size && walks <= 5
              && lease.index < |db.entries| && lease.index !in locked
              && lease.offset == db.entries[lease.index] && lease.offset + size <= SECTION_SIZE
  {
    hide InDb, Sections, SmallLens, WalkFrom, Ends, EndsAt;
    walks := 0;
    lease := new Lease();
    ok := size <= SECTION_SIZE;
    if !ok { return; }
    ghost var before, content := db.entries, db.Content();
    var visited: nat, index: nat, offset: nat := 0, 0, 0;
    while true
      invariant db.Valid() && db.entries == before && db.Content() == content
      invariant walks < 5 && visited <= |db.entries| && Ends(before, size, locked, visited, 5 - walks)
      invariant EndsAt(before, size, locked, visited, 5 - walks) == EndsAt(before, size, locked, 0, 5)
      decreases 5 - walks
    {
      var found;
      OneHop(before, size, locked, visited, 5 - walks);
      found, index, visited := WalkBack(db, |db.entries| - visited, size);
      walks := walks + 1;
      if found {
        offset := db.entries[index];
      } else {
        db.AddSection();
        index, offset, visited := |db.entries| - 1, 0, 1;
      }
      if index in locked { continue; }
      var entry := db.ReadEntry(index);
      if SECTION_SIZE - entry.value >= size { break; }  // the double check
    }
    lease.connection, lease.index, lease.offset, lease.len := db, index, offset, size;
  }
}
