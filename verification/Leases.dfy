// logdb_lease.c: reading, writing and seeking through a lease, on a database
// that other threads may extend between any two calls.
module Leases {
  import opened Bytes
  import opened Layout
  import opened FileFormat
  import opened Recovery
  import opened RecoveryProofs

  /** The shared files, by what the log entries and the section bytes are. */
  class Database {
    var entries: seq<nat>
    var file: seq<byte>
    var durable: seq<byte>  // the file as the last successful `fsync` brought it to the disk

    ghost predicate Valid()
      reads this
    {
      |entries| < MAX_SECTIONS && SmallLens(entries) && InDb(file, entries)
    }

    /** Committed bytes of each section. */
    ghost function Content(): Store
      requires Valid()
      reads this
    {
      Sections(file, entries)
    }

    /** Every committed byte is on the disk. */
    ghost predicate Synced()
      requires Valid()
      reads this
    {
      InDb(durable, entries) && Sections(durable, entries) == Content()
    }

    constructor ()
      ensures Valid() && Synced() && entries == [] && file == DB_HEADER && fresh(this)
    {
      entries, file, durable := [], DB_HEADER, DB_HEADER;
    }

    /** `fsync` of the database file. */
    method Sync(succeeds: bool) returns (ok: bool)
      modifies this`durable
      ensures ok == succeeds && durable == if ok then file else old(durable)
    {
      ok := succeeds;
      if ok { durable := file; }
    }

    /** An empty section at the end of the log. */
    method AddSection()
      requires Valid() && |entries| + 1 < MAX_SECTIONS
      modifies this`entries
      ensures Valid() && entries == old(entries) + [0]
      ensures Content() == old(Content()) + [[]] && (old(Synced()) ==> Synced())
    {
      entries := entries + [0];
    }

    /** `logdb_log_read_entry`. */
    method ReadEntry(index: nat) returns (len: Option<nat>)
      requires Valid()
      ensures len == if index < |entries| then Some(entries[index]) else None
    {
      if index >= |entries| { return None; }
      len := Some(entries[index]);
    }

    /** `logdb_log_write_entry` after bytes were written behind the committed ones. */
    method WriteEntry(index: nat, len: nat)
      requires Valid() && index < |entries| && len < SECTION_SIZE
      requires len > 0 ==> SectionStart(index) + len <= |file|
      modifies this`entries
      ensures Valid() && entries == old(entries)[index := len]
    {
      entries := entries[index := len];
    }
  }

  class Lease {
    var connection: Database?
    var index: nat
    var offset: nat
    var len: nat

    constructor ()
      ensures connection == null && len == 0 && fresh(this)
    {
      connection, index, offset, len := null, 0, 0, 0;
    }

    /** `logdb_lease_acqire_read`. */
    method AcquireRead(conn: Database, section: nat, at: nat) returns (ok: bool)
      requires conn.Valid()
      modifies this
      ensures ok <==> section < |conn.entries| && at < conn.entries[section]
      ensures ok ==> connection == conn && index == section && offset == at && len == conn.entries[section] - at
      ensures !ok ==> connection == null && len == old(len)
    {
      connection := null;
      var entry := conn.ReadEntry(section);
      if entry.None? || at >= entry.value { return false; }
      connection, index, offset, len := conn, section, at, entry.value - at;
      ok := true;
    }

    /** `logdb_lease_read`; the file system delivers `delivers` bytes before it fails. */
    method Read(n: nat, delivers: nat) returns (data: seq<byte>, notRead: nat)
      requires connection != null && index < MAX_SECTIONS
      requires SectionStart(index) + offset + len <= |connection.file|
      modifies this`offset, this`len
      ensures n > old(len) ==> notRead == n && data == [] && offset == old(offset) && len == old(len)
      ensures n <= old(len) ==>
                var got := if delivers < n then delivers else n;
                && notRead == n - got && offset == old(offset) + got && len == old(len) - got
                && data == connection.file[SectionStart(index) + old(offset)..SectionStart(index) + old(offset) + got]
    {
      if n > len { return [], n; }
      SectionsShareBytes(index, index);
      var at := ConnectionOffset(index) + offset;
      var got := if delivers < n then delivers else n;
      data, notRead := connection.file[at..at + got], n - got;
      offset, len := offset + got, len - got;
    }

    /** `logdb_lease_write`; the file system takes `room` more bytes. */
    method Write(data: seq<byte>, room: nat) returns (notWritten: nat)
      requires connection != null && index < MAX_SECTIONS
      modifies this`offset, this`len, connection`file
      ensures |data| > old(len) ==>
                && notWritten == |data| && offset == old(offset) && len == old(len)
                && connection.file == old(connection.file)
      ensures |data| <= old(len) ==>
                var n := if room < |data| then room else |data|;
                && notWritten == |data| - n && offset == old(offset) + n && len == old(len) - n
                && connection.file == Overwrite(old(connection.file), SectionStart(index) + old(offset), data[..n])
    {
      if |data| > len { return |data|; }
      SectionsShareBytes(index, index);
      var at := ConnectionOffset(index) + offset;
      var n := if room < |data| then room else |data|;
      connection.file := Overwrite(connection.file, at, data[..n]);
      offset, len := offset + n, len - n;
      notWritten := |data| - n;
    }

    /** `logdb_lease_seek`. */
    method Seek(n: nat) returns (ok: bool)
      modifies this`offset, this`len
      ensures ok <==> n <= old(len)
      ensures offset == (if ok then old(offset) + n else old(offset)) && len == if ok then old(len) - n else old(len)
    {
      if n > len { return false; }
      offset, len := offset + n, len - n;
      ok := true;
    }

    /** `logdb_lease_release` of a read lease. */
    method Release()
      modifies this`connection
      ensures connection == null
    {
      connection := null;
    }
  }

  lemma SectionsCovered(file: seq<byte>, entries: seq<nat>)
    requires |entries| < MAX_SECTIONS && InDb(file, entries) && SmallLens(entries)
    ensures Covers(file, Sections(file, entries)) && Lens(Sections(file, entries)) == entries
  {
    var content := Sections(file, entries);
    forall i | 0 <= i < |content| ensures SectionAt(file, i, content[i]) { }
  }

  /** The committed content after a commit to section `i`, as the 16-bit entry has it:
      the entry of a section that is filled to its last byte reads 0, and all that
      was committed to it is lost. */
  function Placed(content: Store, i: nat, bytes: seq<byte>): Store {
    if i >= |content| then content
    else if |content[i]| + |bytes| < SECTION_SIZE then content[i := content[i] + bytes]
    else content[i := []]
  }

  /** A commit of `size` bytes to section `i` fills it to its last byte. */
  predicate FillsSection(content: Store, i: nat, size: nat) {
    i < |content| && |content[i]| + size == SECTION_SIZE
  }

  /** Bytes written behind a section's committed ones change no content, until
      the entry says that they belong to it. */
  lemma WrittenBehind(file: seq<byte>, entries: seq<nat>, i: nat, data: seq<byte>, after: seq<byte>)
    requires |entries| < MAX_SECTIONS && InDb(file, entries) && SmallLens(entries)
    requires i < |entries| && entries[i] + |data| <= SECTION_SIZE
    requires after == Overwrite(file, SectionStart(i) + entries[i], data)
    ensures |Sections(file, entries)| == |entries|
    ensures InDb(after, entries) && Sections(after, entries) == Sections(file, entries)
    ensures var len := StoredLength(entries[i] + |data|);
            && (len > 0 ==> SectionStart(i) + len <= |after|)
            && InDb(after, entries[i := len])
            && Sections(after, entries[i := len]) == Placed(Sections(file, entries), i, data)
  {
    hide Covers, Overwrite, Sections;
    var content := Sections(file, entries);
    SectionsCovered(file, entries);
    WriteAbove(file, content, i, entries[i], data);
    StoredLengthExact(entries[i] + |data|);
    SectionsOfCover(after, content);
    var content' := Placed(content, i, data);
    if entries[i] + |data| == SECTION_SIZE { CoversLess(after, content, i); }
    assert entries[i := StoredLength(entries[i] + |data|)] == Lens(content');
    SectionsOfCover(after, content');
  }

  lemma CoversLess(file: seq<byte>, content: Store, i: nat)
    requires Covers(file, content) && i < |content|
    ensures Covers(file, content[i := []])
  {
    var less := content[i := []];
    forall j | 0 <= j < |content| ensures SectionAt(file, j, less[j]) { assert SectionAt(file, j, content[j]); }
  }
}
