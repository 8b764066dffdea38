// logdb_iter.c: the iterator object, proved against `Cursor.Step`.
module Iteration {
  import opened Bytes
  import opened Layout
  import opened FileFormat
  import opened Recovery
  import opened Records
  import opened Cursor
  import opened Leases

  /** The lease of cursor `c` is a lease on a prefix of its section. */
  ghost predicate LeaseAgrees(c: Cursor, content: Store, offset: nat, len: nat)
    requires CursorOk(c) && c.leased
  {
    && c.index < |content| && c.taken != [] && c.taken <= content[c.index]
    && offset == Position(c) && len == Unread(c)
  }

  /** The fields are those of the record that cursor `c` is at. */
  ghost predicate FieldsAgree(c: Cursor, keylen: nat, valuelen: nat, key: Option<seq<byte>>, value: Option<seq<byte>>)
    requires CursorOk(c) && Current(c)
  {
    && keylen == KeyLen(c.taken[c.start..]) && valuelen == ValueLen(c.taken[c.start..])
    && (key.Some? ==> key.value == CurrentRecord(c).key)
    && (value.Some? ==> value.value == CurrentRecord(c).value)
  }

  class Iterator {
    const database: Database
    const lease: Lease
    var keylen: nat
    var valuelen: nat
    var key: Option<seq<byte>>
    var value: Option<seq<byte>>
    ghost var taken: seq<byte>  // what the section held when the lease was taken
    ghost var start: nat        // where the current record begins

    /** The cursor that this object stands for. */
    ghost function View(): Cursor
      reads this, lease
    {
      Cursor(lease.connection != null, lease.index, taken, start, key.Some?, value.Some?)
    }

    /** The fields agree with the committed bytes. */
    ghost predicate Valid()
      reads this, lease, database
    {
      && database.Valid()
      && (lease.connection == null || lease.connection == database)
      && CursorOk(View())
      && (!View().leased ==> lease.len < RECORD_HEADER_SIZE)
      && (View().leased ==> LeaseAgrees(View(), database.Content(), lease.offset, lease.len))
      && (Current(View()) ==> FieldsAgree(View(), keylen, valuelen, key, value))
      && (View().leased && !Current(View()) ==> key.None? && value.None?)
    }

    /** `logdb_iter_all`. */
    constructor (db: Database)
      requires db.Valid()
      ensures Valid() && database == db && fresh(lease) && !View().leased
    {
      database := db;
      lease := new Lease();
      keylen, valuelen, key, value, taken, start := 0, 0, None, None, [], 0;
    }

    /** The lease covers the rest of `taken`. */
    ghost predicate Attached()
      reads this, lease, database
    {
      && database.Valid()
      && lease.connection == database && lease.index < |database.entries|
      && taken != [] && taken <= database.Content()[lease.index]
      && lease.offset + lease.len == |taken|
    }

    /** `logdb_iter_read_buf`. */
    method ReadBuf(n: nat) returns (data: Option<seq<byte>>)
      requires Attached()
      modifies lease`offset, lease`len
      ensures Attached()
      ensures data.Some? <==> n <= old(lease.len)
      ensures data.Some? ==> data.value == taken[old(lease.offset)..old(lease.offset) + n]
      ensures lease.offset == old(lease.offset) + if data.Some? then n else 0
    {
      InFile(database.file, database.entries, lease.index, taken, lease.offset, if n <= lease.len then n else 0);
      var bytes, notRead := lease.Read(n, n);
      data := if n > 0 && notRead != 0 then None else Some(bytes);
    }

    /** The end of `logdb_iter_next`: the header of the record at `start`. */
    method ReadHeader() returns (more: bool)
      requires Attached() && start <= |taken| && Whole(taken[start..])
      requires lease.offset == start && key.None? && value.None?
      modifies this`keylen, this`valuelen, lease`offset, lease`len
      ensures Valid() && View() == AtRecord(lease.index, taken, start)
      ensures more <==> start < |taken|
    {
      ghost var rest := taken[start..];
      var header := ReadBuf(RECORD_HEADER_SIZE);
      if header.None? { return false; }
      assert header.value == rest[..8] && header.value[..4] == rest[..4] && header.value[4..] == rest[4..8];
      keylen, valuelen := FromU32(header.value[..4]), FromU32(header.value[4..]);
      more := true;
    }

    /** `logdb_iter_next`. */
    method Next() returns (more: bool)
      requires Valid() && WholeStore(database.Content())
      modifies this, lease
      ensures Valid() && (View(), more) == Step(old(View()), database.Content())
    {
      if lease.len < RECORD_HEADER_SIZE {
        more := NextSection();
      } else {
        more := SkipRecord();
      }
    }

    /** The loop that passes over sections without data. */
    method FirstWithData(from: nat) returns (index: nat, found: bool)
      requires database.Valid()
      ensures index == NextNonEmpty(database.Content(), from)
      ensures found <==> index < |database.entries|
    {
      index := from;
      var entry := database.ReadEntry(index);
      while entry == Some(0)
        invariant entry == if index < |database.entries| then Some(database.entries[index]) else None
        invariant NextNonEmpty(database.Content(), index) == NextNonEmpty(database.Content(), from)
        decreases |database.entries| - index
      {
        index := index + 1;
        entry := database.ReadEntry(index);
      }
      found := entry.Some?;
    }

    /** The branch that takes a lease on the next section with data. */
    method NextSection() returns (more: bool)
      requires Valid() && WholeStore(database.Content()) && lease.len < RECORD_HEADER_SIZE
      modifies this, lease
      ensures Valid() && (View(), more) == Step(old(View()), database.Content())
    {
      hide Position, FieldsAgree, Step, NextNonEmpty, Whole;
      ghost var c, content := View(), database.Content();
      StepsAcross(c, content);
      var index := 0;
      if lease.connection != null {
        index := lease.index + 1;
        lease.Release();
      }
      index, more := FirstWithData(index);
      if !more { return; }
      more := lease.AcquireRead(database, index, 0);
      taken, start := content[index], 0;
      key, value := None, None;
      assert taken[0..] == taken;
      more := ReadHeader();
    }

    /** The branch that skips what was not read of the current record. */
    method SkipRecord() returns (more: bool)
      requires Valid() && WholeStore(database.Content()) && lease.len >= RECORD_HEADER_SIZE
      modifies this, lease
      ensures Valid() && (View(), more) == Step(old(View()), database.Content())
    {
      hide CursorOk, Position, KeyLen, ValueLen, FirstRecord, Whole;
      ghost var c := View();
      StepsWithin(c, database.Content());
      RestIsWhole(c);
      more := true;
      if key.None? {
        KeyPart(c);
        more := lease.Seek(keylen);
      }
      if !more { return; }
      if value.None? {
        ValuePart(c.(key := true));
        more := lease.Seek(valuelen);
      }
      if !more { return; }
      AllRead(c);
      start := RecordEnd(c);
      key, value := None, None;
      more := ReadHeader();
    }

    /** `logdb_iter_current_key`. */
    method CurrentKey() returns (bytes: Option<seq<byte>>)
      requires Valid() && Current(View())
      modifies this`key, lease`offset, lease`len
      ensures Valid() && View() == old(View()).(key := true)
      ensures bytes == Some(CurrentRecord(View()).key)
    {
      hide CursorOk, LeaseAgrees, Position;
      if key.None? { ReadKey(); }
      bytes := key;
    }

    /** `logdb_iter_current_value`: reads the key first. */
    method CurrentValue() returns (bytes: Option<seq<byte>>)
      requires Valid() && Current(View())
      modifies this`key, this`value, lease`offset, lease`len
      ensures Valid() && View() == old(View()).(key := true, value := true)
      ensures bytes == Some(CurrentRecord(View()).value)
    {
      hide LeaseAgrees, Position;
      if value.None? {
        if key.None? { var k := CurrentKey(); }
        ReadValue();
      }
      bytes := value;
    }

    method ReadKey()
      requires Valid() && Current(View()) && key.None?
      modifies this`key, lease`offset, lease`len
      ensures Valid() && View() == old(View()).(key := true)
    {
      hide CursorOk, Position, KeyLen, ValueLen, FirstRecord;
      KeyPart(View());
      key := ReadBuf(keylen);
    }

    method ReadValue()
      requires Valid() && Current(View()) && key.Some? && value.None?
      modifies this`value, lease`offset, lease`len
      ensures Valid() && View() == old(View()).(value := true)
    {
      hide CursorOk, Position, KeyLen, ValueLen, FirstRecord;
      ValuePart(View());
      value := ReadBuf(valuelen);
    }
  }

  lemma StepsAcross(c: Cursor, content: Store)
    requires CursorOk(c) && (c.leased ==> Unread(c) < RECORD_HEADER_SIZE)
    ensures Step(c, content) == StepTo(c, content, NextNonEmpty(content, if c.leased then c.index + 1 else 0))
  {
  }

  lemma StepsWithin(c: Cursor, content: Store)
    requires CursorOk(c) && c.leased && Unread(c) >= RECORD_HEADER_SIZE
    ensures Current(c) && Step(c, content) == (AtRecord(c.index, c.taken, RecordEnd(c)), RecordEnd(c) < |c.taken|)
  {
  }

  lemma AllRead(c: Cursor)
    requires CursorOk(c) && Current(c)
    ensures CursorOk(Choose(c, KeyAndValue)) && Position(Choose(c, KeyAndValue)) == RecordEnd(c)
  {
  }

  /** Where the key is. */
  lemma KeyPart(c: Cursor)
    requires CursorOk(c) && Current(c) && !c.key
    ensures var (d, n) := (c.(key := true), KeyLen(c.taken[c.start..]));
            && CursorOk(d) && Current(d) && !c.value && CurrentRecord(d) == CurrentRecord(c)
            && Position(d) == Position(c) + n && n <= Unread(c)
            && c.taken[Position(c)..Position(c) + n] == CurrentRecord(c).key
  {
    RestIsWhole(c);
    hide Whole, KeyLen, ValueLen;
    var rest := c.taken[c.start..];
    assert CurrentRecord(c).key == rest[RECORD_HEADER_SIZE..RECORD_HEADER_SIZE + KeyLen(rest)];
  }

  /** Where the value is. */
  lemma ValuePart(c: Cursor)
    requires CursorOk(c) && Current(c) && c.key && !c.value
    ensures var (d, n) := (c.(value := true), ValueLen(c.taken[c.start..]));
            && CursorOk(d) && Current(d) && CurrentRecord(d) == CurrentRecord(c)
            && Position(d) == Position(c) + n && n <= Unread(c)
            && c.taken[Position(c)..Position(c) + n] == CurrentRecord(c).value
  {
    RestIsWhole(c);
    hide Whole, KeyLen, ValueLen;
    var rest := c.taken[c.start..];
    assert CurrentRecord(c).value == rest[RECORD_HEADER_SIZE + KeyLen(rest)..Size(rest)];
  }

  /** The branch of `Step` that changes sections, with the section it goes to. */
  ghost function StepTo(c: Cursor, content: Store, i: nat): (Cursor, bool) {
    if i < |content| then (AtRecord(i, content[i], 0), true) else (c.(leased := false), false)
  }

  lemma InFile(file: seq<byte>, entries: seq<nat>, index: nat, taken: seq<byte>, offset: nat, n: nat)
    requires |entries| < MAX_SECTIONS && InDb(file, entries) && index < |entries|
    requires taken != [] && taken <= Sections(file, entries)[index] && offset + n <= |taken|
    ensures SectionStart(index) + |taken| <= |file|
    ensures file[SectionStart(index) + offset..SectionStart(index) + offset + n] == taken[offset..offset + n]
  {
    var section, at := Sections(file, entries)[index], SectionStart(index);
    assert taken == section[..|taken|];
    assert entries[index] > 0 && at + entries[index] <= |file|;
    SliceOfSlice(file, at, at + entries[index], offset, offset + n);
    SliceOfSlice(section, 0, |taken|, offset, offset + n);
  }

  lemma SliceOfSlice(s: seq<byte>, a: nat, b: nat, x: nat, y: nat)
    requires a <= b <= |s| && x <= y <= b - a
    ensures s[a..b][x..y] == s[a + x..a + y]
  {
    var t := s[a..b];
    forall k | 0 <= k < y - x ensures t[x..y][k] == s[a + x..a + y][k] {
      assert t[x..y][k] == t[x + k] == s[a + (x + k)];
    }
    assert t[x..y] == s[a + x..a + y];
  }
}
