// The bytes of the database file and of the log file: headers, log entries,
// the log embedded at the end of the database, and how the code reads it back.
module FileFormat {
  import opened Bytes
  import opened Layout

  /** "LDBF" and version 1; "LDBL" and version 1. */
  const DB_HEADER: seq<byte> := [76, 68, 66, 70, 1, 0]
  const LOG_HEADER: seq<byte> := [76, 68, 66, 76, 1, 0]

  /** Committed bytes, section by section. */
  type Store = seq<seq<byte>>

  function Lens(store: Store): (lens: seq<nat>)
    ensures |lens| == |store|
    ensures forall i :: 0 <= i < |store| ==> lens[i] == |store[i]|
  {
    seq(|store|, i requires 0 <= i < |store| => |store[i]|)
  }

  predicate SmallLens(lens: seq<nat>) {
    forall i :: 0 <= i < |lens| ==> lens[i] < SECTION_SIZE
  }

  function EncodeEntries(lens: seq<nat>): (r: seq<byte>)
    requires SmallLens(lens)
    ensures |r| == 2 * |lens|
  {
    seq(2 * |lens|, k requires 0 <= k < 2 * |lens| => if k % 2 == 0 then lens[k / 2] % 256 else lens[k / 2] / 256)
  }

  function DecodeEntries(bytes: seq<byte>): (lens: seq<nat>)
    ensures |lens| == |bytes| / 2 && SmallLens(lens)
  {
    seq(|bytes| / 2, i requires 0 <= i < |bytes| / 2 => bytes[2 * i] as nat + 256 * bytes[2 * i + 1] as nat)
  }

  lemma EntriesRoundTrip(lens: seq<nat>)
    requires SmallLens(lens)
    ensures DecodeEntries(EncodeEntries(lens)) == lens
  {
    var b := EncodeEntries(lens);
    forall i | 0 <= i < |lens| ensures DecodeEntries(b)[i] == lens[i] {
      assert (2 * i) / 2 == i && (2 * i + 1) / 2 == i && (2 * i) % 2 == 0 && (2 * i + 1) % 2 == 1;
      assert b[2 * i] == lens[i] % 256 && b[2 * i + 1] == lens[i] / 256;
    }
  }

  /** The whole log file for these entries. */
  function EncodeLog(lens: seq<nat>): (r: seq<byte>)
    requires SmallLens(lens)
    ensures |r| == LOG_HEADER_SIZE + 2 * |lens|
  {
    LOG_HEADER + EncodeEntries(lens)
  }

  /** `logdb_log_read` accepts the header. */
  predicate LogValid(log: seq<byte>) {
    |log| >= LOG_HEADER_SIZE && log[..LOG_HEADER_SIZE] == LOG_HEADER
  }

  lemma EncodeLogValid(lens: seq<nat>)
    requires SmallLens(lens)
    ensures LogValid(EncodeLog(lens)) && EncodeLog(lens)[LOG_HEADER_SIZE..] == EncodeEntries(lens)
  {
  }

  /** `logdb_log_write_entry`: two bytes at the entry's offset. */
  lemma WriteEntry(lens: seq<nat>, i: nat, len: nat)
    requires SmallLens(lens) && i < |lens| && len < SECTION_SIZE
    ensures Overwrite(EncodeLog(lens), LogOffset(i), U16(len)) == EncodeLog(lens[i := len])
  {
    var before, after := EncodeLog(lens), EncodeLog(lens[i := len]);
    var r := Overwrite(before, LogOffset(i), U16(len));
    forall k | 0 <= k < |r| ensures r[k] == after[k] {
      if LogOffset(i) <= k < LogOffset(i) + 2 {
        assert r[k] == r[LogOffset(i)..LogOffset(i) + 2][k - LogOffset(i)] == U16(len)[k - LogOffset(i)];
        assert (2 * i) / 2 == i && (2 * i + 1) / 2 == i;
      } else {
        assert r[k] == before[k];
        if k >= 6 { assert (k - 6) / 2 != i; }
      }
    }
  }

  lemma AppendEntry(lens: seq<nat>)
    requires SmallLens(lens)
    ensures EncodeLog(lens) + U16(0) == EncodeLog(lens + [0])
  {
    var r, after := EncodeLog(lens) + U16(0), EncodeLog(lens + [0]);
    forall k | 0 <= k < |r| ensures r[k] == after[k] {
      if 6 <= k < 6 + 2 * |lens| { assert (k - 6) / 2 < |lens|; }
    }
  }

  // ----------------------------------------------------- the embedded log

  datatype Embedded = NoLog | Found(entries: seq<byte>) | Damaged

  /** What `logdb_log_create` finds at the end of the database. */
  function ReadEmbedded(db: seq<byte>): Embedded {
    if |db| < MIN_SIZE then NoLog
    else
      var back := FromU32(db[|db| - TRAILER_SIZE..]);
      if back > |db| || back < LOG_HEADER_SIZE + TRAILER_SIZE then Damaged
      else
        var at := |db| - back;
        if db[at..at + LOG_HEADER_SIZE] != LOG_HEADER then Damaged
        else Found(db[at + LOG_HEADER_SIZE..|db| - TRAILER_SIZE])
  }

  /** What `logdb_log_close_merge` appends to the database. */
  function MergeTail(lens: seq<nat>): (r: seq<byte>)
    requires SmallLens(lens) && |lens| < MAX_SECTIONS
    ensures |r| == LOG_HEADER_SIZE + 2 * |lens| + TRAILER_SIZE
  {
    EncodeLog(lens) + U32(LOG_HEADER_SIZE + 2 * |lens| + TRAILER_SIZE)
  }

  /** The trailer leads the next open back to the same entries. */
  lemma EmbeddedRoundTrip(base: seq<byte>, lens: seq<nat>)
    requires SmallLens(lens) && |lens| < MAX_SECTIONS && |base| >= DB_HEADER_SIZE
    ensures ReadEmbedded(base + MergeTail(lens)) == Found(EncodeEntries(lens))
  {
    var db, log := base + MergeTail(lens), EncodeLog(lens);
    var back := LOG_HEADER_SIZE + 2 * |lens| + TRAILER_SIZE;
    assert db[|db| - TRAILER_SIZE..] == U32(back);
    U32RoundTrip(back);
    assert |db| - back == |base|;
    assert db[|base|..|base| + LOG_HEADER_SIZE] == LOG_HEADER;
    assert db[|base| + LOG_HEADER_SIZE..|db| - TRAILER_SIZE] == EncodeEntries(lens);
  }

  // ------------------------------------------------- committed content

  /** File position of a section, for the section numbers that the offset
      arithmetic can represent. */
  function SectionStart(i: nat): nat {
    DB_HEADER_SIZE + i * SECTION_SIZE
  }

  predicate SectionAt(db: seq<byte>, i: nat, bytes: seq<byte>) {
    bytes != [] ==> SectionStart(i) + |bytes| <= |db| && db[SectionStart(i)..SectionStart(i) + |bytes|] == bytes
  }

  /** The database holds every committed byte at its place. */
  predicate Covers(db: seq<byte>, store: Store) {
    && |store| < MAX_SECTIONS
    && (forall i :: 0 <= i < |store| ==> |store[i]| < SECTION_SIZE && SectionAt(db, i, store[i]))
  }

  /** Writing above the committed bytes of one section disturbs no section. */
  lemma WriteAbove(db: seq<byte>, store: Store, i: nat, at: nat, data: seq<byte>)
    requires Covers(db, store) && i < |store| && |store[i]| <= at && at + |data| <= SECTION_SIZE
    ensures Covers(Overwrite(db, SectionStart(i) + at, data), store)
    ensures at == |store[i]| && at + |data| < SECTION_SIZE ==>
              Covers(Overwrite(db, SectionStart(i) + at, data), store[i := store[i] + data])
  {
    var db' := Overwrite(db, SectionStart(i) + at, data);
    forall j | 0 <= j < |store| ensures SectionAt(db', j, store[j]) {
      assert SectionAt(db, j, store[j]);
      SectionUntouched(db, i, at, data, j, store[j]);
    }
    if at == |store[i]| && at + |data| < SECTION_SIZE {
      assert SectionAt(db', i, store[i]);
      var from, grown := SectionStart(i), store[i] + data;
      if data != [] {
        assert db'[from + at..from + at + |data|] == data;
        assert db'[from..from + |grown|] == db'[from..from + at] + db'[from + at..from + at + |data|];
        assert db'[from..from + at] == store[i];
      }
      assert SectionAt(db', i, grown);
    }
  }

  lemma SectionUntouched(db: seq<byte>, i: nat, at: nat, data: seq<byte>, j: nat, bytes: seq<byte>)
    requires at + |data| <= SECTION_SIZE && |bytes| < SECTION_SIZE && SectionAt(db, j, bytes)
    requires i == j ==> |bytes| <= at
    ensures SectionAt(Overwrite(db, SectionStart(i) + at, data), j, bytes)
  {
    var db' := Overwrite(db, SectionStart(i) + at, data);
    if bytes != [] && data != [] {
      forall k | SectionStart(j) <= k < SectionStart(j) + |bytes| ensures db'[k] == db[k] {
        SectionsApart(i, j, at, |data|, k);
      }
      assert db'[SectionStart(j)..SectionStart(j) + |bytes|] == db[SectionStart(j)..SectionStart(j) + |bytes|];
    }
  }

  lemma SectionsApart(i: nat, j: nat, at: nat, n: nat, k: nat)
    requires at + n <= SECTION_SIZE && SectionStart(j) <= k < SectionStart(j) + SECTION_SIZE
    requires i == j ==> k < SectionStart(j) + at
    ensures !(SectionStart(i) + at <= k < SectionStart(i) + at + n)
  {
    if i < j {
      assert SectionStart(i) + SECTION_SIZE <= SectionStart(j);
    } else if j < i {
      assert SectionStart(j) + SECTION_SIZE <= SectionStart(i);
    }
  }
}
