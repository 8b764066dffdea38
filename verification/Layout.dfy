// Sizes, offsets and the fixed-width arithmetic of the two files
// (logdb_internal.h, logdb_connection.c, logdb_log.c).
module Layout {

  const SECTION_SIZE := 65536
  const DB_HEADER_SIZE := 6
  const LOG_HEADER_SIZE := 6
  const ENTRY_SIZE := 2
  const TRAILER_SIZE := 4
  const MIN_SIZE := 16
  const MAX_WALK := 4
  const U32_LIMIT := 0x1_0000_0000
  const MAX_SECTIONS := 65536

  /** File offset of a section; the product is computed in 32 bits. */
  function ConnectionOffset(index: nat): nat {
    DB_HEADER_SIZE + (index * SECTION_SIZE) % U32_LIMIT
  }

  /** File offset of a log entry; the product is computed in `size_t`. */
  function LogOffset(index: nat): nat {
    LOG_HEADER_SIZE + index * ENTRY_SIZE
  }

  function IndexFromOffset(offset: nat): nat {
    if offset < LOG_HEADER_SIZE then 0
    else ((offset - LOG_HEADER_SIZE) / ENTRY_SIZE) % U32_LIMIT
  }

  /** What a section end becomes in the 16-bit `len` field of a log entry. */
  function StoredLength(end: nat): (len: nat)
    ensures len < 65536
  {
    end % 65536
  }

  predicate HasSpace(len: nat, size: nat) {
    len + size <= SECTION_SIZE
  }

  predicate Overlap(a: nat, b: nat, size: nat) {
    a < b + size && b < a + size
  }

  /** Every byte of entry `index` maps back to `index`, and only those do. */
  lemma EntryOfOffset(index: nat, offset: nat)
    requires index < U32_LIMIT
    requires LOG_HEADER_SIZE <= offset < LogOffset(U32_LIMIT)
    ensures IndexFromOffset(offset) == index
            <==> LogOffset(index) <= offset < LogOffset(index) + ENTRY_SIZE
  {
    assert (offset - LOG_HEADER_SIZE) / ENTRY_SIZE < U32_LIMIT;
  }

  /** Sections share file bytes exactly when their indices agree modulo 65536;
      below 65536 sections the offset is the mathematical one. */
  lemma SectionsShareBytes(i: nat, j: nat)
    requires i < U32_LIMIT && j < U32_LIMIT
    ensures Overlap(ConnectionOffset(i), ConnectionOffset(j), SECTION_SIZE)
            <==> i % MAX_SECTIONS == j % MAX_SECTIONS
    ensures ConnectionOffset(i) == DB_HEADER_SIZE + i * SECTION_SIZE <==> i < MAX_SECTIONS
  {
    OffsetModulo(i);
    OffsetModulo(j);
  }

  lemma OffsetModulo(i: nat)
    ensures ConnectionOffset(i) == DB_HEADER_SIZE + (i % MAX_SECTIONS) * SECTION_SIZE
  {
    var q, r := i / MAX_SECTIONS, i % MAX_SECTIONS;
    assert i == q * MAX_SECTIONS + r;
    assert i * SECTION_SIZE == q * U32_LIMIT + r * SECTION_SIZE;
    assert (q * U32_LIMIT + r * SECTION_SIZE) % U32_LIMIT == r * SECTION_SIZE by {
      ModuloOfSum(q, r * SECTION_SIZE);
    }
  }

  lemma ModuloOfSum(q: nat, r: nat)
    ensures (q * U32_LIMIT + r) % U32_LIMIT == r % U32_LIMIT
  {
  }

  /** The 16-bit length is exact for every end but the full section. */
  lemma StoredLengthExact(end: nat)
    requires end <= SECTION_SIZE
    ensures StoredLength(end) == end <==> end != SECTION_SIZE
    ensures end == SECTION_SIZE ==> StoredLength(end) == 0
  {
  }
}
