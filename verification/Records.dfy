// Records as `logdb_put` writes them and the iterator reads them (logdb_data.h):
// two 32-bit lengths, the key, the value.
module Records {
  import opened Bytes
  import opened Layout

  const RECORD_HEADER_SIZE := 8

  datatype Record = Record(key: seq<byte>, value: seq<byte>)

  predicate Storable(r: Record) {
    |r.key| < U32_LIMIT && |r.value| < U32_LIMIT
  }

  function Header(keylen: nat, valuelen: nat): (h: seq<byte>)
    requires keylen < U32_LIMIT && valuelen < U32_LIMIT
    ensures |h| == RECORD_HEADER_SIZE
  {
    U32(keylen) + U32(valuelen)
  }

  function Encode(r: Record): seq<byte>
    requires Storable(r)
  {
    Header(|r.key|, |r.value|) + r.key + r.value
  }

  function EncodeAll(records: seq<Record>): seq<byte>
    requires forall r :: r in records ==> Storable(r)
  {
    if records == [] then [] else Encode(records[0]) + EncodeAll(records[1..])
  }

  // ------------------------------------------------------------- decoding

  function KeyLen(bytes: seq<byte>): nat
    requires |bytes| >= RECORD_HEADER_SIZE
  {
    FromU32(bytes[..4])
  }

  function ValueLen(bytes: seq<byte>): nat
    requires |bytes| >= RECORD_HEADER_SIZE
  {
    FromU32(bytes[4..8])
  }

  function Size(bytes: seq<byte>): (n: nat)
    requires |bytes| >= RECORD_HEADER_SIZE
    ensures n >= RECORD_HEADER_SIZE
  {
    RECORD_HEADER_SIZE + KeyLen(bytes) + ValueLen(bytes)
  }

  /** The bytes start with a whole record. */
  predicate Starts(bytes: seq<byte>) {
    |bytes| >= RECORD_HEADER_SIZE && Size(bytes) <= |bytes|
  }

  /** The bytes are a concatenation of whole records. */
  predicate Whole(bytes: seq<byte>)
    decreases |bytes|
  {
    bytes == [] || (Starts(bytes) && Whole(bytes[Size(bytes)..]))
  }

  function FirstRecord(bytes: seq<byte>): Record
    requires Starts(bytes)
  {
    var value := RECORD_HEADER_SIZE + KeyLen(bytes);
    Record(bytes[RECORD_HEADER_SIZE..value], bytes[value..Size(bytes)])
  }

  function RecordsOf(bytes: seq<byte>): seq<Record>
    requires Whole(bytes)
    decreases |bytes|
  {
    if bytes == [] then [] else [FirstRecord(bytes)] + RecordsOf(bytes[Size(bytes)..])
  }

  lemma EncodeStarts(r: Record, rest: seq<byte>)
    requires Storable(r)
    ensures Starts(Encode(r) + rest) && FirstRecord(Encode(r) + rest) == r
    ensures Size(Encode(r) + rest) == |Encode(r)| && (Encode(r) + rest)[|Encode(r)|..] == rest
  {
    var bytes := Encode(r) + rest;
    U32RoundTrip(|r.key|);
    U32RoundTrip(|r.value|);
    assert bytes[..4] == U32(|r.key|);
    assert bytes[4..8] == U32(|r.value|);
    assert bytes[8..8 + |r.key|] == r.key;
    assert bytes[8 + |r.key|..8 + |r.key| + |r.value|] == r.value;
  }

  lemma {:induction false} RecordsRoundTrip(records: seq<Record>)
    requires forall r :: r in records ==> Storable(r)
    ensures Whole(EncodeAll(records)) && RecordsOf(EncodeAll(records)) == records
  {
    if records != [] {
      EncodeStarts(records[0], EncodeAll(records[1..]));
      RecordsRoundTrip(records[1..]);
    }
  }

  lemma StartEncodes(bytes: seq<byte>)
    requires Starts(bytes)
    ensures Storable(FirstRecord(bytes)) && bytes == Encode(FirstRecord(bytes)) + bytes[Size(bytes)..]
  {
    U32Inverse(bytes[..4]);
    U32Inverse(bytes[4..8]);
    var r := FirstRecord(bytes);
    assert bytes[..8] == bytes[..4] + bytes[4..8] == Header(|r.key|, |r.value|);
    assert bytes == bytes[..8] + r.key + r.value + bytes[Size(bytes)..];
  }

  /** Nothing but the encoding of its records is a concatenation of records. */
  lemma {:induction false} WholeIsEncoding(bytes: seq<byte>)
    requires Whole(bytes)
    ensures (forall r :: r in RecordsOf(bytes) ==> Storable(r)) && EncodeAll(RecordsOf(bytes)) == bytes
    decreases |bytes|
  {
    hide Size, FirstRecord, Encode, Storable;
    if bytes != [] {
      StartEncodes(bytes);
      WholeIsEncoding(bytes[Size(bytes)..]);
      assert RecordsOf(bytes)[1..] == RecordsOf(bytes[Size(bytes)..]);
    }
  }

  lemma U32Inverse(s: seq<byte>)
    requires |s| == 4
    ensures U32(FromU32(s)) == s
  {
    var low, high := FromU16(s[..2]), FromU16(s[2..]);
    assert FromU32(s) % 0x1_0000 == low && FromU32(s) / 0x1_0000 == high;
    assert U16(low) == s[..2] && U16(high) == s[2..];
  }

  lemma StartKept(a: seq<byte>, b: seq<byte>)
    requires Starts(a)
    ensures Starts(a + b) && Size(a + b) == Size(a) && (a + b)[Size(a)..] == a[Size(a)..] + b
    ensures FirstRecord(a + b) == FirstRecord(a)
  {
    assert (a + b)[..4] == a[..4] && (a + b)[4..8] == a[4..8];
    assert (a + b)[..|a|] == a;
  }

  /** Appending records keeps the records before them. */
  lemma {:induction false} WholeConcat(a: seq<byte>, b: seq<byte>)
    requires Whole(a)
    ensures Whole(a + b) <==> Whole(b)
    ensures Whole(b) ==> RecordsOf(a + b) == RecordsOf(a) + RecordsOf(b)
    decreases |a|
  {
    hide Size, FirstRecord;
    if a == [] {
      assert a + b == b;
    } else {
      var rest := a[Size(a)..];
      StartKept(a, b);
      WholeConcat(rest, b);
      assert Whole(a + b) <==> Whole(rest + b);
      if Whole(b) {
        assert RecordsOf(a + b) == [FirstRecord(a)] + RecordsOf(rest + b);
        assert RecordsOf(a) + RecordsOf(b) == [FirstRecord(a)] + (RecordsOf(rest) + RecordsOf(b));
      }
    }
  }

  /** A section of transactions that are whole records is itself whole. */
  lemma {:induction false} WholeFlatten(txns: seq<seq<byte>>)
    requires forall txn :: txn in txns ==> Whole(txn)
    ensures Whole(Flatten(txns))
  {
    if txns != [] {
      WholeFlatten(txns[1..]);
      WholeConcat(txns[0], Flatten(txns[1..]));
    }
  }
}
