// Bytes, little-endian integers and the few sequence operations that the file
// formats of LogDB are written with.
module Bytes {

  type byte = x: int | 0 <= x < 256

  datatype Option<+T> = None | Some(value: T)

  /** `n` zero bytes: what a file system returns for a hole. */
  function Zeros(n: nat): (s: seq<byte>)
    ensures |s| == n
    ensures forall i :: 0 <= i < n ==> s[i] == 0
  {
    seq(n, _ => 0)
  }

  function U16(n: nat): (s: seq<byte>)
    requires n < 0x1_0000
    ensures |s| == 2
  {
    [n % 256, n / 256]
  }

  function FromU16(s: seq<byte>): (n: nat)
    requires |s| == 2
    ensures n < 0x1_0000
  {
    s[0] as int + 256 * (s[1] as int)
  }

  function U32(n: nat): (s: seq<byte>)
    requires n < 0x1_0000_0000
    ensures |s| == 4
  {
    U16(n % 0x1_0000) + U16(n / 0x1_0000)
  }

  function FromU32(s: seq<byte>): (n: nat)
    requires |s| == 4
    ensures n < 0x1_0000_0000
  {
    FromU16(s[..2]) + 0x1_0000 * FromU16(s[2..])
  }

  lemma U16RoundTrip(n: nat)
    requires n < 0x1_0000
    ensures FromU16(U16(n)) == n
  {
  }

  lemma U32RoundTrip(n: nat)
    requires n < 0x1_0000_0000
    ensures FromU32(U32(n)) == n
  {
    U16RoundTrip(n % 0x1_0000);
    U16RoundTrip(n / 0x1_0000);
    assert U32(n)[..2] == U16(n % 0x1_0000);
    assert U32(n)[2..] == U16(n / 0x1_0000);
  }

  /** Concatenation of a sequence of sequences. */
  function Flatten<T>(ss: seq<seq<T>>): seq<T> {
    if ss == [] then [] else ss[0] + Flatten(ss[1..])
  }

  lemma {:induction false} FlattenConcat<T>(a: seq<seq<T>>, b: seq<seq<T>>)
    ensures Flatten(a + b) == Flatten(a) + Flatten(b)
  {
    if a == [] {
      assert a + b == b;
    } else {
      FlattenConcat(a[1..], b);
      assert (a + b)[1..] == a[1..] + b;
      assert Flatten(a + b) == a[0] + Flatten((a + b)[1..]);
    }
  }

  lemma FlattenAppend<T>(a: seq<seq<T>>, x: seq<T>)
    ensures Flatten(a + [x]) == Flatten(a) + x
  {
    FlattenConcat(a, [x]);
    assert Flatten([x]) == x + Flatten([]);
  }

  lemma FlattenPrefix<T>(a: seq<seq<T>>, b: seq<seq<T>>)
    requires a <= b
    ensures Flatten(a) <= Flatten(b)
  {
    FlattenConcat(a, b[|a|..]);
    assert b == a + b[|a|..];
  }

  /** `pwrite` of `data` at `at`: writing past the end leaves a hole of zeros. */
  function Overwrite(s: seq<byte>, at: nat, data: seq<byte>): (r: seq<byte>)
    ensures |r| == if data == [] then |s| else if at + |data| > |s| then at + |data| else |s|
    ensures data != [] ==> r[at..at + |data|] == data
    ensures forall i :: 0 <= i < |s| && (i < at || at + |data| <= i) ==> r[i] == s[i]
    ensures data != [] ==> forall i :: |s| <= i < at ==> r[i] == 0
  {
    if data == [] then s else
    var t := if |s| < at + |data| then s + Zeros(at + |data| - |s|) else s;
    t[..at] + data + t[at + |data|..]
  }
}
