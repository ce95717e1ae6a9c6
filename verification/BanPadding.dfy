/** A ban list's plaintext, padded before it is sealed so that the length of what is sealed gives
    away only a bucket. */
module BanPadding {
  import opened Common

  newtype byte = n: int | 0 <= n < 256

  const MAX_SEALED_BAN_LIST_BYTES: nat := 24 * 1024
  const SEALED_OVERHEAD: nat := 1 + 24 + 16
  const MARKER: byte := 0x80

  const BUCKETS: seq<nat> := [1024, 4096, 12 * 1024, MAX_SEALED_BAN_LIST_BYTES - SEALED_OVERHEAD]

  /** The least bucket with room for `n` bytes and the marker. */
  predicate IsBucketFor(bucket: nat, n: nat) {
    bucket in BUCKETS && n < bucket && forall b :: b in BUCKETS && n < b ==> bucket <= b
  }

  predicate Fits(n: nat) {
    n < MAX_SEALED_BAN_LIST_BYTES - SEALED_OVERHEAD
  }

  function Zeros(n: nat): (z: seq<byte>)
    ensures |z| == n && forall k :: 0 <= k < n ==> z[k] == 0
  {
    seq(n, _ => 0 as byte)
  }

  predicate IsPadded(padded: seq<byte>, plain: seq<byte>, bucket: nat) {
    |plain| < bucket && padded == plain + [MARKER] + Zeros(bucket - |plain| - 1)
  }

  method PadBanList(plain: seq<byte>) returns (padded: Option<seq<byte>>)
    ensures padded.Some? <==> Fits(|plain|)
    ensures padded.Some? ==> IsBucketFor(|padded.value|, |plain|) && IsPadded(padded.value, plain, |padded.value|)
  {
    var i := 0;
    while i < |BUCKETS| && |plain| >= BUCKETS[i]
      invariant 0 <= i <= |BUCKETS|
      invariant forall k :: 0 <= k < i ==> |plain| >= BUCKETS[k]
      decreases |BUCKETS| - i
    {
      i := i + 1;
    }
    if i == |BUCKETS| {
      assert |plain| >= BUCKETS[3];
      return None;
    }
    var bucket := BUCKETS[i];
    var buffer := plain + [MARKER];
    while |buffer| < bucket
      invariant |plain| < |buffer| <= bucket
      invariant IsPadded(buffer, plain, |buffer|)
      decreases bucket - |buffer|
    {
      buffer := buffer + [0];
    }
    padded := Some(buffer);
  }

  /** The last byte that is not zero: none when all are. */
  function LastNonZero(bytes: seq<byte>): (at: Option<nat>)
    ensures at.Some? ==> at.value < |bytes| && bytes[at.value] != 0
    ensures at.Some? ==> forall k :: at.value < k < |bytes| ==> bytes[k] == 0
    ensures at.None? ==> forall k :: 0 <= k < |bytes| ==> bytes[k] == 0
  {
    if bytes == [] then None
    else if bytes[|bytes| - 1] != 0 then Some(|bytes| - 1)
    else LastNonZero(bytes[..|bytes| - 1])
  }

  /** The plaintext of a padded one. */
  function ReadBanList(padded: seq<byte>): Option<seq<byte>> {
    if |padded| !in BUCKETS then None
    else
      var end := LastNonZero(padded);
      if end.Some? && padded[end.value] == MARKER then Some(padded[..end.value]) else None
  }

  /** What reads back is exactly what is some plaintext, a marker and zeros, to a bucket; and it reads
      back as that plaintext and no other. */
  lemma {:induction false} ReadsExactly(padded: seq<byte>, plain: seq<byte>)
    ensures ReadBanList(padded) == Some(plain) <==> |padded| in BUCKETS && IsPadded(padded, plain, |padded|)
  {
    if IsPadded(padded, plain, |padded|) {
      MarkerIsLast(padded, plain);
    }
    if ReadBanList(padded) == Some(plain) {
      var end := LastNonZero(padded).value;
      assert padded[end + 1..] == Zeros(|padded| - end - 1);
      assert padded == padded[..end] + [MARKER] + padded[end + 1..];
    }
  }

  lemma {:induction false} MarkerIsLast(padded: seq<byte>, plain: seq<byte>)
    requires IsPadded(padded, plain, |padded|)
    ensures LastNonZero(padded) == Some(|plain|) && padded[|plain|] == MARKER && padded[..|plain|] == plain
  {
    assert padded[|plain|] == MARKER;
    forall k | |plain| < k < |padded| ensures padded[k] == 0 {
      assert padded[k] == Zeros(|padded| - |plain| - 1)[k - |plain| - 1];
    }
    assert padded[..|plain|] == plain;
  }

  /** Reading undoes padding, of every plaintext that fits; so no two are padded alike. */
  lemma {:induction false} ReadUndoesPad(plain: seq<byte>, other: seq<byte>, padded: seq<byte>)
    requires IsBucketFor(|padded|, |plain|) && IsPadded(padded, plain, |padded|)
    ensures ReadBanList(padded) == Some(plain)
    ensures IsPadded(padded, other, |padded|) ==> other == plain
  {
    ReadsExactly(padded, plain);
    ReadsExactly(padded, other);
  }

  /** The length says which bucket the plaintext falls in, and nothing else of it: two plaintexts are
      padded to one length exactly when no bucket's bound lies between their lengths. */
  lemma {:induction false} LengthSaysOnlyTheBucket(m: nat, n: nat, a: nat, b: nat)
    requires m <= n && IsBucketFor(a, m) && IsBucketFor(b, n)
    ensures a == b <==> forall bound :: bound in BUCKETS ==> !(m < bound <= n)
  {
    assert a in BUCKETS && b in BUCKETS;
  }

  /** Padding does not undo reading: a plaintext in a larger bucket than it needs is read all the same. */
  lemma {:induction false} LargerBucketsReadToo() returns (padded: seq<byte>, plain: seq<byte>)
    ensures ReadBanList(padded) == Some(plain) && !IsBucketFor(|padded|, |plain|)
  {
    plain := [];
    padded := plain + [MARKER] + Zeros(4095);
    assert BUCKETS[0] in BUCKETS && BUCKETS[1] in BUCKETS;
    ReadsExactly(padded, plain);
  }
}
