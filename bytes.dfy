/**
 * Bytes of the container and the fixed-width unsigned fields read from them.
 *
 * The byte order and the position of each field are not fixed here: a field is
 * given by its offset and width inside its structure, and the byte order is a
 * parameter, so every result below holds for either order.
 */
module Bytes {

  newtype byte = b: int | 0 <= b < 256

  /** The values of the source's uint16_t parameters. */
  type u16 = n: nat | n < 0x1_0000

  datatype Endian = Big | Little

  /** An unsigned integer field: `width` bytes starting `offset` bytes into its structure. */
  datatype Field = Field(offset: nat, width: nat)

  /** The number of values a field of `n` bytes can hold. */
  function Pow256(n: nat): (r: nat)
    ensures r >= 1
  {
    if n == 0 then 1 else 256 * Pow256(n - 1)
  }

  /** Byte `i` of the buffer; only ever applied inside the buffer (FieldAt requires it). */
  function ByteAt(buf: seq<byte>, i: nat): nat {
    if i < |buf| then buf[i] as nat else 0
  }

  /**
   * The unsigned value of the `n` bytes at `lo` in byte order `e`: the least
   * significant byte (the last for Big, the first for Little) plus 256 times
   * the value of the other `n - 1` bytes.
   */
  function Unsigned(buf: seq<byte>, lo: nat, n: nat, e: Endian): nat
    decreases n
  {
    if n == 0 then 0
    else
      var low := if e == Big then lo + n - 1 else lo;
      var rest := if e == Big then lo else lo + 1;
      Unsigned(buf, rest, n - 1, e) * 256 + ByteAt(buf, low)
  }

  /** The value of field `f` of the structure that starts at `base`; the caller shows it lies in `buf`. */
  function FieldAt(buf: seq<byte>, base: nat, f: Field, e: Endian): nat
    requires base + f.offset + f.width <= |buf|
  {
    Unsigned(buf, base + f.offset, f.width, e)
  }

  /** `n` bytes hold a value below 256^n. */
  lemma {:induction false} UnsignedBound(buf: seq<byte>, lo: nat, n: nat, e: Endian)
    ensures Unsigned(buf, lo, n, e) < Pow256(n)
    decreases n
  {
    if n > 0 {
      UnsignedBound(buf, if e == Big then lo else lo + 1, n - 1, e);
    }
  }

  /** A field of `width` bytes holds a value below 256^width. */
  lemma FieldBound(buf: seq<byte>, base: nat, f: Field, e: Endian)
    requires base + f.offset + f.width <= |buf|
    ensures FieldAt(buf, base, f, e) < Pow256(f.width)
  {
    UnsignedBound(buf, base + f.offset, f.width, e);
  }

  /** Decoding reads only the bytes decoded: buffers that agree below `m` agree on every value below `m`. */
  lemma {:induction false} UnsignedFrame(b1: seq<byte>, b2: seq<byte>, m: nat, lo: nat, n: nat, e: Endian)
    requires m <= |b1| && m <= |b2| && b1[..m] == b2[..m] && lo + n <= m
    ensures Unsigned(b1, lo, n, e) == Unsigned(b2, lo, n, e)
    decreases n
  {
    if n > 0 {
      var low := if e == Big then lo + n - 1 else lo;
      assert ByteAt(b1, low) == ByteAt(b2, low) by {
        assert b1[low] == b1[..m][low] == b2[low];
      }
      UnsignedFrame(b1, b2, m, if e == Big then lo else lo + 1, n - 1, e);
    }
  }

  /** Decoding reads only the bytes decoded: buffers that agree on bytes `lo` to `lo + n` decode them alike. */
  lemma {:induction false} UnsignedOwnBytes(b1: seq<byte>, b2: seq<byte>, lo: nat, n: nat, e: Endian)
    requires lo + n <= |b1| && lo + n <= |b2|
    requires forall i :: lo <= i < lo + n ==> b1[i] == b2[i]
    ensures Unsigned(b1, lo, n, e) == Unsigned(b2, lo, n, e)
    decreases n
  {
    if n > 0 {
      UnsignedOwnBytes(b1, b2, if e == Big then lo else lo + 1, n - 1, e);
    }
  }

  /** A field reads only its own bytes: buffers that agree on the field's bytes give the same value. */
  lemma FieldAtOwnBytes(b1: seq<byte>, b2: seq<byte>, base: nat, f: Field, e: Endian)
    requires base + f.offset + f.width <= |b1| && base + f.offset + f.width <= |b2|
    requires forall i :: base + f.offset <= i < base + f.offset + f.width ==> b1[i] == b2[i]
    ensures FieldAt(b1, base, f, e) == FieldAt(b2, base, f, e)
  {
    UnsignedOwnBytes(b1, b2, base + f.offset, f.width, e);
  }

  /** Two buffers that agree on their first `n` bytes agree on every field that ends by `n`. */
  lemma FieldAtFrame(b1: seq<byte>, b2: seq<byte>, n: nat, base: nat, f: Field, e: Endian)
    requires n <= |b1| && n <= |b2| && b1[..n] == b2[..n]
    requires base + f.offset + f.width <= n
    ensures FieldAt(b1, base, f, e) == FieldAt(b2, base, f, e)
  {
    UnsignedFrame(b1, b2, n, base + f.offset, f.width, e);
  }

  /**
   * The bytes taken by `count` records of `size` bytes each (the source's
   * `sizeof(T) * count`), accumulated record by record.
   */
  function ArrayBytes(count: nat, size: nat): nat {
    if count == 0 then 0 else ArrayBytes(count - 1, size) + size
  }

  /** ArrayBytes is the product of the count and the record size. */
  lemma {:induction false} ArrayBytesIsProduct(count: nat, size: nat)
    ensures ArrayBytes(count, size) == count * size
  {
    if count > 0 {
      ArrayBytesIsProduct(count - 1, size);
    }
  }

  /** Pow256 grows with the width. */
  lemma {:induction false} Pow256Monotone(m: nat, n: nat)
    requires m <= n
    ensures Pow256(m) <= Pow256(n)
  {
    if m < n {
      Pow256Monotone(m, n - 1);
    }
  }

  /** Record k of an array of n records ends no later than the array does. */
  lemma {:induction false} ArrayIndexBound(k: nat, n: nat, size: nat)
    requires k < n
    ensures ArrayBytes(k, size) + size <= ArrayBytes(n, size)
  {
    if k + 1 < n {
      ArrayIndexBound(k, n - 1, size);
    }
  }

  /** Records of an array start in storage order. */
  lemma {:induction false} ArrayStartMonotone(j: nat, k: nat, size: nat)
    requires j <= k
    ensures ArrayBytes(j, size) <= ArrayBytes(k, size)
  {
    if j < k {
      ArrayStartMonotone(j, k - 1, size);
    }
  }
}
