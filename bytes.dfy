/** Bytes, byte strings and little-endian integer fields, plus the
    Option/Result wrappers the rest of the model uses. */
module Bytes {

  newtype Byte = x: int | 0 <= x < 256

  /** A Rust `str` seen as its UTF-8 bytes; `len()` is the byte length. */
  type Text = seq<Byte>

  datatype Option<+T> = None | Some(value: T)

  datatype Result<+T, +E> = Ok(value: T) | Err(error: E)

  const TWO16: nat := 0x1_0000
  const TWO64: nat := 0x1_0000_0000_0000_0000

  /** The u64 bit pattern of a value (a count, or the bits of an f64). */
  type U64 = x: nat | x < TWO64

  /** 256 to the power k: the number of values k little-endian bytes can hold. */
  function Pow256(k: nat): (p: nat)
    ensures p > 0
  {
    if k == 0 then 1 else 256 * Pow256(k - 1)
  }

  /** The low k bytes of n, least significant first (`to_le_bytes`). */
  function Le(n: nat, k: nat): (r: seq<Byte>)
    ensures |r| == k
  {
    if k == 0 then [] else [(n % 256) as Byte] + Le(n / 256, k - 1)
  }

  /** The unsigned value of little-endian bytes (`from_le_bytes`). */
  function FromLe(s: seq<Byte>): nat
  {
    if s == [] then 0 else s[0] as nat + 256 * FromLe(s[1..])
  }

  /** k little-endian bytes hold a value below 256 to the power k. */
  lemma {:induction false} FromLeBound(s: seq<Byte>)
    ensures FromLe(s) < Pow256(|s|)
  {
    if s != [] {
      FromLeBound(s[1..]);
    }
  }

  /** Reading back k little-endian bytes of a value that fits gives the value. */
  lemma {:induction false} FromLeLe(n: nat, k: nat)
    requires n < Pow256(k)
    ensures FromLe(Le(n, k)) == n
  {
    if k > 0 {
      var s := Le(n, k);
      assert s[0] as nat == n % 256;
      assert s[1..] == Le(n / 256, k - 1);
      FromLeLe(n / 256, k - 1);
    }
  }

  /** `as u16`: keeps the low 16 bits. */
  function U16Cast(n: nat): (r: nat)
    ensures r < TWO16
    ensures n < TWO16 ==> r == n
  {
    n % TWO16
  }

  /** `as u64` from a usize: keeps the low 64 bits. */
  function U64Cast(n: nat): (r: U64)
    ensures n < TWO64 ==> r == n
  {
    n % TWO64
  }

  lemma FieldWidths()
    ensures Pow256(2) == TWO16
    ensures Pow256(8) == TWO64
  {
    assert Pow256(2) == 256 * 256;
  }
}
