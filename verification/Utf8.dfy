/** Byte lengths of strings in UTF-8 (section 3 of RFC 3629) and slicing by byte offset. */
module Utf8 {
  import opened Wrappers

  const MAX_USIZE: int := 0xFFFF_FFFF_FFFF_FFFF

  function LenUtf8(c: char): (n: nat)
    ensures 1 <= n <= 4
  {
    if c as int < 0x80 then 1 else if c as int < 0x800 then 2 else if c as int < 0x1_0000 then 3 else 4
  }

  function PowerOf2(bits: nat): nat {
    if bits == 0 then 1 else 2 * PowerOf2(bits - 1)
  }

  /** How many bits of a code point `n` bytes carry: seven in one byte, else six behind each marker and the rest in front. */
  function PayloadBits(n: nat): nat
    requires 1 <= n <= 4
  {
    if n == 1 then 7 else (7 - n) + 6 * (n - 1)
  }

  /** A character takes the fewest bytes that carry its code point. */
  lemma {:induction false} FewestBytes(c: char)
    ensures var n := LenUtf8(c); c as int < PowerOf2(PayloadBits(n)) && (n > 1 ==> c as int >= PowerOf2(PayloadBits(n - 1)))
  {
    assert PowerOf2(7) == 0x80 && PowerOf2(11) == 0x800 && PowerOf2(16) == 0x1_0000 && PowerOf2(21) == 0x20_0000;
  }

  /** `str::len`. */
  function ByteLen(s: string): nat {
    if s == "" then 0 else ByteLen(s[..|s| - 1]) + LenUtf8(s[|s| - 1])
  }

  /** `&s[..n]`: the prefix of exactly `n` bytes. `None` where Rust panics, off a character boundary. */
  function SliceTo(s: string, n: nat): Option<string> {
    if ByteLen(s) == n then Some(s)
    else if s == "" then None
    else SliceTo(s[..|s| - 1], n)
  }

  lemma {:induction false} ByteLenBounds(s: string)
    ensures |s| <= ByteLen(s) <= 4 * |s|
  {
    if s != "" { ByteLenBounds(s[..|s| - 1]); }
  }

  lemma {:induction false} ByteLenGrows(s: string, k: nat)
    requires k <= |s|
    ensures ByteLen(s[..k]) + (|s| - k) <= ByteLen(s)
  {
    if k < |s| {
      ByteLenGrows(s[..|s| - 1], k);
      assert s[..|s| - 1][..k] == s[..k];
    } else {
      assert s[..k] == s;
    }
  }

  /** Cutting at the byte offset of character `k` gives exactly the first `k` characters. */
  lemma {:induction false} SliceAtChar(s: string, k: nat)
    requires k <= |s|
    ensures SliceTo(s, ByteLen(s[..k])) == Some(s[..k])
  {
    ByteLenGrows(s, k);
    if k < |s| {
      SliceAtChar(s[..|s| - 1], k);
      assert s[..|s| - 1][..k] == s[..k];
    } else {
      assert s[..k] == s;
    }
  }
}
