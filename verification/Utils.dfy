/** `src/utils.c`: the hash and the hexadecimal digits. */
module Utils {
  datatype Option<T> = None | Some(value: T)

  const SIZE_MOD: nat := 0x1_0000_0000_0000_0000

  /** A `char` converted to `size_t`: sign-extended from 8 bits. */
  function CharToSize(c: char): nat {
    var byte := c as int % 256;
    if byte < 128 then byte else SIZE_MOD - 256 + byte
  }

  function Djb2(s: string): nat {
    if s == "" then 5381 else (33 * Djb2(s[..|s| - 1]) + CharToSize(s[|s| - 1])) % SIZE_MOD
  }

  /** The hash of short keys: 33 times and add, from 5381; characters above 127 are negative. */
  lemma Djb2Examples()
    ensures Djb2("") == 5381 && Djb2("a") == 177670 && Djb2("ab") == 5863208
    ensures Djb2([200 as char]) == 33 * 5381 - 56
  {
    assert "ab"[..1] == "a" && "a"[..0] == "";
    assert Djb2("a") == 33 * 5381 + 97;
    assert CharToSize(200 as char) == SIZE_MOD - 56;
  }

  lemma Wrap(h: nat, c: nat)
    ensures (h * 32 % SIZE_MOD + h + c) % SIZE_MOD == (33 * h + c) % SIZE_MOD
  {
    var q := h * 32 / SIZE_MOD;
    assert h * 32 % SIZE_MOD + h + c == 33 * h + c - q * SIZE_MOD;
  }

  /** The loop keeps the running hash in a 64-bit word that wraps around at every step. */
  method ComputeDjb2(s: string) returns (hash: nat)
    ensures hash == Djb2(s)
  {
    hash := 5381;
    for i := 0 to |s|
      invariant hash == Djb2(s[..i])
    {
      assert s[..i + 1][..i] == s[..i];
      Wrap(hash, CharToSize(s[i]));
      hash := (hash * 32 % SIZE_MOD + hash + CharToSize(s[i])) % SIZE_MOD;
    }
    assert s[..|s|] == s;
  }

  const HEX_DIGITS: string := "0123456789ABCDEF"

  /** `get_hex`. */
  function HexDigit(d: nat): char
    requires d < 16
  {
    HEX_DIGITS[d]
  }

  /** `from_hex`, a table indexed by `hex - 48` that has 0 at the characters between '9' and 'A'.
      Outside the table the program reads past it. */
  function DigitValue(h: char): (d: nat)
    ensures d < 16
  {
    if '0' <= h <= '9' then h as nat - '0' as nat
    else if 'A' <= h <= 'F' then h as nat - 'A' as nat + 10
    else 0
  }

  lemma DigitRoundTrip(d: nat)
    requires d < 16
    ensures DigitValue(HexDigit(d)) == d
  {
  }
}
