/** Bytes, 32-bit cells and their layout in memory, little end first. */
module Words {

  type Byte = b: int | 0 <= b < 0x100
  type Cell = c: int | 0 <= c < 0x1_0000_0000

  function Wrap(x: int): Cell { x % 0x1_0000_0000 }

  /** The four bytes of a cell in memory. */
  function LE(c: Cell): (s: seq<Byte>)
    ensures |s| == 4
  {
    [c % 0x100, c / 0x100 % 0x100, c / 0x1_0000 % 0x100, c / 0x100_0000]
  }

  function FromLE(s: seq<Byte>): Cell
    requires |s| == 4
  {
    (s[0] as int) + 0x100 * (s[1] as int) + 0x1_0000 * (s[2] as int) + 0x100_0000 * (s[3] as int)
  }

  /** A cell stored is the cell read. */
  lemma LEBack(c: Cell)
    ensures FromLE(LE(c)) == c
  {
    assert c / 0x100 / 0x100 == c / 0x1_0000;
    assert c / 0x1_0000 / 0x100 == c / 0x100_0000;
  }

  function Pow2(n: nat): (r: nat)
    ensures r >= 1
  {
    if n == 0 then 1 else 2 * Pow2(n - 1)
  }
}
