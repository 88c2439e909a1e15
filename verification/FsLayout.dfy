/** Blocks of the file system and how the inode layer reads them: as bytes, as a bitmap and as the block
    numbers of an indirect block (kernel/fs.h, kernel/fs.c). */
module FsLayout {
  const BSIZE: nat := 1024
  const BPB: nat := 8192               // bitmap bits per block
  const NDIRECT: nat := 12
  const NINDIRECT: nat := 256          // BSIZE / sizeof(uint)
  const MAXFILE: nat := 268            // NDIRECT + NINDIRECT
  const IPB: nat := 16                 // inodes per block
  const U32: nat := 0x1_0000_0000

  type Byte = x: int | 0 <= x < 256
  type Block = b: seq<Byte> | |b| == BSIZE witness seq(BSIZE, _ => 0)

  function Zeros(): Block { seq(BSIZE, _ => 0) }

  // ---------------------------------------------------------------- an indirect block

  /** The j-th uint of a block, low byte first. */
  function Word(b: Block, j: nat): (w: nat)
    requires j < NINDIRECT
    ensures w < U32
  {
    (b[4 * j] as nat) + 0x100 * (b[4 * j + 1] as nat) + 0x1_0000 * (b[4 * j + 2] as nat) + 0x100_0000 * (b[4 * j + 3] as nat)
  }

  function SetWord(b: Block, j: nat, w: nat): (b': Block)
    requires j < NINDIRECT && w < U32
  {
    b[4 * j := w % 0x100][4 * j + 1 := w / 0x100 % 0x100][4 * j + 2 := w / 0x1_0000 % 0x100][4 * j + 3 := w / 0x100_0000]
  }

  /** Storing a block number changes that entry and no other. */
  lemma WordSet(b: Block, j: nat, w: nat, i: nat)
    requires j < NINDIRECT && w < U32 && i < NINDIRECT
    ensures Word(SetWord(b, j, w), i) == if i == j then w else Word(b, i)
  {
    var b' := SetWord(b, j, w);
    if i == j {
      Digits(w);
    } else {
      assert b'[4 * i] == b[4 * i] && b'[4 * i + 1] == b[4 * i + 1] && b'[4 * i + 2] == b[4 * i + 2]
             && b'[4 * i + 3] == b[4 * i + 3];
    }
  }

  lemma Digits(w: nat)
    requires w < U32
    ensures w == w % 0x100 + 0x100 * (w / 0x100 % 0x100) + 0x1_0000 * (w / 0x1_0000 % 0x100) + 0x100_0000 * (w / 0x100_0000)
  {
  }

  lemma ZeroWord(j: nat)
    requires j < NINDIRECT
    ensures Word(Zeros(), j) == 0
  {
  }

  // ---------------------------------------------------------------- a bitmap block

  /** x & (1 << k), for x of any width. */
  predicate Has(x: nat, k: nat) {
    if k == 0 then x % 2 == 1 else Has(x / 2, k - 1)
  }

  /** x | (1 << k). */
  function Or(x: nat, k: nat): (y: nat) {
    if k == 0 then x / 2 * 2 + 1 else Or(x / 2, k - 1) * 2 + x % 2
  }

  /** x & ~(1 << k). */
  function AndNot(x: nat, k: nat): (y: nat)
    ensures y <= x
  {
    if k == 0 then x / 2 * 2 else AndNot(x / 2, k - 1) * 2 + x % 2
  }

  lemma {:induction false} HasOr(x: nat, k: nat, l: nat)
    ensures Has(Or(x, k), l) <==> l == k || Has(x, l)
    ensures Has(AndNot(x, k), l) <==> l != k && Has(x, l)
  {
    if k > 0 && l > 0 { HasOr(x / 2, k - 1, l - 1); }
  }

  function Pow2(n: nat): (p: nat)
    ensures p > 0
  {
    if n == 0 then 1 else 2 * Pow2(n - 1)
  }

  /** Setting bit k of an n-bit number leaves an n-bit number. */
  lemma {:induction false} OrFits(x: nat, k: nat, n: nat)
    requires k < n && x < Pow2(n)
    ensures Or(x, k) < Pow2(n)
  {
    if k > 0 { OrFits(x / 2, k - 1, n - 1); }
  }

  lemma ByteOr(x: Byte, k: nat)
    requires k < 8
    ensures Or(x, k) < 256 && AndNot(x, k) < 256
  {
    assert Pow2(8) == 256;
    OrFits(x, k, 8);
  }

  predicate Bit(b: Block, i: nat)
    requires i < BPB
  {
    Has(b[i / 8], i % 8)
  }

  function SetBit(b: Block, i: nat): (b': Block)
    requires i < BPB
  {
    ByteOr(b[i / 8], i % 8);
    b[i / 8 := Or(b[i / 8], i % 8)]
  }

  function ClearBit(b: Block, i: nat): (b': Block)
    requires i < BPB
  {
    ByteOr(b[i / 8], i % 8);
    b[i / 8 := AndNot(b[i / 8], i % 8)]
  }

  /** Marking a block sets its bit and no other; freeing it clears that bit and no other. */
  lemma BitSet(b: Block, i: nat, j: nat)
    requires i < BPB && j < BPB
    ensures Bit(SetBit(b, i), j) <==> j == i || Bit(b, j)
    ensures Bit(ClearBit(b, i), j) <==> j != i && Bit(b, j)
  {
    HasOr(b[i / 8], i % 8, j % 8);
    SamePlace(i, j);
  }

  lemma SamePlace(i: nat, j: nat)
    ensures i == j <==> i / 8 == j / 8 && i % 8 == j % 8
  {
  }
}
