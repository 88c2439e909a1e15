/** The on-disk redo log: where it lives, how its header is encoded, and what a
    disk means once recovery has run over it (kernel/log.c, kernel/fs.h). */
module LogLayout {
  import opened Collections
  import opened Params

  const WORDS := 256        // BSIZE / sizeof(uint)

  /** A disk block, read as 256 words. */
  type Block = b: seq<int> | |b| == WORDS witness seq(WORDS, _ => 0)

  /** Block number to contents; a block write is atomic. */
  type Disk = map<nat, Block>

  /** log.start and log.size, as the super block gives them. */
  datatype Layout = Layout(start: nat, size: nat) {
    predicate InLog(b: nat) { start <= b < start + size }

    /** The log block that holds the copy of the header's i-th block. */
    function Slot(i: nat): nat { start + 1 + i }
  }

  /** The disk holds the whole log area. */
  predicate HasLog(L: Layout, disk: Disk) {
    L.size > 0 && forall b | L.start <= b < L.start + L.size :: b in disk
  }

  /** A list of block numbers that fits the header and the log area, and names home blocks only. */
  predicate Loggable(L: Layout, disk: Disk, lh: seq<nat>) {
    && |lh| <= LOGSIZE && |lh| <= L.size - 1
    && Distinct(lh)
    && forall i | 0 <= i < |lh| :: lh[i] in disk && !L.InLog(lh[i])
  }

  function HeaderCount(h: Block): int { h[0] }

  function HeaderBlocks(h: Block): (lh: seq<int>)
    requires 0 <= HeaderCount(h) <= LOGSIZE
  {
    h[1..1 + HeaderCount(h)]
  }

  /** The header block as write_head leaves it: the count and the first entries are
      overwritten, the rest of the buffer stays. */
  function EncodeHeader(buf: Block, lh: seq<nat>): (h: Block)
    requires |lh| <= LOGSIZE
    ensures HeaderCount(h) == |lh|
    ensures HeaderBlocks(h) == lh
  {
    [|lh|] + lh + buf[1 + |lh|..]
  }

  predicate HeaderIs(L: Layout, disk: Disk, lh: seq<nat>) {
    && L.start in disk
    && HeaderCount(disk[L.start]) == |lh| <= LOGSIZE
    && HeaderBlocks(disk[L.start]) == lh
  }

  /** A disk recovery can run on: the header is sane. */
  predicate Recoverable(L: Layout, disk: Disk) {
    && HasLog(L, disk)
    && 0 <= HeaderCount(disk[L.start]) <= LOGSIZE
    && (forall i | 0 <= i < HeaderCount(disk[L.start]) :: HeaderBlocks(disk[L.start])[i] >= 0)
    && Loggable(L, disk, HeaderBlocks(disk[L.start]))
  }

  function IndexOf<T(==)>(s: seq<T>, x: T): (i: nat)
    requires x in s
    ensures i < |s| && s[i] == x
    ensures Distinct(s) ==> forall j | 0 <= j < |s| && s[j] == x :: j == i
  {
    if s[0] == x then 0 else 1 + IndexOf(s[1..], x)
  }

  /** What home block b holds once recovery has finished. */
  function DurableAt(L: Layout, disk: Disk, b: nat): (v: Block)
    requires Recoverable(L, disk) && b in disk
  {
    var lh := HeaderBlocks(disk[L.start]);
    if b in lh then disk[L.Slot(IndexOf(lh, b))] else disk[b]
  }

  /** The home blocks of a disk as recovery would leave them. */
  function Durable(L: Layout, disk: Disk): (d: Disk)
    requires Recoverable(L, disk)
  {
    map b | b in disk && !L.InLog(b) :: DurableAt(L, disk, b)
  }

  /** The first k logged blocks are installed at home. */
  predicate Installed(L: Layout, disk: Disk, lh: seq<nat>, k: nat)
    requires k <= |lh| && HasLog(L, disk) && Loggable(L, disk, lh)
  {
    forall i: nat | i < k :: disk[lh[i]] == disk[L.Slot(i)]
  }

  // ---------------------------------------------------------------- what a block write does to a disk

  /** Under an empty header the home blocks are what they hold. */
  lemma EmptyHeaderIsHome(L: Layout, disk: Disk)
    requires Recoverable(L, disk) && HeaderIs(L, disk, [])
    ensures Durable(L, disk) == map b | b in disk && !L.InLog(b) :: disk[b]
  {
  }

  /** Under an empty header, writing a log block changes nothing durable. */
  lemma SlotWritten(L: Layout, disk: Disk, t: nat, v: Block)
    requires Recoverable(L, disk) && HeaderIs(L, disk, []) && t < L.size - 1
    ensures var disk' := disk[L.Slot(t) := v];
            && Recoverable(L, disk') && HeaderIs(L, disk', [])
            && Durable(L, disk') == Durable(L, disk)
  {
    var disk' := disk[L.Slot(t) := v];
    assert disk'[L.start] == disk[L.start];
    assert Recoverable(L, disk');
    EmptyHeaderIsHome(L, disk);
    EmptyHeaderIsHome(L, disk');
  }

  lemma HeaderWritten(L: Layout, disk: Disk, buf: Block, lh: seq<nat>)
    requires HasLog(L, disk) && Loggable(L, disk, lh)
    ensures var disk' := disk[L.start := EncodeHeader(buf, lh)];
            && Recoverable(L, disk') && HeaderIs(L, disk', lh) && Loggable(L, disk', lh)
            && forall i: nat | i < |lh| :: disk'[L.Slot(i)] == disk[L.Slot(i)]
  {
  }

  /** Once the header is on disk, the logged copies are what is durable. */
  lemma HeaderCommits(L: Layout, disk: Disk, buf: Block, lh: seq<nat>, b: nat)
    requires HasLog(L, disk) && Loggable(L, disk, lh) && b in disk && !L.InLog(b)
    ensures var disk' := disk[L.start := EncodeHeader(buf, lh)];
            && Recoverable(L, disk')
            && DurableAt(L, disk', b) == if b in lh then disk[L.Slot(IndexOf(lh, b))] else disk[b]
  {
    HeaderWritten(L, disk, buf, lh);
  }

  /** Installing log block t at home is invisible to recovery. */
  lemma InstallInvisible(L: Layout, disk: Disk, lh: seq<nat>, t: nat)
    requires Recoverable(L, disk) && HeaderIs(L, disk, lh) && t < |lh|
    ensures var disk' := disk[lh[t] := disk[L.Slot(t)]];
            && Recoverable(L, disk') && HeaderIs(L, disk', lh)
            && Durable(L, disk') == Durable(L, disk)
  {
    var disk' := disk[lh[t] := disk[L.Slot(t)]];
    assert disk'.Keys == disk.Keys;
    assert disk'[L.start] == disk[L.start];
    assert Loggable(L, disk', lh);
    assert Recoverable(L, disk');
    forall b | b in disk && !L.InLog(b)
      ensures DurableAt(L, disk', b) == DurableAt(L, disk, b)
    {
    }
  }

  lemma InstallExtends(L: Layout, disk: Disk, lh: seq<nat>, t: nat)
    requires HasLog(L, disk) && Loggable(L, disk, lh) && t < |lh| && Installed(L, disk, lh, t)
    ensures var disk' := disk[lh[t] := disk[L.Slot(t)]];
            && HasLog(L, disk') && Loggable(L, disk', lh) && Installed(L, disk', lh, t + 1)
            && forall i: nat | i < |lh| :: disk'[L.Slot(i)] == disk[L.Slot(i)]
  {
    assert forall i: nat | i < |lh| :: L.InLog(L.Slot(i));
  }

  /** With every block installed, erasing the header changes nothing durable. */
  lemma EraseInvisible(L: Layout, disk: Disk, buf: Block, lh: seq<nat>)
    requires Recoverable(L, disk) && HeaderIs(L, disk, lh) && Installed(L, disk, lh, |lh|)
    ensures var disk' := disk[L.start := EncodeHeader(buf, [])];
            && Recoverable(L, disk') && HeaderIs(L, disk', [])
            && Durable(L, disk') == Durable(L, disk)
            && Durable(L, disk') == map b | b in disk && !L.InLog(b) :: disk[b]
  {
    var disk' := disk[L.start := EncodeHeader(buf, [])];
    HeaderWritten(L, disk, buf, []);
    EmptyHeaderIsHome(L, disk');
    forall b | b in disk && !L.InLog(b)
      ensures DurableAt(L, disk, b) == disk[b]
    {
      if b in lh { assert disk[lh[IndexOf(lh, b)]] == disk[L.Slot(IndexOf(lh, b))]; }
    }
  }
}
