/** A small device that meets every assumption of the update theorems, with the shipped names: seven
    blocks, two entries, one backup pair. */
module GptExample {
  import opened Bytes
  import opened GptHeader
  import opened BootChain
  import opened GptDisk
  import opened GptUpdate

  const BLOCK := 128

  function Zero(b: seq<byte>): uint32 {
    0
  }

  /** The names are the shipped ones, on UFS or not. */
  function ExampleLayout(ufs: bool): Layout {
    Layout(BLOCK, 7 * BLOCK, 2, 2, 4, 2 * BLOCK, 4 * BLOCK, Zero, Visited(PTN_SWAP_LIST, ufs))
  }

  /** A header of 92 bytes for two entries of 128 bytes at the given block. */
  function HeaderBlock(lba: byte): (h: seq<byte>)
    ensures |h| == BLOCK
  {
    seq(BLOCK, k requires 0 <= k < BLOCK =>
      if k < |GPT_SIGNATURE| then GPT_SIGNATURE[k]
      else if k == HEADER_SIZE_OFFSET then 92
      else if k == PENTRIES_OFFSET then lba
      else if k == PARTITION_COUNT_OFFSET then 2
      else if k == PENTRY_SIZE_OFFSET then 128
      else 0)
  }

  /** An entry named tz, or tzbak. */
  function NamedEntry(backup: bool): (e: Entry) {
    seq(BLOCK, k requires 0 <= k < BLOCK =>
      if k == PARTITION_NAME_OFFSET then 0x74
      else if k == PARTITION_NAME_OFFSET + 2 then 0x7A
      else if backup && k == PARTITION_NAME_OFFSET + 4 then 0x62
      else if backup && k == PARTITION_NAME_OFFSET + 6 then 0x61
      else if backup && k == PARTITION_NAME_OFFSET + 8 then 0x6B
      else 0)
  }

  function EntryArray(): (a: seq<byte>)
    ensures |a| == 2 * BLOCK
  {
    NamedEntry(false) + NamedEntry(true)
  }

  function ExampleDisk(): (d: seq<byte>)
    ensures |d| == 7 * BLOCK
  {
    seq(BLOCK, _ => 0) + HeaderBlock(2) + EntryArray() + EntryArray() + HeaderBlock(4)
  }

  lemma HeaderFields(lba: byte)
    ensures var h := HeaderBlock(lba);
      && Get4(h, HEADER_SIZE_OFFSET) == 92 && Get8(h, PENTRIES_OFFSET) == lba
      && Get4(h, PARTITION_COUNT_OFFSET) == 2 && Get4(h, PENTRY_SIZE_OFFSET) == 128
      && Get4(h, HEADER_CRC_OFFSET) == 0 && Get4(h, PARTITION_CRC_OFFSET) == 0
      && Signed(h)
  {
  }

  lemma DiskRegions()
    ensures var d := ExampleDisk();
      && d[BLOCK..2 * BLOCK] == HeaderBlock(2) && d[6 * BLOCK..7 * BLOCK] == HeaderBlock(4)
      && d[2 * BLOCK..4 * BLOCK] == EntryArray() && d[4 * BLOCK..6 * BLOCK] == EntryArray()
  {
    hide HeaderBlock, EntryArray;
  }

  lemma NamesPair(ufs: bool)
    ensures WholeEntries(EntryArray()) && Separate(Visited(PTN_SWAP_LIST, ufs))
    ensures HasBackup(EntryArray(), Visited(PTN_SWAP_LIST, ufs))
  {
    hide EntryArray, PTN_SWAP_LIST, Visited, ListedPair, Separate, AnyTwins;
    SwapListSeparate();
    TzListed(Entries(EntryArray()), ufs);
    TwinsAreListed(Entries(EntryArray()), PTN_SWAP_LIST, ufs);
  }

  lemma TzListed(es: seq<Entry>, ufs: bool)
    requires es == Entries(EntryArray()) && Separate(PTN_SWAP_LIST)
    ensures ListedPair(es, PTN_SWAP_LIST, ufs)
  {
    assert PTN_SWAP_LIST[3] == "tz";
    hide PTN_SWAP_LIST, FirstTwo, Entries, EntryArray, Separate;
    TzPair(es);
    assert PairAt(es, PTN_SWAP_LIST, ufs, 3, 0, 1);
  }

  lemma TzPair(es: seq<Entry>)
    requires es == Entries(EntryArray())
    ensures ShortName("tz") && FirstTwo(es, "tz", 0, 1)
  {
    assert es[0] == NamedEntry(false) && es[1] == NamedEntry(true);
    assert Holds(es[0], 0, "tz");
    assert Holds(es[1], 0, "tz" + BAK_PTN_NAME_EXT);
  }

  lemma LayoutIsWellFormed(ufs: bool)
    ensures ExampleLayout(ufs).Wf()
  {
    hide Visited, PTN_SWAP_LIST, Separate;
    BlockOffsetIsProduct(2, BLOCK);
    BlockOffsetIsProduct(4, BLOCK);
    SwapListSeparate();
    VisitedSeparate(PTN_SWAP_LIST, ufs);
  }

  lemma HeaderDescribes(lba: byte, c: Copy, ufs: bool)
    requires lba == if c == Primary then 2 else 4
    ensures var h := HeaderBlock(lba);
      ExampleLayout(ufs).Describes(h, c) && StateOf(Zero, h) == Ok && Get4(h, PARTITION_CRC_OFFSET) == 0
  {
    HeaderFields(lba);
    hide HeaderBlock, Get4, Get8, Signed, Visited, PTN_SWAP_LIST;
  }

  lemma ExampleFits(ufs: bool)
    ensures var g, d := ExampleLayout(ufs), ExampleDisk();
      && g.Fits(d) && g.Header(d, Primary) == HeaderBlock(2) && g.Header(d, Secondary) == HeaderBlock(4)
      && g.Array(d, Primary) == EntryArray() && g.Array(d, Secondary) == EntryArray()
  {
    DiskRegions();
    LayoutIsWellFormed(ufs);
    HeaderDescribes(2, Primary, ufs);
    HeaderDescribes(4, Secondary, ufs);
    hide ExampleDisk, HeaderBlock, EntryArray, Layout.Wf, Layout.Describes, StateOf, Get4, Visited, PTN_SWAP_LIST;
  }

  lemma ExampleIntact(ufs: bool)
    ensures Intact(ExampleLayout(ufs), ExampleDisk())
  {
    hide ExampleDisk, HeaderBlock, EntryArray, Get4, StateOf, Layout.Fits, Layout.Header, Layout.Array,
        Layout.Describes, Visited, PTN_SWAP_LIST;
    ExampleFits(ufs);
    HeaderDescribes(2, Primary, ufs);
    HeaderDescribes(4, Secondary, ufs);
  }

  lemma ExamplePair(ufs: bool)
    ensures ExampleLayout(ufs).Fits(ExampleDisk()) && HasPair(ExampleLayout(ufs), ExampleDisk())
  {
    hide ExampleDisk, HeaderBlock, EntryArray, HasBackup, StateOf, Layout.Fits, Layout.Header, Layout.Array,
        Layout.Describes, Visited, PTN_SWAP_LIST;
    ExampleFits(ufs);
    NamesPair(ufs);
  }

  /** The assumptions of CrashSafety, CrashResumption and FullCycle can be met together, with the names that an
      update visits on a UFS device and elsewhere. */
  lemma IntactDiskExists(ufs: bool)
    ensures var g, d := ExampleLayout(ufs), ExampleDisk();
      g.names == Visited(PTN_SWAP_LIST, ufs) && g.Fits(d) && Intact(g, d) && HasPair(g, d)
  {
    hide ExampleDisk, Intact, HasPair, Layout.Fits, Visited, PTN_SWAP_LIST;
    ExampleIntact(ufs);
    ExamplePair(ufs);
  }
}
