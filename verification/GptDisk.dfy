/** The block device that holds two copies of the partition table, and the update stages that rewrite them. */
module GptDisk {
  import opened Bytes
  import opened GptHeader
  import opened BootChain

  datatype Stage = UpdateMain | UpdateBackup | UpdateFinalize {
    function Number(): int {
      match this case UpdateMain => 1 case UpdateBackup => 2 case UpdateFinalize => 3
    }
  }

  datatype Copy = Primary | Secondary
  datatype Chain = NormalBoot | BackupBoot

  predicate Apart(o: int, n: int, o': int, n': int) {
    o + n <= o' || o' + n' <= o
  }

  /** The byte at which a block starts. */
  function BlockOffset(lba: nat, blk: nat): nat {
    if lba == 0 then 0 else BlockOffset(lba - 1, blk) + blk
  }

  lemma {:induction false} BlockOffsetIsProduct(lba: nat, blk: nat)
    ensures BlockOffset(lba, blk) == lba * blk
  {
    if lba != 0 {
      BlockOffsetIsProduct(lba - 1, blk);
    }
  }

  /** Where the four table regions lie (a header block next to each end, and two entry arrays),
      the checksum in use and the partition names an update exchanges. */
  datatype Layout = Layout(blk: nat, size: nat, count: nat, priLba: nat, secLba: nat, priEntries: nat, secEntries: nat,
                           crc: Crc, names: seq<string>) {
    function ArraySize(): nat {
      count * PTN_ENTRY_SIZE
    }

    function HeaderAt(c: Copy): nat {
      if c == Primary || size < blk then blk else size - blk
    }

    function EntriesAt(c: Copy): nat {
      if c == Primary then priEntries else secEntries
    }

    ghost predicate Wf() {
      && MIN_HEADER_SIZE <= blk < 0x1_0000_0000 && 3 * blk <= size < 0x8000_0000_0000_0000
      && ArraySize() < 0x1_0000_0000
      && priEntries == BlockOffset(priLba, blk) && secEntries == BlockOffset(secLba, blk)
      && Separate(names)
      && priEntries + ArraySize() <= size && secEntries + ArraySize() <= size
      && Apart(priEntries, ArraySize(), secEntries, ArraySize())
      && Apart(priEntries, ArraySize(), blk, blk) && Apart(priEntries, ArraySize(), size - blk, blk)
      && Apart(secEntries, ArraySize(), blk, blk) && Apart(secEntries, ArraySize(), size - blk, blk)
    }

    function Lba(c: Copy): nat {
      if c == Primary then priLba else secLba
    }

    /** A header block that describes this layout from the point of view of one copy. */
    ghost predicate Describes(h: seq<byte>, c: Copy) {
      && |h| == blk && Shaped(h)
      && Get8(h, PENTRIES_OFFSET) == Lba(c)
      && Get4(h, PARTITION_COUNT_OFFSET) == count
      && Get4(h, PENTRY_SIZE_OFFSET) == PTN_ENTRY_SIZE
    }

    function Header(d: seq<byte>, c: Copy): (h: seq<byte>)
      requires |d| == size && 2 * blk <= size
      ensures |h| == blk
    {
      d[HeaderAt(c)..HeaderAt(c) + blk]
    }

    function Array(d: seq<byte>, c: Copy): (e: seq<byte>)
      requires |d| == size && EntriesAt(c) + ArraySize() <= size
      ensures |e| == ArraySize() && WholeEntries(e)
    {
      d[EntriesAt(c)..EntriesAt(c) + ArraySize()]
    }

    ghost predicate Fits(d: seq<byte>) {
      && Wf() && |d| == size
      && Describes(Header(d, Primary), Primary) && Describes(Header(d, Secondary), Secondary)
    }
  }

  // ---------- writes, and how a crash cuts them ----------

  datatype Write = Write(at: nat, data: seq<byte>)

  /** What is left of a call: the medium, the writes still allowed before the cut, and the result code. */
  datatype Outcome = Outcome(disk: seq<byte>, budget: nat, result: int)

  predicate InBounds(ws: seq<Write>, size: nat) {
    forall i :: 0 <= i < |ws| ==> ws[i].at + |ws[i].data| <= size
  }

  /** A write that is cut: a single block is written whole or not at all, a longer region may hold anything. */
  function Tear(d: seq<byte>, blk: nat, w: Write, torn: nat -> byte): (r: seq<byte>)
    requires w.at + |w.data| <= |d|
    ensures |r| == |d|
  {
    if |w.data| <= blk then d else Patch(d, w.at, seq(|w.data|, i requires 0 <= i => torn(w.at + i)))
  }

  function Apply(d: seq<byte>, ws: seq<Write>): (r: seq<byte>)
    requires InBounds(ws, |d|)
    ensures |r| == |d|
    decreases |ws|
  {
    if ws == [] then d else
    var rest := ws[1..];
    assert InBounds(rest, |d|) by { assert forall i :: 0 <= i < |rest| ==> rest[i] == ws[i + 1]; }
    Apply(Patch(d, ws[0].at, ws[0].data), rest)
  }

  /** Performs writes in order until the budget cuts one. */
  function Perform(d: seq<byte>, blk: nat, ws: seq<Write>, budget: nat, torn: nat -> byte): (o: Outcome)
    requires InBounds(ws, |d|)
    ensures |o.disk| == |d|
    ensures o.result == if budget < |ws| then -1 else 0
    ensures o.budget == if budget < |ws| then 0 else budget - |ws|
    ensures budget >= |ws| ==> o.disk == Apply(d, ws)
    decreases |ws|
  {
    if ws == [] then Outcome(d, budget, 0) else
    if budget == 0 then Outcome(Tear(d, blk, ws[0], torn), 0, -1) else
    var rest := ws[1..];
    assert InBounds(rest, |d|) by { assert forall i :: 0 <= i < |rest| ==> rest[i] == ws[i + 1]; }
    Perform(Patch(d, ws[0].at, ws[0].data), blk, rest, budget - 1, torn)
  }

  lemma {:induction false} PerformConcat(d: seq<byte>, blk: nat, ws: seq<Write>, vs: seq<Write>, budget: nat,
      torn: nat -> byte)
    requires InBounds(ws, |d|) && InBounds(vs, |d|)
    ensures InBounds(ws + vs, |d|)
    ensures Perform(d, blk, ws + vs, budget, torn)
            == var o := Perform(d, blk, ws, budget, torn);
               if o.result != 0 then o else Perform(o.disk, blk, vs, o.budget, torn)
    decreases |ws|
  {
    if ws == [] {
      assert ws + vs == vs;
    } else if budget > 0 {
      assert (ws + vs)[1..] == ws[1..] + vs;
      assert forall i :: 0 <= i < |ws[1..]| ==> ws[1..][i] == ws[i + 1];
      PerformConcat(Patch(d, ws[0].at, ws[0].data), blk, ws[1..], vs, budget - 1, torn);
    }
  }

  lemma PerformTwo(d: seq<byte>, blk: nat, w: Write, v: Write, budget: nat, torn: nat -> byte)
    requires w.at + |w.data| <= |d| && v.at + |v.data| <= |d|
    ensures Perform(d, blk, [w, v], budget, torn)
            == var o := Perform(d, blk, [w], budget, torn);
               if o.result != 0 then o else Perform(o.disk, blk, [v], o.budget, torn)
  {
    assert [w] + [v] == [w, v];
    PerformConcat(d, blk, [w], [v], budget, torn);
  }

  // ---------- what each stage writes ----------

  ghost function StateWrite(g: Layout, d: seq<byte>, c: Copy, good: bool): (w: Write)
    requires g.Fits(d)
    ensures w.at == g.HeaderAt(c) && |w.data| == g.blk && w.at + |w.data| <= |d|
  {
    var h := g.Header(d, c);
    Write(g.HeaderAt(c), if good then Mend(g.crc, h) else Spoil(g.crc, h))
  }

  /** The entry array a chain asks the secondary table to hold; always rebuilt from the primary one. */
  function ChainArray(g: Layout, d: seq<byte>, chain: Chain): (e: seq<byte>)
    requires g.Wf() && |d| == g.size
    ensures |e| == g.ArraySize()
  {
    if chain == BackupBoot then Swapped(g.Array(d, Primary), g.names) else g.Array(d, Primary)
  }

  /** The two writes that rebuild the secondary table: its header first, then its entries. */
  ghost function ChainWrites(g: Layout, d: seq<byte>, chain: Chain): (ws: seq<Write>)
    requires g.Fits(d)
    ensures InBounds(ws, |d|) && |ws| == 2
  {
    hide ChainArray, WithEntryCrc, Shaped;
    var e := ChainArray(g, d, chain);
    [Write(g.HeaderAt(Secondary), WithEntryCrc(g.crc, g.Header(d, Secondary), g.crc(e))), Write(g.secEntries, e)]
  }

  lemma ApplyOne(d: seq<byte>, w: Write)
    requires w.at + |w.data| <= |d|
    ensures Apply(d, [w]) == Patch(d, w.at, w.data)
  {
    assert [w][1..] == [];
  }

  lemma ApplyTwo(d: seq<byte>, w: Write, v: Write)
    requires w.at + |w.data| <= |d| && v.at + |v.data| <= |d|
    ensures Apply(d, [w, v]) == Patch(Patch(d, w.at, w.data), v.at, v.data)
  {
    assert [w, v][1..] == [v];
    ApplyOne(Patch(d, w.at, w.data), v);
  }

  lemma EditsKeepLayout(g: Layout, h: seq<byte>, copy: Copy, c: uint32)
    requires g.Describes(h, copy)
    ensures g.Describes(Spoil(g.crc, h), copy)
    ensures g.Describes(Mend(g.crc, h), copy)
    ensures g.Describes(WithEntryCrc(g.crc, h, c), copy)
  {
  }

  /** Writing one header leaves the other three regions alone. */
  lemma HeaderPatch(g: Layout, d: seq<byte>, c: Copy, h: seq<byte>)
    requires g.Wf() && |d| == g.size && |h| == g.blk
    ensures var d' := Patch(d, g.HeaderAt(c), h);
      && g.Header(d', c) == h
      && (forall c' :: c' != c ==> g.Header(d', c') == g.Header(d, c'))
      && (forall e :: g.Array(d', e) == g.Array(d, e))
  {
    hide Patch;
    PatchRead(d, g.HeaderAt(c), h, g.HeaderAt(Primary), g.blk);
    PatchRead(d, g.HeaderAt(c), h, g.HeaderAt(Secondary), g.blk);
    PatchRead(d, g.HeaderAt(c), h, g.EntriesAt(Primary), g.ArraySize());
    PatchRead(d, g.HeaderAt(c), h, g.EntriesAt(Secondary), g.ArraySize());
  }

  /** Writing the secondary entries leaves the other three regions alone. */
  lemma ArrayPatch(g: Layout, d: seq<byte>, e: seq<byte>)
    requires g.Wf() && |d| == g.size && |e| == g.ArraySize()
    ensures var d' := Patch(d, g.secEntries, e);
      && g.Array(d', Secondary) == e
      && g.Array(d', Primary) == g.Array(d, Primary)
      && (forall h :: g.Header(d', h) == g.Header(d, h))
  {
    PatchRead(d, g.secEntries, e, g.HeaderAt(Primary), g.blk);
    PatchRead(d, g.secEntries, e, g.HeaderAt(Secondary), g.blk);
    PatchRead(d, g.secEntries, e, g.priEntries, g.ArraySize());
    PatchRead(d, g.secEntries, e, g.secEntries, g.ArraySize());
  }

  /** After rebuilding the secondary table the disk still fits its layout, and what each region holds. */
  lemma AfterChain(g: Layout, d: seq<byte>, chain: Chain)
    requires g.Fits(d)
    ensures var e := ChainArray(g, d, chain); var d' := Apply(d, ChainWrites(g, d, chain));
      && g.Fits(d')
      && g.Header(d', Primary) == g.Header(d, Primary) && g.Array(d', Primary) == g.Array(d, Primary)
      && g.Header(d', Secondary) == WithEntryCrc(g.crc, g.Header(d, Secondary), g.crc(e))
      && g.Array(d', Secondary) == e
  {
    var e := ChainArray(g, d, chain);
    var h := WithEntryCrc(g.crc, g.Header(d, Secondary), g.crc(e));
    ApplyTwo(d, Write(g.HeaderAt(Secondary), h), Write(g.secEntries, e));
    EditsKeepLayout(g, g.Header(d, Secondary), Secondary, g.crc(e));
    HeaderPatch(g, d, Secondary, h);
    ArrayPatch(g, Patch(d, g.HeaderAt(Secondary), h), e);
  }

  /** The same for a change of one header's state. */
  lemma AfterState(g: Layout, d: seq<byte>, c: Copy, good: bool)
    requires g.Fits(d)
    ensures var w := StateWrite(g, d, c, good); var d' := Patch(d, w.at, w.data);
      g.Fits(d') && Apply(d, [w]) == d'
  {
    var w := StateWrite(g, d, c, good);
    HeaderPatch(g, d, c, w.data);
    ApplyOne(d, w);
    EditsKeepLayout(g, g.Header(d, c), c, 0);
  }

  /** The internal stage the two header states stand for, if any. */
  function DecodeStage(pri: GptState, sec: GptState): (s: (bool, Stage)) {
    if pri == BadCrc || sec == BadCrc then (false, UpdateMain)
    else if pri == BadSignature && sec == BadSignature then (false, UpdateMain)
    else if pri == Ok && sec == Ok then (true, UpdateMain)
    else if pri == BadSignature then (true, UpdateBackup)
    else (true, UpdateFinalize)
  }

  ghost function StageOf(g: Layout, d: seq<byte>): (bool, Stage)
    requires g.Fits(d)
  {
    DecodeStage(StateOf(g.crc, g.Header(d, Primary)), StateOf(g.crc, g.Header(d, Secondary)))
  }

  /** A call either refuses, has nothing to do, or performs a list of writes. */
  datatype Plan = Refuse | Nothing | Do(writes: seq<Write>)

  ghost predicate PrimaryArrayValid(g: Layout, d: seq<byte>)
    requires g.Fits(d)
  {
    g.crc(g.Array(d, Primary)) == Get4(g.Header(d, Primary), PARTITION_CRC_OFFSET)
  }

  /** The primary array holds a boot partition together with its backup. */
  ghost predicate HasPair(g: Layout, d: seq<byte>)
    requires g.Fits(d)
  {
    HasBackup(g.Array(d, Primary), g.names)
  }

  ghost function StagePlan(g: Layout, d: seq<byte>, stage: Stage): (p: Plan)
    requires g.Fits(d)
    ensures p.Do? ==> InBounds(p.writes, |d|)
  {
    hide StateOf, ChainThenState, BackupWrites;
    match stage
    case UpdateMain =>
      if !PrimaryArrayValid(g, d) then Refuse
      else if !HasPair(g, d) then Nothing
      else Do(ChainThenState(g, d, BackupBoot, Primary, false))
    case UpdateBackup => Do(BackupWrites(g, d))
    case UpdateFinalize =>
      if !PrimaryArrayValid(g, d) then Refuse
      else Do(ChainThenState(g, d, NormalBoot, Secondary, true))
  }

  ghost function BackupWrites(g: Layout, d: seq<byte>): (ws: seq<Write>)
    requires g.Fits(d)
    ensures InBounds(ws, |d|) && |ws| == 2
  {
    hide Layout.Fits, StateWrite, Patch;
    AfterState(g, d, Primary, true);
    var w := StateWrite(g, d, Primary, true);
    [w, StateWrite(g, Patch(d, w.at, w.data), Secondary, false)]
  }

  ghost function ChainThenState(g: Layout, d: seq<byte>, chain: Chain, c: Copy, good: bool): (ws: seq<Write>)
    requires g.Fits(d)
    ensures InBounds(ws, |d|) && |ws| == 3
  {
    AfterChain(g, d, chain);
    var ws := ChainWrites(g, d, chain);
    ws + [StateWrite(g, Apply(d, ws), c, good)]
  }

  ghost function CallPlan(g: Layout, d: seq<byte>, stage: Stage): (p: Plan)
    requires g.Fits(d)
    ensures p.Do? ==> InBounds(p.writes, |d|)
  {
    var (defined, internal) := StageOf(g, d);
    if !defined then Refuse
    else if stage.Number() == internal.Number() - 1 then Nothing
    else if stage != internal then Refuse
    else StagePlan(g, d, stage)
  }

  /** Carries out a plan from a medium. */
  ghost function Carried(g: Layout, p: Plan, d: seq<byte>, budget: nat, torn: nat -> byte): (o: Outcome)
    requires p.Do? ==> InBounds(p.writes, |d|)
    ensures |o.disk| == |d|
  {
    match p
    case Refuse => Outcome(d, budget, -1)
    case Nothing => Outcome(d, budget, 0)
    case Do(ws) => Perform(d, g.blk, ws, budget, torn)
  }

  /** One call of the updater, cut after `budget` writes. The layout survives it wherever it is cut. */
  ghost function Called(g: Layout, d: seq<byte>, stage: Stage, budget: nat, torn: nat -> byte): (o: Outcome)
    requires g.Fits(d)
    ensures g.Fits(o.disk)
  {
    PlanKeepsLayout(g, d, stage);
    PlanFits(g, d, CallPlan(g, d, stage), budget, torn);
    Carried(g, CallPlan(g, d, stage), d, budget, torn)
  }

  lemma PlanFits(g: Layout, d: seq<byte>, p: Plan, budget: nat, torn: nat -> byte)
    requires g.Fits(d) && (p.Do? ==> InBounds(p.writes, |d|) && AllKeep(g, p.writes))
    ensures g.Fits(Carried(g, p, d, budget, torn).disk)
  {
    hide Layout.Fits, Keeps;
    if p.Do? {
      PerformFits(g, d, p.writes, budget, torn);
    }
  }

  /** A write of a whole header that still describes the layout, or of a whole secondary array. */
  ghost predicate Keeps(g: Layout, w: Write) {
    (exists c: Copy :: w.at == g.HeaderAt(c) && g.Describes(w.data, c))
    || (w.at == g.secEntries && |w.data| == g.ArraySize())
  }

  ghost predicate AllKeep(g: Layout, ws: seq<Write>) {
    forall i :: 0 <= i < |ws| ==> Keeps(g, ws[i])
  }

  lemma PatchFits(g: Layout, d: seq<byte>, w: Write)
    requires g.Fits(d) && Keeps(g, w)
    ensures w.at + |w.data| <= |d| && g.Fits(Patch(d, w.at, w.data))
  {
    hide Patch, Shaped, Get4, Get8;
    if w.at == g.secEntries && |w.data| == g.ArraySize() {
      ArrayPatch(g, d, w.data);
    } else {
      var c: Copy :| w.at == g.HeaderAt(c) && g.Describes(w.data, c);
      HeaderPatch(g, d, c, w.data);
    }
  }

  lemma TearFits(g: Layout, d: seq<byte>, w: Write, torn: nat -> byte)
    requires g.Fits(d) && Keeps(g, w)
    ensures w.at + |w.data| <= |d| && g.Fits(Tear(d, g.blk, w, torn))
  {
    hide Shaped, Get4, Get8;
    PatchFits(g, d, w);
    if |w.data| > g.blk {
      PatchFits(g, d, Write(w.at, seq(|w.data|, i requires 0 <= i => torn(w.at + i))));
    }
  }

  lemma {:induction false} PerformFits(g: Layout, d: seq<byte>, ws: seq<Write>, budget: nat, torn: nat -> byte)
    requires g.Fits(d) && InBounds(ws, |d|) && AllKeep(g, ws)
    ensures g.Fits(Perform(d, g.blk, ws, budget, torn).disk)
    decreases |ws|
  {
    hide Layout.Fits, Keeps, Tear, Patch;
    if ws != [] {
      assert Keeps(g, ws[0]);
      if budget == 0 {
        TearFits(g, d, ws[0], torn);
      } else {
        PatchFits(g, d, ws[0]);
        assert forall i :: 0 <= i < |ws[1..]| ==> ws[1..][i] == ws[i + 1];
        PerformFits(g, Patch(d, ws[0].at, ws[0].data), ws[1..], budget - 1, torn);
      }
    }
  }

  lemma StateWriteKeeps(g: Layout, d: seq<byte>, c: Copy, good: bool)
    requires g.Fits(d)
    ensures Keeps(g, StateWrite(g, d, c, good))
  {
    EditsKeepLayout(g, g.Header(d, c), c, 0);
  }

  lemma ChainWritesKeep(g: Layout, d: seq<byte>, chain: Chain)
    requires g.Fits(d)
    ensures AllKeep(g, ChainWrites(g, d, chain))
  {
    hide ChainArray, WithEntryCrc;
    EditsKeepLayout(g, g.Header(d, Secondary), Secondary, g.crc(ChainArray(g, d, chain)));
  }

  lemma RebuildKeeps(g: Layout, d: seq<byte>, chain: Chain, c: Copy, good: bool)
    requires g.Fits(d)
    ensures AllKeep(g, ChainThenState(g, d, chain, c, good))
  {
    hide Layout.Fits, StateWrite, ChainWrites, Keeps;
    AfterChain(g, d, chain);
    ChainWritesKeep(g, d, chain);
    StateWriteKeeps(g, Apply(d, ChainWrites(g, d, chain)), c, good);
  }

  lemma BackupKeeps(g: Layout, d: seq<byte>)
    requires g.Fits(d)
    ensures AllKeep(g, BackupWrites(g, d))
  {
    hide Layout.Fits, StateWrite, Keeps, Patch;
    AfterState(g, d, Primary, true);
    var w := StateWrite(g, d, Primary, true);
    StateWriteKeeps(g, d, Primary, true);
    StateWriteKeeps(g, Patch(d, w.at, w.data), Secondary, false);
  }

  lemma PlanKeepsLayout(g: Layout, d: seq<byte>, stage: Stage)
    requires g.Fits(d)
    ensures CallPlan(g, d, stage).Do? ==> AllKeep(g, CallPlan(g, d, stage).writes)
  {
    hide Layout.Fits, StageOf, PrimaryArrayValid, HasPair, ChainThenState, BackupWrites, Keeps;
    BackupKeeps(g, d);
    RebuildKeeps(g, d, BackupBoot, Primary, false);
    RebuildKeeps(g, d, NormalBoot, Secondary, true);
  }

  // ---------- the device and the updater ----------

  class BlockDevice {
    const blkSize: nat
    const crc32: Crc
    const isUfs: bool
    const swapList: seq<string>
    var bytes: seq<byte>
    var budget: nat         // writes still completed before the device is cut off
    var torn: nat -> byte   // what a cut write leaves behind

    constructor (blkSize: nat, crc32: Crc, isUfs: bool, bytes: seq<byte>, budget: nat, torn: nat -> byte)
      ensures this.blkSize == blkSize && this.crc32 == crc32 && this.isUfs == isUfs
      ensures swapList == PTN_SWAP_LIST && Separate(swapList)
      ensures this.bytes == bytes && this.budget == budget && this.torn == torn
    {
      SwapListSeparate();
      this.blkSize, this.crc32, this.isUfs, swapList := blkSize, crc32, isUfs, PTN_SWAP_LIST;
      this.bytes, this.budget, this.torn := bytes, budget, torn;
    }

    ghost predicate HasLayout(g: Layout)
      reads this
    {
      && g.blk == blkSize && g.crc == crc32 && g.names == Visited(swapList, isUfs)
      && Separate(swapList) && g.Fits(bytes)
    }

    ghost function View(): Outcome
      reads this
    {
      Outcome(bytes, budget, 0)
    }

    method BlkRead(offset: nat, buf: array<byte>)
      requires offset + buf.Length <= |bytes|
      modifies buf
      ensures buf[..] == bytes[offset..offset + buf.Length]
    {
      var i := 0;
      while i < buf.Length
        invariant 0 <= i <= buf.Length
        invariant forall k :: 0 <= k < i ==> buf[k] == bytes[offset + k]
      {
        buf[i] := bytes[offset + i];
        i := i + 1;
      }
    }

    method BlkWrite(offset: nat, buf: array<byte>) returns (r: int)
      requires offset + buf.Length <= |bytes|
      modifies this`bytes, this`budget
      ensures Outcome(bytes, budget, r)
              == Perform(old(bytes), blkSize, [Write(offset, old(buf[..]))], old(budget), torn)
    {
      if budget == 0 {
        if buf.Length > blkSize {
          var left := torn;
          bytes := Patch(bytes, offset, seq(buf.Length, i requires 0 <= i => left(offset + i)));
        }
        return -1;
      }
      bytes := Patch(bytes, offset, buf[..]);
      budget := budget - 1;
      return 0;
    }

    /** Classifies one header; the checksum is recomputed on the copy with its own field cleared. */
    method GetState(copy: Copy, ghost g: Layout) returns (state: GptState)
      requires HasLayout(g)
      ensures state == StateOf(crc32, g.Header(bytes, copy))
    {
      state := Ok;
      var h := ReadHeader(copy, g);
      ghost var header := h[..];
      if h[..|GPT_SIGNATURE|] != GPT_SIGNATURE {
        state := BadSignature;
      }
      assert header[..|GPT_SIGNATURE|] == h[..|GPT_SIGNATURE|];
      var size := Get4(h[..], HEADER_SIZE_OFFSET);
      var crc := Get4(h[..], HEADER_CRC_OFFSET);
      PutBytes(h, HEADER_CRC_OFFSET, 0);
      assert h[..size] == h[..][..size];
      if crc32(h[..size]) != crc {
        state := BadCrc;
      }
    }

    /** Recomputes a header's checksum in place. */
    method SealHeader(h: array<byte>)
      requires Shaped(h[..])
      modifies h
      ensures h[..] == Seal(crc32, old(h[..]))
    {
      var size := Get4(h[..], HEADER_SIZE_OFFSET);
      PutBytes(h, HEADER_CRC_OFFSET, 0);
      assert h[..size] == h[..][..size];
      PutBytes(h, HEADER_CRC_OFFSET, crc32(h[..size]));
      assert h[..] == Seal(crc32, old(h[..]));
    }

    method ReadHeader(copy: Copy, ghost g: Layout) returns (h: array<byte>)
      requires HasLayout(g)
      ensures fresh(h) && h[..] == g.Header(bytes, copy)
    {
      hide Get4, Get8, Shaped;
      h := new byte[blkSize];
      BlkRead(if copy == Primary then blkSize else |bytes| - blkSize, h);
    }

    /** Spoils or restores one header's signature. */
    method SetState(copy: Copy, good: bool, ghost g: Layout) returns (r: int)
      requires HasLayout(g)
      modifies this`bytes, this`budget
      ensures Outcome(bytes, budget, r)
              == Perform(old(bytes), blkSize, [StateWrite(g, old(bytes), copy, good)], old(budget), torn)
    {
      hide Get4, Get8, Shaped, Mend, Spoil, Patch, Perform;
      var h := ReadHeader(copy, g);
      ChangeState(h, good);
      r := BlkWrite(if copy == Primary then blkSize else |bytes| - blkSize, h);
    }

    method ChangeState(h: array<byte>, good: bool)
      requires Shaped(h[..])
      modifies h
      ensures h[..] == if good then Mend(crc32, old(h[..])) else Spoil(crc32, old(h[..]))
    {
      EditSignature(h, good);
      SealHeader(h);
    }

    method EditSignature(h: array<byte>, good: bool)
      requires h.Length >= |GPT_SIGNATURE|
      modifies h
      ensures h[..] == if good then Restamp(old(h[..])) else old(h[..])[0 := 0]
    {
      if good {
        var i := 0;
        while i < |GPT_SIGNATURE|
          invariant 0 <= i <= |GPT_SIGNATURE|
          invariant forall k :: 0 <= k < h.Length ==> h[k] == if k < i then GPT_SIGNATURE[k] else old(h[k])
        {
          h[i] := GPT_SIGNATURE[i];
          i := i + 1;
        }
      } else {
        h[0] := 0;
      }
    }

    /** Reads the primary entry array, as its header describes it. */
    method ReadEntries(h: array<byte>, ghost g: Layout) returns (entries: array<byte>)
      requires HasLayout(g) && h[..] == g.Header(bytes, Primary)
      ensures fresh(entries) && entries[..] == g.Array(bytes, Primary)
    {
      var start := StartOfEntries(h, Primary, g);
      var arraySize := SizeOfEntries(h, Primary, g);
      hide Layout.Wf, Layout.Describes;
      entries := new byte[arraySize];
      BlkRead(start, entries);
    }

    /** Rebuilds the secondary table from the primary entries, with or without the boot chain exchanged. */
    method SetBootChain(chain: Chain, ghost g: Layout) returns (r: int)
      requires HasLayout(g)
      modifies this`bytes, this`budget
      ensures var d := old(bytes);
        if !PrimaryArrayValid(g, d) then r == -1 && View() == old(View())
        else if chain == BackupBoot && !HasPair(g, d) then r == 1 && View() == old(View())
        else Outcome(bytes, budget, r)
             == Perform(d, blkSize, ChainWrites(g, d, chain), old(budget), torn)
    {
      ghost var d := bytes;
      var h := ReadHeader(Primary, g);
      var entries := ReadEntries(h, g);
      if Get4(h[..], PARTITION_CRC_OFFSET) != crc32(entries[..]) {
        return -1;
      }
      h := ReadHeader(Secondary, g);
      if chain == BackupBoot {
        r := BootChainSwap(entries, swapList, isUfs);
        if r != 0 {
          return r;
        }
      }
      assert entries[..] == ChainArray(g, d, chain);
      r := WriteTable(h, entries, g);
    }

    /** Stores a secondary table: header with the new checksums, then entries. */
    method WriteTable(h: array<byte>, entries: array<byte>, ghost g: Layout) returns (r: int)
      requires HasLayout(g) && h != entries && h[..] == g.Header(bytes, Secondary) && entries.Length == g.ArraySize()
      modifies this`bytes, this`budget, h
      ensures Outcome(bytes, budget, r)
              == Perform(old(bytes), blkSize,
                         [Write(g.HeaderAt(Secondary), WithEntryCrc(crc32, old(h[..]), crc32(entries[..]))),
                          Write(g.secEntries, entries[..])],
                         old(budget), torn)
    {
      hide Get4, Get8, Shaped, Patch, Perform, WithEntryCrc;
      ghost var w := Write(g.HeaderAt(Secondary), WithEntryCrc(crc32, h[..], crc32(entries[..])));
      ghost var v := Write(g.secEntries, entries[..]);
      PerformTwo(bytes, blkSize, w, v, budget, torn);
      var start := StartOfEntries(h, Secondary, g);
      StampHeader(h, crc32(entries[..]));
      r := BlkWrite(|bytes| - blkSize, h);
      if r == 0 {
        r := BlkWrite(start, entries);
      }
    }

    /** Stores a new entry-array checksum and reseals the header. */
    method StampHeader(h: array<byte>, c: uint32)
      requires Shaped(h[..])
      modifies h
      ensures h[..] == WithEntryCrc(crc32, old(h[..]), c)
    {
      PutBytes(h, PARTITION_CRC_OFFSET, c);
      SealHeader(h);
    }

    /** Byte offset of the entry array a header points at; the product is taken in 64 bits. */
    method StartOfEntries(h: array<byte>, copy: Copy, ghost g: Layout) returns (start: nat)
      requires HasLayout(g) && g.Describes(h[..], copy)
      ensures start == g.EntriesAt(copy)
    {
      hide Get4, Get8, Shaped;
      BlockOffsetIsProduct(g.Lba(copy), blkSize);
      start := Get8(h[..], PENTRIES_OFFSET) * blkSize % 0x1_0000_0000_0000_0000;
    }

    /** Byte size of the entry array a header describes; the product is taken in 32 bits. */
    method SizeOfEntries(h: array<byte>, copy: Copy, ghost g: Layout) returns (size: nat)
      requires HasLayout(g) && g.Describes(h[..], copy)
      ensures size == g.ArraySize()
    {
      hide Get4, Get8, Shaped;
      size := Get4(h[..], PARTITION_COUNT_OFFSET) * Get4(h[..], PENTRY_SIZE_OFFSET) % 0x1_0000_0000;
    }

    method StageMain(ghost g: Layout) returns (r: int)
      requires HasLayout(g)
      modifies this`bytes, this`budget
      ensures Outcome(bytes, budget, r)
              == Carried(g, StagePlan(g, old(bytes), UpdateMain), old(bytes), old(budget), torn)
    {
      hide Layout.Fits, Layout.Wf;
      ghost var d, ws := bytes, ChainWrites(g, bytes, BackupBoot);
      AfterChain(g, d, BackupBoot);
      PerformConcat(d, blkSize, ws, [StateWrite(g, Apply(d, ws), Primary, false)], budget, torn);
      r := SetBootChain(BackupBoot, g);
      if r != 0 {
        if r > 0 {
          r := 0;
        }
        return;
      }
      r := SetState(Primary, false, g);
    }

    method StageBackup(ghost g: Layout) returns (r: int)
      requires HasLayout(g)
      modifies this`bytes, this`budget
      ensures Outcome(bytes, budget, r)
              == Carried(g, StagePlan(g, old(bytes), UpdateBackup), old(bytes), old(budget), torn)
    {
      hide Layout.Fits, Layout.Wf;
      ghost var d, w := bytes, StateWrite(g, bytes, Primary, true);
      AfterState(g, d, Primary, true);
      PerformTwo(d, blkSize, w, StateWrite(g, Patch(d, w.at, w.data), Secondary, false), budget, torn);
      r := SetState(Primary, true, g);
      if r != 0 {
        return;
      }
      r := SetState(Secondary, false, g);
    }

    method StageFinalize(ghost g: Layout) returns (r: int)
      requires HasLayout(g)
      modifies this`bytes, this`budget
      ensures Outcome(bytes, budget, r)
              == Carried(g, StagePlan(g, old(bytes), UpdateFinalize), old(bytes), old(budget), torn)
    {
      hide Layout.Fits, Layout.Wf;
      ghost var d, ws := bytes, ChainWrites(g, bytes, NormalBoot);
      AfterChain(g, d, NormalBoot);
      PerformConcat(d, blkSize, ws, [StateWrite(g, Apply(d, ws), Secondary, true)], budget, torn);
      r := SetBootChain(NormalBoot, g);
      if r != 0 {
        return;
      }
      r := SetState(Secondary, true, g);
    }

    /** One update call. */
    method PreparePartitions(stage: Stage, ghost g: Layout) returns (r: int)
      requires HasLayout(g)
      modifies this`bytes, this`budget
      ensures Outcome(bytes, budget, r) == Called(g, old(bytes), stage, old(budget), torn)
    {
      hide Layout.Fits, Layout.Wf;
      var pri := GetState(Primary, g);
      var sec := GetState(Secondary, g);
      if pri == BadCrc || sec == BadCrc {
        return -1;
      }
      if pri == BadSignature && sec == BadSignature {
        return -1;
      }
      var internal: Stage;
      if pri == Ok && sec == Ok {
        internal := UpdateMain;
      } else if pri == BadSignature {
        internal := UpdateBackup;
      } else {
        internal := UpdateFinalize;
      }
      if stage.Number() == internal.Number() - 1 {
        return 0;
      }
      if stage != internal {
        return -1;
      }
      match stage {
        case UpdateMain => r := StageMain(g);
        case UpdateBackup => r := StageBackup(g);
        case UpdateFinalize => r := StageFinalize(g);
      }
    }
  }
}
