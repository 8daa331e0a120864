/** Crash safety, resumption and the full round trip of the three-stage table update. */
module GptUpdate {
  import opened Bytes
  import opened GptHeader
  import opened BootChain
  import opened GptDisk

  /** A copy that firmware accepts: signature, header checksum and entry-array checksum all right. */
  ghost predicate TableValid(g: Layout, d: seq<byte>, c: Copy)
    requires g.Fits(d)
  {
    && StateOf(g.crc, g.Header(d, c)) == Ok
    && g.crc(g.Array(d, c)) == Get4(g.Header(d, c), PARTITION_CRC_OFFSET)
  }

  /** A disk before any update: both copies valid, with equal entries. */
  ghost predicate Intact(g: Layout, d: seq<byte>) {
    g.Fits(d) && TableValid(g, d, Primary) && TableValid(g, d, Secondary)
    && g.Array(d, Primary) == g.Array(d, Secondary)
  }

  /** What a call, whole or cut, can have changed: two signatures, one checksum, one entry array. */
  datatype Shape = Shape(pri: bool, sec: bool, c: uint32, t: seq<byte>)

  ghost function OrigCrc(g: Layout, d0: seq<byte>): uint32
    requires g.Fits(d0)
  {
    g.crc(g.Array(d0, Primary))
  }

  ghost function SwappedEntries(g: Layout, d0: seq<byte>): seq<byte>
    requires g.Fits(d0)
  {
    Swapped(g.Array(d0, Primary), g.names)
  }

  /** One original header with its signature kept or spoiled and the given entry checksum. */
  ghost function Stamped(g: Layout, d0: seq<byte>, c: Copy, signed: bool, x: uint32): (h: seq<byte>)
    requires g.Fits(d0)
    ensures |h| == g.blk && g.HeaderAt(c) + |h| <= |d0| && g.secEntries + g.ArraySize() <= |d0|
  {
    Variant(g.crc, g.Header(d0, c), signed, x)
  }

  /** The original disk with its regions changed as `sh` says. */
  ghost function Assembled(g: Layout, d0: seq<byte>, sh: Shape): (d: seq<byte>)
    requires g.Fits(d0) && |sh.t| == g.ArraySize()
    ensures |d| == |d0|
  {
    var p := Stamped(g, d0, Primary, sh.pri, OrigCrc(g, d0));
    var s := Stamped(g, d0, Secondary, sh.sec, sh.c);
    Patch(Patch(Patch(d0, g.HeaderAt(Primary), p), g.HeaderAt(Secondary), s), g.secEntries, sh.t)
  }

  /** The shape of the untouched disk. */
  ghost function Start(g: Layout, d0: seq<byte>): (sh: Shape)
    requires g.Fits(d0)
    ensures |sh.t| == g.ArraySize() && Safe(g, d0, sh) && sh.pri && sh.sec
  {
    Shape(true, true, OrigCrc(g, d0), g.Array(d0, Primary))
  }

  /** Either the primary copy is signed, or the secondary one is and holds the exchanged entries. */
  ghost predicate Safe(g: Layout, d0: seq<byte>, sh: Shape)
    requires g.Fits(d0)
  {
    && |sh.t| == g.ArraySize()
    && (sh.pri || (sh.sec && sh.t == SwappedEntries(g, d0) && sh.c == g.crc(SwappedEntries(g, d0))))
  }

  // ---------- regions of an assembled disk ----------

  lemma AssembledRegions(g: Layout, d0: seq<byte>, sh: Shape)
    requires g.Fits(d0) && |sh.t| == g.ArraySize()
    ensures var d := Assembled(g, d0, sh);
      && g.Header(d, Primary) == Stamped(g, d0, Primary, sh.pri, OrigCrc(g, d0))
      && g.Header(d, Secondary) == Stamped(g, d0, Secondary, sh.sec, sh.c)
      && g.Array(d, Primary) == g.Array(d0, Primary) && g.Array(d, Secondary) == sh.t
  {
    hide Get4, Get8, Shaped, Patch, Stamped;
    var p := Stamped(g, d0, Primary, sh.pri, OrigCrc(g, d0));
    var s := Stamped(g, d0, Secondary, sh.sec, sh.c);
    var d1 := Patch(d0, g.HeaderAt(Primary), p);
    var d2 := Patch(d1, g.HeaderAt(Secondary), s);
    HeaderPatch(g, d0, Primary, p);
    HeaderPatch(g, d1, Secondary, s);
    ArrayPatch(g, d2, sh.t);
  }

  lemma AssembledFits(g: Layout, d0: seq<byte>, sh: Shape)
    requires g.Fits(d0) && |sh.t| == g.ArraySize()
    ensures g.Fits(Assembled(g, d0, sh))
  {
    AssembledRegions(g, d0, sh);
    VariantFields(g.crc, g.Header(d0, Primary), sh.pri, OrigCrc(g, d0));
    VariantFields(g.crc, g.Header(d0, Secondary), sh.sec, sh.c);
    hide Stamped, Assembled, Get4, Get8, Patch, Seal;
  }

  /** How the updater decodes an assembled disk. */
  lemma AssembledStates(g: Layout, d0: seq<byte>, sh: Shape)
    requires g.Fits(d0) && Intact(g, d0) && |sh.t| == g.ArraySize()
    ensures var d := Assembled(g, d0, sh);
      && g.Fits(d)
      && StateOf(g.crc, g.Header(d, Primary)) == (if sh.pri then Ok else BadSignature)
      && StateOf(g.crc, g.Header(d, Secondary)) == (if sh.sec then Ok else BadSignature)
      && Get4(g.Header(d, Primary), PARTITION_CRC_OFFSET) == OrigCrc(g, d0)
      && Get4(g.Header(d, Secondary), PARTITION_CRC_OFFSET) == sh.c
      && g.Array(d, Primary) == g.Array(d0, Primary) && g.Array(d, Secondary) == sh.t
  {
    hide Variant, Assembled, Get4, Get8, Patch;
    AssembledFits(g, d0, sh);
    AssembledRegions(g, d0, sh);
    VariantFields(g.crc, g.Header(d0, Primary), sh.pri, OrigCrc(g, d0));
    VariantFields(g.crc, g.Header(d0, Secondary), sh.sec, sh.c);
    VariantState(g.crc, g.Header(d0, Primary), sh.pri, OrigCrc(g, d0));
    VariantState(g.crc, g.Header(d0, Secondary), sh.sec, sh.c);
  }

  /** The untouched disk is one of the assembled ones. */
  lemma AssembledOriginal(g: Layout, d0: seq<byte>)
    requires g.Fits(d0) && Intact(g, d0)
    ensures Assembled(g, d0, Start(g, d0)) == d0
  {
    VariantOfSelf(g.crc, g.Header(d0, Primary));
    VariantOfSelf(g.crc, g.Header(d0, Secondary));
    PatchAllSame(g, d0);
  }

  lemma PatchAllSame(g: Layout, d0: seq<byte>)
    requires g.Fits(d0) && g.Array(d0, Primary) == g.Array(d0, Secondary)
    ensures Patch(Patch(Patch(d0, g.HeaderAt(Primary), g.Header(d0, Primary)),
                        g.HeaderAt(Secondary), g.Header(d0, Secondary)),
                  g.secEntries, g.Array(d0, Primary)) == d0
  {
    hide Get4, Get8, Shaped, Patch;
    PatchSame(d0, g.HeaderAt(Primary), g.blk);
    PatchSame(d0, g.HeaderAt(Secondary), g.blk);
    PatchSame(d0, g.secEntries, g.ArraySize());
  }

  lemma PatchSame(d: seq<byte>, o: nat, n: nat)
    requires o + n <= |d|
    ensures Patch(d, o, d[o..o + n]) == d
  {
  }

  lemma PatchAgain(d: seq<byte>, o: nat, x: seq<byte>, y: seq<byte>)
    requires o + |x| <= |d| && |y| == |x|
    ensures Patch(Patch(d, o, x), o, y) == Patch(d, o, y)
  {
  }

  lemma PatchSwap(d: seq<byte>, o: nat, x: seq<byte>, o': nat, y: seq<byte>)
    requires o + |x| <= |d| && o' + |y| <= |d| && Apart(o, |x|, o', |y|)
    ensures Patch(Patch(d, o, x), o', y) == Patch(Patch(d, o', y), o, x)
  {
  }

  // ---------- each region written on its own ----------

  lemma WritePrimary(g: Layout, d0: seq<byte>, sh: Shape, pri: bool)
    requires g.Fits(d0) && |sh.t| == g.ArraySize()
    ensures Patch(Assembled(g, d0, sh), g.HeaderAt(Primary), Stamped(g, d0, Primary, pri, OrigCrc(g, d0)))
            == Assembled(g, d0, sh.(pri := pri))
  {
    hide Stamped, Patch, Get4, Get8, Shaped;
    var p := Stamped(g, d0, Primary, sh.pri, OrigCrc(g, d0));
    var p' := Stamped(g, d0, Primary, pri, OrigCrc(g, d0));
    var s := Stamped(g, d0, Secondary, sh.sec, sh.c);
    var d1 := Patch(d0, g.HeaderAt(Primary), p);
    PatchSwap(Patch(d1, g.HeaderAt(Secondary), s), g.secEntries, sh.t, g.HeaderAt(Primary), p');
    PatchSwap(d1, g.HeaderAt(Secondary), s, g.HeaderAt(Primary), p');
    PatchAgain(d0, g.HeaderAt(Primary), p, p');
  }

  lemma WriteSecondary(g: Layout, d0: seq<byte>, sh: Shape, sec: bool, c: uint32)
    requires g.Fits(d0) && |sh.t| == g.ArraySize()
    ensures Patch(Assembled(g, d0, sh), g.HeaderAt(Secondary), Stamped(g, d0, Secondary, sec, c))
            == Assembled(g, d0, sh.(sec := sec, c := c))
  {
    hide Stamped, Patch, Get4, Get8, Shaped;
    var d1 := Patch(d0, g.HeaderAt(Primary), Stamped(g, d0, Primary, sh.pri, OrigCrc(g, d0)));
    var s := Stamped(g, d0, Secondary, sh.sec, sh.c);
    var s' := Stamped(g, d0, Secondary, sec, c);
    PatchSwap(Patch(d1, g.HeaderAt(Secondary), s), g.secEntries, sh.t, g.HeaderAt(Secondary), s');
    PatchAgain(d1, g.HeaderAt(Secondary), s, s');
  }

  lemma WriteArray(g: Layout, d0: seq<byte>, sh: Shape, t: seq<byte>)
    requires g.Fits(d0) && |sh.t| == g.ArraySize() && |t| == g.ArraySize()
    ensures Patch(Assembled(g, d0, sh), g.secEntries, t) == Assembled(g, d0, sh.(t := t))
  {
    hide Stamped, Patch, Get4, Get8, Shaped;
    var d1 := Patch(d0, g.HeaderAt(Primary), Stamped(g, d0, Primary, sh.pri, OrigCrc(g, d0)));
    var d2 := Patch(d1, g.HeaderAt(Secondary), Stamped(g, d0, Secondary, sh.sec, sh.c));
    PatchAgain(d2, g.secEntries, sh.t, t);
  }

  // ---------- one write, possibly cut ----------

  /** The header writes the updater plans, in terms of shapes. */
  lemma PlannedState(g: Layout, d0: seq<byte>, sh: Shape, c: Copy, good: bool)
    requires g.Fits(d0) && Intact(g, d0) && |sh.t| == g.ArraySize()
    ensures g.Fits(Assembled(g, d0, sh))
    ensures var d := Assembled(g, d0, sh); var w := StateWrite(g, d, c, good);
      Patch(d, w.at, w.data) == Assembled(g, d0, Restate(sh, c, good))
  {
    var x := if c == Primary then OrigCrc(g, d0) else sh.c;
    var signed := if c == Primary then sh.pri else sh.sec;
    MendVariant(g.crc, g.Header(d0, c), signed, x);
    SpoilVariant(g.crc, g.Header(d0, c), signed, x);
    hide Stamped, Patch, Get4, Get8, Shaped, Assembled, Mend, Spoil, Signed;
    AssembledFits(g, d0, sh);
    AssembledRegions(g, d0, sh);
    if c == Primary {
      WritePrimary(g, d0, sh, good);
    } else {
      WriteSecondary(g, d0, sh, good, sh.c);
    }
  }

  function Restate(sh: Shape, c: Copy, good: bool): (r: Shape)
    ensures r.t == sh.t
  {
    if c == Primary then sh.(pri := good) else sh.(sec := good)
  }

  ghost function CutState(g: Layout, d: seq<byte>, c: Copy, good: bool, budget: nat, torn: nat -> byte): seq<byte>
    requires g.Fits(d)
  {
    Perform(d, g.blk, [StateWrite(g, d, c, good)], budget, torn).disk
  }

  /** A header change happens whole or not at all. */
  lemma StateStep(g: Layout, d0: seq<byte>, sh: Shape, d: seq<byte>, c: Copy, good: bool, budget: nat,
      torn: nat -> byte)
    requires g.Fits(d0) && Intact(g, d0) && |sh.t| == g.ArraySize()
    requires g.Fits(d) && d == Assembled(g, d0, sh)
    ensures CutState(g, d, c, good, budget, torn)
            == if budget == 0 then d else Assembled(g, d0, Restate(sh, c, good))
  {
    hide Patch, Perform, Assembled, Layout.Fits, Intact, StateWrite;
    PlannedState(g, d0, sh, c, good);
    PerformHeader(g, d, StateWrite(g, d, c, good), budget, torn);
  }

  /** A single block is written whole or not at all. */
  lemma PerformHeader(g: Layout, d: seq<byte>, w: Write, budget: nat, torn: nat -> byte)
    requires w.at + |w.data| <= |d| && |w.data| == g.blk
    ensures Perform(d, g.blk, [w], budget, torn).disk == if budget == 0 then d else Patch(d, w.at, w.data)
  {
    ApplyOne(d, w);
  }

  ghost function ArrayFor(g: Layout, d0: seq<byte>, chain: Chain): (e: seq<byte>)
    requires g.Fits(d0)
    ensures |e| == g.ArraySize()
  {
    if chain == BackupBoot then SwappedEntries(g, d0) else g.Array(d0, Primary)
  }

  lemma PlannedChain(g: Layout, d0: seq<byte>, sh: Shape, chain: Chain)
    requires g.Fits(d0) && Intact(g, d0) && |sh.t| == g.ArraySize()
    ensures g.Fits(Assembled(g, d0, sh))
    ensures var d := Assembled(g, d0, sh); var e := ArrayFor(g, d0, chain); var ws := ChainWrites(g, d, chain);
      && ws == [Write(g.HeaderAt(Secondary), Stamped(g, d0, Secondary, sh.sec, g.crc(e))),
                Write(g.secEntries, e)]
  {
    EntryCrcVariant(g.crc, g.Header(d0, Secondary), sh.sec, sh.c, g.crc(ArrayFor(g, d0, chain)));
    hide Patch, Get4, Get8, Shaped, Assembled, Stamped, WithEntryCrc, Swapped, StateOf, Intact;
    AssembledFits(g, d0, sh);
    AssembledRegions(g, d0, sh);
  }

  /** Rebuilding the secondary table, cut anywhere, changes only its checksum and its entries. */
  lemma ChainStep(g: Layout, d0: seq<byte>, sh: Shape, chain: Chain, budget: nat, torn: nat -> byte)
    returns (sh': Shape)
    requires g.Fits(d0) && Intact(g, d0) && |sh.t| == g.ArraySize()
    ensures |sh'.t| == g.ArraySize() && sh'.pri == sh.pri && sh'.sec == sh.sec
    ensures g.Fits(Assembled(g, d0, sh))
    ensures var d := Assembled(g, d0, sh);
      Perform(d, g.blk, ChainWrites(g, d, chain), budget, torn).disk == Assembled(g, d0, sh')
    ensures var e := ArrayFor(g, d0, chain);
      budget >= 2 ==> sh' == Shape(sh.pri, sh.sec, g.crc(e), e)
  {
    hide Patch, Assembled, Stamped, ArrayFor, ChainWrites, Intact, Layout.Fits;
    PlannedChain(g, d0, sh, chain);
    var d, e := Assembled(g, d0, sh), ArrayFor(g, d0, chain);
    var mid := sh.(c := g.crc(e));
    var w := Write(g.HeaderAt(Secondary), Stamped(g, d0, Secondary, sh.sec, g.crc(e)));
    var v := Write(g.secEntries, e);
    PerformTwo(d, g.blk, w, v, budget, torn);
    PerformHeader(g, d, w, budget, torn);
    WriteSecondary(g, d0, sh, sh.sec, g.crc(e));
    if budget == 0 {
      sh' := sh;
    } else if budget == 1 {
      var left := seq(|e|, i requires 0 <= i => torn(g.secEntries + i));
      WriteArray(g, d0, mid, left);
      sh' := if |e| <= g.blk then mid else mid.(t := left);
    } else {
      ApplyOne(Assembled(g, d0, mid), v);
      WriteArray(g, d0, mid, e);
      sh' := mid.(t := e);
    }
  }

  // ---------- one call ----------

  lemma StageOfAssembled(g: Layout, d0: seq<byte>, sh: Shape)
    requires g.Fits(d0) && Intact(g, d0) && Safe(g, d0, sh)
    ensures g.Fits(Assembled(g, d0, sh)) && PrimaryArrayValid(g, Assembled(g, d0, sh))
    ensures HasPair(g, Assembled(g, d0, sh)) == HasPair(g, d0)
    ensures StageOf(g, Assembled(g, d0, sh))
            == (true, if sh.pri && sh.sec then UpdateMain else if !sh.pri then UpdateBackup else UpdateFinalize)
  {
    hide Assembled, Get4, StateOf, Layout.Fits, Intact;
    AssembledStates(g, d0, sh);
  }

  lemma BackupStep(g: Layout, d0: seq<byte>, sh: Shape, budget: nat, torn: nat -> byte)
    requires g.Fits(d0) && Intact(g, d0) && |sh.t| == g.ArraySize()
    ensures var d := Assembled(g, d0, sh);
      g.Fits(d) && Perform(d, g.blk, BackupWrites(g, d), budget, torn).disk
      == if budget == 0 then d
         else if budget == 1 then Assembled(g, d0, sh.(pri := true))
         else Assembled(g, d0, sh.(pri := true, sec := false))
  {
    hide Patch, Assembled, StateWrite, Layout.Fits, Layout.Wf, Intact;
    PlannedState(g, d0, sh, Primary, true);
    var d := Assembled(g, d0, sh);
    var w := StateWrite(g, d, Primary, true);
    PlannedState(g, d0, sh.(pri := true), Secondary, false);
    PerformTwo(d, g.blk, w, StateWrite(g, Patch(d, w.at, w.data), Secondary, false), budget, torn);
    StateStep(g, d0, sh, d, Primary, true, budget, torn);
    if budget > 0 {
      StateStep(g, d0, sh.(pri := true), Patch(d, w.at, w.data), Secondary, false, budget - 1, torn);
    }
  }

  /** MAIN and FINALIZE rebuild the secondary table and then change one header. */
  lemma RebuildStep(g: Layout, d0: seq<byte>, sh: Shape, chain: Chain, c: Copy, good: bool, budget: nat,
      torn: nat -> byte)
    returns (sh': Shape)
    requires g.Fits(d0) && Intact(g, d0) && |sh.t| == g.ArraySize()
    ensures |sh'.t| == g.ArraySize()
    ensures g.Fits(Assembled(g, d0, sh))
    ensures var d := Assembled(g, d0, sh);
      Perform(d, g.blk, ChainThenState(g, d, chain, c, good), budget, torn).disk == Assembled(g, d0, sh')
    ensures var e := ArrayFor(g, d0, chain);
      if budget >= 3
      then sh' == if c == Primary then Shape(good, sh.sec, g.crc(e), e) else Shape(sh.pri, good, g.crc(e), e)
      else sh'.pri == sh.pri && sh'.sec == sh.sec
  {
    hide Patch, Assembled, StateWrite, ChainWrites, Layout.Fits, Layout.Wf, Intact, Swapped;
    sh' := ChainStep(g, d0, sh, chain, budget, torn);
    var d := Assembled(g, d0, sh);
    var ws := ChainWrites(g, d, chain);
    AfterChain(g, d, chain);
    var whole := ChainStep(g, d0, sh, chain, 2, torn);
    var v := StateWrite(g, Apply(d, ws), c, good);
    PerformConcat(d, g.blk, ws, [v], budget, torn);
    StateStep(g, d0, whole, Apply(d, ws), c, good, if budget >= 2 then budget - 2 else 0, torn);
    if budget >= 3 {
      sh' := Restate(whole, c, good);
    }
  }

  /** Every call, whole or cut after any write, keeps the disk an assembled, safe one. */
  lemma CallStep(g: Layout, d0: seq<byte>, sh: Shape, stage: Stage, budget: nat, torn: nat -> byte) returns (sh': Shape)
    requires g.Fits(d0) && Intact(g, d0) && Safe(g, d0, sh)
    ensures Safe(g, d0, sh')
    ensures g.Fits(Assembled(g, d0, sh))
    ensures Called(g, Assembled(g, d0, sh), stage, budget, torn).disk == Assembled(g, d0, sh')
  {
    hide Assembled, StageOf, ChainThenState, BackupWrites, Perform, Swapped, Layout.Fits, Layout.Wf, Intact, HasPair;
    StageOfAssembled(g, d0, sh);
    sh' := sh;
    match stage {
      case UpdateMain =>
        if sh.pri && sh.sec && HasPair(g, d0) {
          sh' := RebuildStep(g, d0, sh, BackupBoot, Primary, false, budget, torn);
        }
      case UpdateBackup =>
        if !sh.pri {
          BackupStep(g, d0, sh, budget, torn);
          if budget > 0 {
            sh' := if budget == 1 then sh.(pri := true) else sh.(pri := true, sec := false);
          }
        }
      case UpdateFinalize =>
        if sh.pri && !sh.sec {
          sh' := RebuildStep(g, d0, sh, NormalBoot, Secondary, true, budget, torn);
        }
    }
  }

  // ---------- whole runs ----------

  datatype Call = Call(stage: Stage, budget: nat, torn: nat -> byte)

  /** Any sequence of calls, each one whole or cut; a restart is the next call. */
  ghost function Run(g: Layout, d: seq<byte>, calls: seq<Call>): (r: seq<byte>)
    requires g.Fits(d)
    ensures g.Fits(r)
    decreases |calls|
  {
    if calls == [] then d
    else Run(g, Called(g, d, calls[0].stage, calls[0].budget, calls[0].torn).disk, calls[1..])
  }

  lemma {:induction false} RunShape(g: Layout, d0: seq<byte>, sh: Shape, calls: seq<Call>) returns (sh': Shape)
    requires g.Fits(d0) && Intact(g, d0) && Safe(g, d0, sh)
    ensures Safe(g, d0, sh')
    ensures g.Fits(Assembled(g, d0, sh)) && Run(g, Assembled(g, d0, sh), calls) == Assembled(g, d0, sh')
    decreases |calls|
  {
    hide Assembled, Called, Safe, Layout.Fits, Intact;
    if calls == [] {
      StageOfAssembled(g, d0, sh);
      sh' := sh;
    } else {
      var next := CallStep(g, d0, sh, calls[0].stage, calls[0].budget, calls[0].torn);
      sh' := RunShape(g, d0, next, calls[1..]);
    }
  }

  lemma RunFromIntact(g: Layout, d0: seq<byte>, calls: seq<Call>) returns (sh: Shape)
    requires g.Fits(d0) && Intact(g, d0)
    ensures Safe(g, d0, sh) && Run(g, d0, calls) == Assembled(g, d0, sh)
  {
    hide Assembled, Run, Layout.Fits;
    AssembledOriginal(g, d0);
    sh := RunShape(g, d0, Start(g, d0), calls);
  }

  /** At every write boundary of every run no header has a wrong checksum, the stage is
      decided, and one copy of the table is fully valid: the original or the exchanged one. */
  lemma CrashSafety(g: Layout, d0: seq<byte>, calls: seq<Call>)
    requires g.Fits(d0) && Intact(g, d0)
    ensures var d := Run(g, d0, calls);
      && StateOf(g.crc, g.Header(d, Primary)) != BadCrc && StateOf(g.crc, g.Header(d, Secondary)) != BadCrc
      && StageOf(g, d).0
      && (TableValid(g, d, Primary)
          || (TableValid(g, d, Secondary) && g.Array(d, Secondary) == Swapped(g.Array(d0, Primary), g.names)))
      && g.Array(d, Primary) == g.Array(d0, Primary)
  {
    hide Run, Assembled, Get4, StateOf, Swapped, Layout.Fits;
    var sh := RunFromIntact(g, d0, calls);
    AssembledStates(g, d0, sh);
  }

  /** The stages from `from` on, each called without a cut; the flag says that every call returned 0. */
  ghost function Continue(g: Layout, d: seq<byte>, from: Stage, torn: nat -> byte): (seq<byte>, bool)
    requires g.Fits(d)
    decreases 3 - from.Number()
  {
    hide Layout.Fits, CallPlan, Carried;
    var o := Called(g, d, from, 3, torn);
    if o.result != 0 then (o.disk, false)
    else match from
      case UpdateMain => Continue(g, o.disk, UpdateBackup, torn)
      case UpdateBackup => Continue(g, o.disk, UpdateFinalize, torn)
      case UpdateFinalize => (o.disk, true)
  }

  lemma FinishFinalize(g: Layout, d0: seq<byte>, sh: Shape, torn: nat -> byte)
    requires g.Fits(d0) && Intact(g, d0) && Safe(g, d0, sh) && sh.pri && !sh.sec
    ensures g.Fits(Assembled(g, d0, sh))
    ensures Continue(g, Assembled(g, d0, sh), UpdateFinalize, torn) == (d0, true)
  {
    hide Assembled, StageOf, ChainThenState, Perform, Layout.Fits, Layout.Wf, Intact;
    StageOfAssembled(g, d0, sh);
    var sh' := RebuildStep(g, d0, sh, NormalBoot, Secondary, true, 3, torn);
    AssembledOriginal(g, d0);
  }

  lemma FinishBackup(g: Layout, d0: seq<byte>, sh: Shape, torn: nat -> byte)
    requires g.Fits(d0) && Intact(g, d0) && Safe(g, d0, sh) && !sh.pri
    ensures g.Fits(Assembled(g, d0, sh))
    ensures Continue(g, Assembled(g, d0, sh), UpdateBackup, torn) == (d0, true)
  {
    hide Assembled, StageOf, BackupWrites, Perform, Layout.Fits, Layout.Wf, Intact;
    StageOfAssembled(g, d0, sh);
    BackupStep(g, d0, sh, 3, torn);
    FinishFinalize(g, d0, sh.(pri := true, sec := false), torn);
  }

  lemma FinishMain(g: Layout, d0: seq<byte>, sh: Shape, torn: nat -> byte)
    requires g.Fits(d0) && Intact(g, d0) && Safe(g, d0, sh) && sh.pri && sh.sec && HasPair(g, d0)
    ensures g.Fits(Assembled(g, d0, sh))
    ensures Continue(g, Assembled(g, d0, sh), UpdateMain, torn) == (d0, true)
  {
    hide Assembled, StageOf, ChainThenState, Perform, Layout.Fits, Layout.Wf, Intact, HasPair, SwappedEntries;
    StageOfAssembled(g, d0, sh);
    var sh' := RebuildStep(g, d0, sh, BackupBoot, Primary, false, 3, torn);
    FinishBackup(g, d0, sh', torn);
  }

  /** From any crash point of any run, continuing from the stage the headers decode to ends
      with every byte of the original disk back, provided one boot partition has a backup. */
  lemma CrashResumption(g: Layout, d0: seq<byte>, calls: seq<Call>, torn: nat -> byte)
    requires g.Fits(d0) && Intact(g, d0) && HasPair(g, d0)
    ensures var d := Run(g, d0, calls);
      StageOf(g, d).0 && Continue(g, d, StageOf(g, d).1, torn) == (d0, true)
  {
    hide Run, Assembled, StageOf, Continue, Layout.Fits, Intact, HasPair;
    var sh := RunFromIntact(g, d0, calls);
    StageOfAssembled(g, d0, sh);
    if sh.pri && sh.sec {
      FinishMain(g, d0, sh, torn);
    } else if !sh.pri {
      FinishBackup(g, d0, sh, torn);
    } else {
      FinishFinalize(g, d0, sh, torn);
    }
  }

  /** MAIN, BACKUP, FINALIZE on an intact disk all succeed exactly when there is a pair to exchange;
      then every byte is restored. */
  lemma FullCycle(g: Layout, d0: seq<byte>, torn: nat -> byte)
    requires g.Fits(d0) && Intact(g, d0)
    ensures Continue(g, d0, UpdateMain, torn) == (d0, HasPair(g, d0))
  {
    hide Assembled, ChainThenState, Perform, Layout.Fits, Layout.Wf, HasPair, StateOf, Get4;
    AssembledOriginal(g, d0);
    var sh := Start(g, d0);
    StageOfAssembled(g, d0, sh);
    if HasPair(g, d0) {
      FinishMain(g, d0, sh, torn);
    }
  }

  /** Without a pair nothing is ever written. */
  lemma {:induction false} NoPairNoWrite(g: Layout, d0: seq<byte>, calls: seq<Call>)
    requires g.Fits(d0) && Intact(g, d0) && !HasPair(g, d0)
    ensures Run(g, d0, calls) == d0
    decreases |calls|
  {
    if calls != [] {
      QuietCall(g, d0, calls[0]);
      NoPairNoWrite(g, d0, calls[1..]);
    }
  }

  lemma QuietCall(g: Layout, d0: seq<byte>, call: Call)
    requires g.Fits(d0) && Intact(g, d0) && !HasPair(g, d0)
    ensures Called(g, d0, call.stage, call.budget, call.torn).disk == d0
  {
    hide Layout.Fits, HasPair, StateOf, Get4, Perform;
  }

  /** What a completed MAIN and a completed BACKUP leave to boot from: exactly one valid copy each. */
  lemma WhatBoots(g: Layout, d0: seq<byte>, torn: nat -> byte)
    requires g.Fits(d0) && Intact(g, d0) && HasPair(g, d0)
    ensures var d := Called(g, d0, UpdateMain, 3, torn).disk;
      && !TableValid(g, d, Primary) && TableValid(g, d, Secondary)
      && g.Array(d, Secondary) == Swapped(g.Array(d0, Primary), g.names)
    ensures var d := Called(g, Called(g, d0, UpdateMain, 3, torn).disk, UpdateBackup, 2, torn).disk;
      && TableValid(g, d, Primary) && !TableValid(g, d, Secondary)
      && g.Array(d, Primary) == g.Array(d0, Primary)
  {
    hide Assembled, StageOf, StateOf, Get4, ChainThenState, BackupWrites, Perform, Swapped, Layout.Fits, Layout.Wf;
    hide HasPair;
    AssembledOriginal(g, d0);
    var sh := Start(g, d0);
    StageOfAssembled(g, d0, sh);
    var main := RebuildStep(g, d0, sh, BackupBoot, Primary, false, 3, torn);
    AssembledStates(g, d0, main);
    StageOfAssembled(g, d0, main);
    BackupStep(g, d0, main, 2, torn);
    AssembledStates(g, d0, main.(pri := true, sec := false));
  }

  /** Repeating a completed MAIN or BACKUP succeeds without a write; repeating FINALIZE fails without a write. */
  lemma RepeatedStages(g: Layout, d0: seq<byte>, budget: nat, torn: nat -> byte)
    requires g.Fits(d0) && Intact(g, d0) && HasPair(g, d0)
    ensures var d := Called(g, d0, UpdateMain, 3, torn).disk;
      Called(g, d, UpdateMain, budget, torn) == Outcome(d, budget, 0)
    ensures var d := Called(g, Called(g, d0, UpdateMain, 3, torn).disk, UpdateBackup, 2, torn).disk;
      Called(g, d, UpdateBackup, budget, torn) == Outcome(d, budget, 0)
    ensures Called(g, d0, UpdateFinalize, budget, torn) == Outcome(d0, budget, -1)
  {
    hide Assembled, StageOf, StateOf, Get4, ChainThenState, BackupWrites, Perform, Swapped, Layout.Fits, Layout.Wf;
    hide HasPair;
    AssembledOriginal(g, d0);
    var sh := Start(g, d0);
    StageOfAssembled(g, d0, sh);
    var main := RebuildStep(g, d0, sh, BackupBoot, Primary, false, 3, torn);
    StageOfAssembled(g, d0, main);
    BackupStep(g, d0, main, 2, torn);
    StageOfAssembled(g, d0, main.(pri := true, sec := false));
  }
}
