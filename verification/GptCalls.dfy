/** What each update call returns, writes and leaves behind, on every disk with a layout, by the states of its two
    headers alone. */
module GptCalls {
  import opened Bytes
  import opened GptHeader
  import opened BootChain
  import opened GptDisk

  // ---------- cut calls ----------

  /** A call cut after `budget` writes has made exactly those, in order, and torn the next. */
  lemma {:induction false} CutAfter(d: seq<byte>, blk: nat, ws: seq<Write>, budget: nat, torn: nat -> byte)
    requires InBounds(ws, |d|) && budget < |ws|
    ensures InBounds(ws[..budget], |d|)
    ensures Perform(d, blk, ws, budget, torn)
            == Outcome(Tear(Apply(d, ws[..budget]), blk, ws[budget], torn), 0, -1)
    decreases |ws|
  {
    if budget > 0 {
      assert forall i :: 0 <= i < |ws[1..]| ==> ws[1..][i] == ws[i + 1];
      assert ws[..budget][1..] == ws[1..][..budget - 1];
      CutAfter(Patch(d, ws[0].at, ws[0].data), blk, ws[1..], budget - 1, torn);
    }
  }

  /** A torn write of one block has not happened; a longer one can have left anything in its region, and nothing
      elsewhere. */
  lemma TornHoldsAnything(d: seq<byte>, blk: nat, w: Write, x: seq<byte>) returns (torn: nat -> byte)
    requires w.at + |w.data| <= |d| && |x| == |w.data|
    ensures Tear(d, blk, w, torn) == if |w.data| <= blk then d else Patch(d, w.at, x)
  {
    torn := i => if w.at <= i < w.at + |x| then x[i - w.at] else 0;
    assert seq(|w.data|, i requires 0 <= i => torn(w.at + i)) == x;
  }

  // ---------- the writes of the three stages ----------

  /** The secondary header for the entries `e`, those entries, and then one header. */
  ghost function ThreeWrites(g: Layout, d: seq<byte>, e: seq<byte>, c: Copy, last: seq<byte>): (ws: seq<Write>)
    requires g.Fits(d) && |e| == g.ArraySize() && |last| == g.blk
    ensures InBounds(ws, |d|) && |ws| == 3
  {
    [Write(g.HeaderAt(Secondary), WithEntryCrc(g.crc, g.Header(d, Secondary), g.crc(e))),
     Write(g.secEntries, e),
     Write(g.HeaderAt(c), last)]
  }

  ghost function TwoWrites(g: Layout, d: seq<byte>, pri: seq<byte>, sec: seq<byte>): (ws: seq<Write>)
    requires g.Fits(d) && |pri| == g.blk && |sec| == g.blk
    ensures InBounds(ws, |d|) && |ws| == 2
  {
    [Write(g.HeaderAt(Primary), pri), Write(g.HeaderAt(Secondary), sec)]
  }

  lemma MainWrites(g: Layout, d: seq<byte>)
    requires g.Fits(d)
    ensures var h := g.Header(d, Primary);
      ChainThenState(g, d, BackupBoot, Primary, false)
      == ThreeWrites(g, d, Swapped(g.Array(d, Primary), g.names), Primary, Spoil(g.crc, h))
  {
    AfterChain(g, d, BackupBoot);
    hide Layout.Fits, Layout.Wf, Layout.Header, Layout.Array, Swapped, Spoil, Mend, WithEntryCrc, Apply;
  }

  /** The secondary header for the primary entries, mended. */
  ghost function FinalHeader(g: Layout, d: seq<byte>): (h: seq<byte>)
    requires g.Fits(d)
    ensures |h| == g.blk
  {
    Mend(g.crc, WithEntryCrc(g.crc, g.Header(d, Secondary), g.crc(g.Array(d, Primary))))
  }

  lemma FinalizeWrites(g: Layout, d: seq<byte>)
    requires g.Fits(d)
    ensures var e := g.Array(d, Primary);
      ChainThenState(g, d, NormalBoot, Secondary, true)
      == ThreeWrites(g, d, e, Secondary, FinalHeader(g, d))
  {
    AfterChain(g, d, NormalBoot);
    hide Layout.Fits, Layout.Wf, Layout.Header, Layout.Array, Swapped, Spoil, Mend, WithEntryCrc, Apply;
  }

  lemma BackupIsTwo(g: Layout, d: seq<byte>)
    requires g.Fits(d)
    ensures BackupWrites(g, d)
         == TwoWrites(g, d, Mend(g.crc, g.Header(d, Primary)), Spoil(g.crc, g.Header(d, Secondary)))
  {
    AfterState(g, d, Primary, true);
    HeaderPatch(g, d, Primary, Mend(g.crc, g.Header(d, Primary)));
    hide Layout.Wf, Layout.Header, Layout.Describes, Spoil, Mend, Patch;
  }

  // ---------- the table of calls ----------

  /** What a call carries out, by the two states. */
  lemma TurnOf(g: Layout, d: seq<byte>, stage: Stage, budget: nat, torn: nat -> byte)
    requires g.Fits(d)
    ensures var pri, sec := StateOf(g.crc, g.Header(d, Primary)), StateOf(g.crc, g.Header(d, Secondary));
      Called(g, d, stage, budget, torn) ==
        if pri == BadCrc || sec == BadCrc || (pri == BadSignature && sec == BadSignature) then Outcome(d, budget, -1)
        else if (stage == UpdateMain && pri == Ok && sec == Ok) || (stage == UpdateBackup && pri == BadSignature)
                || (stage == UpdateFinalize && pri == Ok && sec == BadSignature)
        then Carried(g, StagePlan(g, d, stage), d, budget, torn)
        else if (stage == UpdateMain && pri == BadSignature)
                || (stage == UpdateBackup && pri == Ok && sec == BadSignature)
        then Outcome(d, budget, 0)
        else Outcome(d, budget, -1)
  {
    hide StateOf, Layout.Fits, Layout.Header, StagePlan, Perform, PrimaryArrayValid, HasPair;
  }

  /** Two BAD_SIGNATURE headers, or one BAD_CRC, refuse every call. */
  lemma BrokenRefuses(g: Layout, d: seq<byte>, stage: Stage, budget: nat, torn: nat -> byte)
    requires g.Fits(d)
    requires var pri, sec := StateOf(g.crc, g.Header(d, Primary)), StateOf(g.crc, g.Header(d, Secondary));
      pri == BadCrc || sec == BadCrc || (pri == BadSignature && sec == BadSignature)
    ensures Called(g, d, stage, budget, torn) == Outcome(d, budget, -1)
  {
    TurnOf(g, d, stage, budget, torn);
    hide *;
  }

  /** Both headers good: only MAIN goes on. It refuses primary entries with a wrong checksum, has nothing to do
      without a listed pair, and else rebuilds the secondary table with the pairs exchanged and spoils the primary. */
  lemma WhenBothGood(g: Layout, list: seq<string>, ufs: bool, d: seq<byte>, stage: Stage, budget: nat,
      torn: nat -> byte)
    returns (e: seq<byte>)
    requires g.Fits(d) && Separate(list) && g.names == Visited(list, ufs)
    requires StateOf(g.crc, g.Header(d, Primary)) == Ok && StateOf(g.crc, g.Header(d, Secondary)) == Ok
    ensures var o, h, a := Called(g, d, stage, budget, torn), g.Header(d, Primary), g.Array(d, Primary);
      && |e| == g.ArraySize() && ExchangesListed(Entries(a), Entries(e), list, ufs)
      && (stage != UpdateMain ==> o == Outcome(d, budget, -1))
      && (stage == UpdateMain && g.crc(a) != Get4(h, PARTITION_CRC_OFFSET) ==> o == Outcome(d, budget, -1))
      && (stage == UpdateMain && g.crc(a) == Get4(h, PARTITION_CRC_OFFSET) ==>
            o == if !ListedPair(Entries(a), list, ufs) then Outcome(d, budget, 0)
                 else Perform(d, g.blk, ThreeWrites(g, d, e, Primary, Spoil(g.crc, h)), budget, torn))
  {
    e := PairsSwapped(g, list, ufs, d);
    MainPlan(g, list, ufs, d, budget, torn);
    hide *;
    TurnOf(g, d, stage, budget, torn);
  }

  lemma PairsSwapped(g: Layout, list: seq<string>, ufs: bool, d: seq<byte>) returns (e: seq<byte>)
    requires g.Fits(d) && Separate(list) && g.names == Visited(list, ufs)
    ensures e == Swapped(g.Array(d, Primary), g.names) && |e| == g.ArraySize()
    ensures ExchangesListed(Entries(g.Array(d, Primary)), Entries(e), list, ufs)
    ensures HasPair(g, d) <==> ListedPair(Entries(g.Array(d, Primary)), list, ufs)
  {
    var a := g.Array(d, Primary);
    var es := Entries(a);
    e := Swapped(a, g.names);
    hide Layout.Array, ListedPair, ExchangesListed, Separate, Visited, Entries, SwapNames, Flatten, AnyTwins;
    PassExchanges(es, list, ufs);
    TwinsAreListed(es, list, ufs);
    SwappedIs(a, g.names);
    EntriesOfFlatten(SwapNames(es, g.names));
  }

  lemma MainPlan(g: Layout, list: seq<string>, ufs: bool, d: seq<byte>, budget: nat, torn: nat -> byte)
    requires g.Fits(d) && Separate(list) && g.names == Visited(list, ufs)
    ensures var h, a := g.Header(d, Primary), g.Array(d, Primary);
      Carried(g, StagePlan(g, d, UpdateMain), d, budget, torn) ==
        if g.crc(a) != Get4(h, PARTITION_CRC_OFFSET) then Outcome(d, budget, -1)
        else if !ListedPair(Entries(a), list, ufs) then Outcome(d, budget, 0)
        else Perform(d, g.blk, ThreeWrites(g, d, Swapped(a, g.names), Primary, Spoil(g.crc, h)), budget, torn)
  {
    MainWrites(g, d);
    var e := PairsSwapped(g, list, ufs, d);
    hide StateOf, Layout.Fits, Layout.Header, Layout.Array, Perform, Swapped, HasPair, ListedPair, Separate, Visited,
        ChainThenState, ThreeWrites, Get4, Entries, Spoil, ExchangesListed;
  }

  /** The primary header spoiled: MAIN is done already, BACKUP mends the primary and spoils the secondary, FINALIZE
      is out of turn. */
  lemma WhenPrimarySpoiled(g: Layout, d: seq<byte>, stage: Stage, budget: nat, torn: nat -> byte)
    requires g.Fits(d)
    requires StateOf(g.crc, g.Header(d, Primary)) == BadSignature && StateOf(g.crc, g.Header(d, Secondary)) == Ok
    ensures Called(g, d, stage, budget, torn) ==
      match stage
      case UpdateMain => Outcome(d, budget, 0)
      case UpdateBackup =>
        var ws := TwoWrites(g, d, Mend(g.crc, g.Header(d, Primary)), Spoil(g.crc, g.Header(d, Secondary)));
        Perform(d, g.blk, ws, budget, torn)
      case UpdateFinalize => Outcome(d, budget, -1)
  {
    hide *;
    TurnOf(g, d, stage, budget, torn);
    BackupPlan(g, d, budget, torn);
  }

  lemma BackupPlan(g: Layout, d: seq<byte>, budget: nat, torn: nat -> byte)
    requires g.Fits(d)
    ensures var ws := TwoWrites(g, d, Mend(g.crc, g.Header(d, Primary)), Spoil(g.crc, g.Header(d, Secondary)));
      Carried(g, StagePlan(g, d, UpdateBackup), d, budget, torn) == Perform(d, g.blk, ws, budget, torn)
  {
    BackupIsTwo(g, d);
    hide StateOf, Layout.Fits, Layout.Header, Perform, TwoWrites, BackupWrites, Mend, Spoil;
  }

  /** The secondary header spoiled: MAIN is out of turn, BACKUP is done already, FINALIZE refuses primary entries
      with a wrong checksum and else rebuilds the secondary table from the primary one and mends it. */
  lemma WhenSecondarySpoiled(g: Layout, d: seq<byte>, stage: Stage, budget: nat, torn: nat -> byte)
    requires g.Fits(d)
    requires StateOf(g.crc, g.Header(d, Primary)) == Ok && StateOf(g.crc, g.Header(d, Secondary)) == BadSignature
    ensures Called(g, d, stage, budget, torn) ==
      match stage
      case UpdateMain => Outcome(d, budget, -1)
      case UpdateBackup => Outcome(d, budget, 0)
      case UpdateFinalize =>
        var e := g.Array(d, Primary);
        if g.crc(e) != Get4(g.Header(d, Primary), PARTITION_CRC_OFFSET) then Outcome(d, budget, -1)
        else Perform(d, g.blk, ThreeWrites(g, d, e, Secondary, FinalHeader(g, d)), budget, torn)
  {
    hide *;
    TurnOf(g, d, stage, budget, torn);
    FinalizePlan(g, d, budget, torn);
  }

  lemma FinalizePlan(g: Layout, d: seq<byte>, budget: nat, torn: nat -> byte)
    requires g.Fits(d)
    ensures var e := g.Array(d, Primary);
      Carried(g, StagePlan(g, d, UpdateFinalize), d, budget, torn) ==
        if g.crc(e) != Get4(g.Header(d, Primary), PARTITION_CRC_OFFSET) then Outcome(d, budget, -1)
        else Perform(d, g.blk, ThreeWrites(g, d, e, Secondary, FinalHeader(g, d)), budget, torn)
  {
    hide StateOf, Layout.Fits, Layout.Wf, Layout.Header, Layout.Array, Perform, ThreeWrites, ChainThenState,
        FinalHeader, Get4, BackupWrites, HasPair;
    FinalizeWrites(g, d);
  }

  // ---------- what whole calls leave behind ----------

  lemma ThreeWritten(g: Layout, d: seq<byte>, e: seq<byte>, c: Copy, last: seq<byte>)
    requires g.Fits(d) && |e| == g.ArraySize() && |last| == g.blk
    ensures var d' := Apply(d, ThreeWrites(g, d, e, c, last));
      && |d'| == g.size && g.Header(d', c) == last
      && (c == Primary ==> g.Header(d', Secondary) == WithEntryCrc(g.crc, g.Header(d, Secondary), g.crc(e)))
      && (c == Secondary ==> g.Header(d', Primary) == g.Header(d, Primary))
      && g.Array(d', Primary) == g.Array(d, Primary) && g.Array(d', Secondary) == e
  {
    var h := WithEntryCrc(g.crc, g.Header(d, Secondary), g.crc(e));
    var d1 := Patch(d, g.HeaderAt(Secondary), h);
    var d2 := Patch(d1, g.secEntries, e);
    hide WithEntryCrc, Patch, Layout.Header, Layout.Array, Layout.Wf, Layout.Describes;
    ApplyThree(d, Write(g.HeaderAt(Secondary), h), Write(g.secEntries, e), Write(g.HeaderAt(c), last));
    HeaderPatch(g, d, Secondary, h);
    ArrayPatch(g, d1, e);
    HeaderPatch(g, d2, c, last);
  }

  lemma ApplyThree(d: seq<byte>, w: Write, v: Write, u: Write)
    requires w.at + |w.data| <= |d| && v.at + |v.data| <= |d| && u.at + |u.data| <= |d|
    ensures Apply(d, [w, v, u]) == Patch(Patch(Patch(d, w.at, w.data), v.at, v.data), u.at, u.data)
  {
    hide Patch;
    assert [w, v, u][1..] == [v, u];
    ApplyTwo(Patch(d, w.at, w.data), v, u);
  }

  lemma TwoWritten(g: Layout, d: seq<byte>, pri: seq<byte>, sec: seq<byte>)
    requires g.Fits(d) && |pri| == g.blk && |sec| == g.blk
    ensures var d' := Apply(d, TwoWrites(g, d, pri, sec));
      && |d'| == g.size && g.Header(d', Primary) == pri && g.Header(d', Secondary) == sec
      && g.Array(d', Primary) == g.Array(d, Primary) && g.Array(d', Secondary) == g.Array(d, Secondary)
  {
    var d1 := Patch(d, g.HeaderAt(Primary), pri);
    hide Patch, Layout.Header, Layout.Array, Layout.Wf, Layout.Describes;
    ApplyTwo(d, Write(g.HeaderAt(Primary), pri), Write(g.HeaderAt(Secondary), sec));
    HeaderPatch(g, d, Primary, pri);
    HeaderPatch(g, d1, Secondary, sec);
  }

  /** MAIN leaves the primary spoiled and the secondary good, with the listed pairs exchanged and their checksum. */
  lemma MainLeaves(g: Layout, list: seq<string>, ufs: bool, d: seq<byte>, budget: nat, torn: nat -> byte)
    requires g.Fits(d) && Separate(list) && g.names == Visited(list, ufs) && budget >= 3
    requires StateOf(g.crc, g.Header(d, Primary)) == Ok && StateOf(g.crc, g.Header(d, Secondary)) == Ok
    requires g.crc(g.Array(d, Primary)) == Get4(g.Header(d, Primary), PARTITION_CRC_OFFSET)
    requires ListedPair(Entries(g.Array(d, Primary)), list, ufs)
    ensures var o := Called(g, d, UpdateMain, budget, torn);
      && o.result == 0 && |o.disk| == g.size && g.Fits(o.disk)
      && StateOf(g.crc, g.Header(o.disk, Primary)) == BadSignature
      && StateOf(g.crc, g.Header(o.disk, Secondary)) == Ok
      && g.Array(o.disk, Primary) == g.Array(d, Primary)
      && ExchangesListed(Entries(g.Array(d, Primary)), Entries(g.Array(o.disk, Secondary)), list, ufs)
      && Get4(g.Header(o.disk, Secondary), PARTITION_CRC_OFFSET) == g.crc(g.Array(o.disk, Secondary))
  {
    var e := WhenBothGood(g, list, ufs, d, UpdateMain, budget, torn);
    var h := Spoil(g.crc, g.Header(d, Primary));
    OkIsSigned(g.crc, g.Header(d, Secondary));
    hide Spoil, WithEntryCrc, Layout.Header, Layout.Array, Layout.Wf, StateOf, Called, Apply, ThreeWrites, Signed,
        ListedPair, ExchangesListed, Entries, Visited, Separate, Get4, Get8, Shaped;
    EditedStates(g.crc, g.Header(d, Primary), 0);
    EditedStates(g.crc, g.Header(d, Secondary), g.crc(e));
    ThreeWritten(g, d, e, Primary, h);
  }

  lemma OkIsSigned(crc: Crc, h: seq<byte>)
    requires Shaped(h)
    ensures StateOf(crc, h) == Ok ==> Signed(h)
  {
  }

  /** BACKUP leaves the primary good, the secondary spoiled, and all entries as they were. */
  lemma BackupLeaves(g: Layout, d: seq<byte>, budget: nat, torn: nat -> byte)
    requires g.Fits(d) && budget >= 2
    requires StateOf(g.crc, g.Header(d, Primary)) == BadSignature && StateOf(g.crc, g.Header(d, Secondary)) == Ok
    ensures var o := Called(g, d, UpdateBackup, budget, torn);
      && o.result == 0 && |o.disk| == g.size && g.Fits(o.disk)
      && StateOf(g.crc, g.Header(o.disk, Primary)) == Ok
      && StateOf(g.crc, g.Header(o.disk, Secondary)) == BadSignature
      && g.Array(o.disk, Primary) == g.Array(d, Primary) && g.Array(o.disk, Secondary) == g.Array(d, Secondary)
  {
    hide Spoil, Mend, Layout.Header, Layout.Array, StateOf, Called, Apply, TwoWrites, Get4, Get8, Shaped;
    WhenPrimarySpoiled(g, d, UpdateBackup, budget, torn);
    EditedStates(g.crc, g.Header(d, Primary), 0);
    EditedStates(g.crc, g.Header(d, Secondary), 0);
    TwoWritten(g, d, Mend(g.crc, g.Header(d, Primary)), Spoil(g.crc, g.Header(d, Secondary)));
  }

  /** FINALIZE leaves both good, with the primary entries in both tables. */
  lemma FinalizeLeaves(g: Layout, d: seq<byte>, budget: nat, torn: nat -> byte)
    requires g.Fits(d) && budget >= 3
    requires StateOf(g.crc, g.Header(d, Primary)) == Ok && StateOf(g.crc, g.Header(d, Secondary)) == BadSignature
    requires g.crc(g.Array(d, Primary)) == Get4(g.Header(d, Primary), PARTITION_CRC_OFFSET)
    ensures var o := Called(g, d, UpdateFinalize, budget, torn);
      && o.result == 0 && |o.disk| == g.size && g.Fits(o.disk)
      && StateOf(g.crc, g.Header(o.disk, Primary)) == Ok && StateOf(g.crc, g.Header(o.disk, Secondary)) == Ok
      && g.Array(o.disk, Primary) == g.Array(d, Primary) && g.Array(o.disk, Secondary) == g.Array(d, Primary)
  {
    hide Spoil, Mend, WithEntryCrc, Layout.Header, Layout.Array, StateOf, Called, Apply, ThreeWrites, Get4,
        Get8, Shaped;
    var e := g.Array(d, Primary);
    WhenSecondarySpoiled(g, d, UpdateFinalize, budget, torn);
    EditedStates(g.crc, g.Header(d, Secondary), g.crc(e));
    var h := WithEntryCrc(g.crc, g.Header(d, Secondary), g.crc(e));
    EditedStates(g.crc, h, 0);
    ThreeWritten(g, d, e, Secondary, Mend(g.crc, h));
  }
}
