/** Exchanging each boot partition's table entry with the entry of its backup twin. */
module BootChain {
  import opened Bytes

  const PTN_ENTRY_SIZE := 128
  const PARTITION_NAME_OFFSET := 56
  const NAME_UNITS := 36
  const BAK_PTN_NAME_EXT := "bak"
  const PTN_XBL := "xbl"
  const PTN_SWAP_LIST: seq<string> :=
    ["xbl", "sbl1", "rpm", "tz", "aboot", "hyp", "lksecapp", "keymaster", "cmnlib", "cmnlib32", "cmnlib64",
     "pmic", "apdp", "devcfg", "hosd", "keystore", "msadp", "abl", "mdtpsecapp", "mdtp"]

  type Entry = e: seq<byte> | |e| == PTN_ENTRY_SIZE witness seq(PTN_ENTRY_SIZE, _ => 0)

  /** The low byte of the i-th UTF-16 unit of an entry's name. */
  function Unit(e: Entry, i: nat): byte
    requires i < NAME_UNITS
  {
    e[PARTITION_NAME_OFFSET + 2 * i]
  }

  /** The name field of `e` holds `s`, terminated, when read as bytes from unit `at` on. */
  predicate Holds(e: Entry, at: nat, s: string)
    requires at + |s| < NAME_UNITS
  {
    (forall i :: 0 <= i < |s| ==> Unit(e, at + i) == s[i] as int) && Unit(e, at + |s|) == 0
  }

  predicate ShortName(name: string) {
    0 < |name| && |name| + |BAK_PTN_NAME_EXT| < NAME_UNITS
    && forall i :: 0 <= i < |name| ==> 0 < name[i] as int < 0x80
  }

  /** The entry is called `name`, or `name` followed by the backup suffix. */
  predicate Matches(e: Entry, name: string)
    requires ShortName(name)
  {
    Holds(e, 0, name) || Holds(e, 0, name + BAK_PTN_NAME_EXT)
  }

  /** Names no entry can match two of. */
  ghost predicate Separate(names: seq<string>) {
    && (forall k :: 0 <= k < |names| ==> ShortName(names[k]))
    && (forall k, l :: 0 <= k < |names| && 0 <= l < |names| && k != l ==>
          names[k] != names[l] && names[k] != names[l] + BAK_PTN_NAME_EXT)
  }

  /** First position from `from` on whose entry matches, or the length. */
  function Seek(es: seq<Entry>, name: string, from: nat): (r: nat)
    requires ShortName(name) && from <= |es|
    ensures from <= r <= |es|
    ensures r < |es| ==> Matches(es[r], name)
    ensures forall k :: from <= k < r ==> !Matches(es[k], name)
    decreases |es| - from
  {
    if from == |es| || Matches(es[from], name) then from else Seek(es, name, from + 1)
  }

  /** The two positions a name is stored at: its first two matches. */
  function Twins(es: seq<Entry>, name: string): (r: (nat, nat))
    requires ShortName(name)
    ensures r.0 <= |es| && r.1 <= |es|
    ensures r.1 < |es| ==> r.0 < r.1 && Matches(es[r.0], name) && Matches(es[r.1], name)
  {
    var i := Seek(es, name, 0);
    (i, if i < |es| then Seek(es, name, i + 1) else i)
  }

  predicate HasTwins(es: seq<Entry>, name: string)
    requires ShortName(name)
  {
    Twins(es, name).1 < |es|
  }

  function SwapOne(es: seq<Entry>, name: string): (r: seq<Entry>)
    requires ShortName(name)
    ensures |r| == |es|
  {
    var (i, j) := Twins(es, name);
    if j < |es| then es[i := es[j]][j := es[i]] else es
  }

  /** One pass over a list of names. */
  function SwapNames(es: seq<Entry>, names: seq<string>): (r: seq<Entry>)
    requires forall k :: 0 <= k < |names| ==> ShortName(names[k])
    ensures |r| == |es|
    decreases |names|
  {
    if names == [] then es else SwapNames(SwapOne(es, names[0]), names[1..])
  }

  /** The listed names a pass visits: on UFS devices xbl is left to the boot LUN switch. */
  function Visited(list: seq<string>, ufs: bool): seq<string> {
    if list == [] then [] else
    var rest := Visited(list[1..], ufs);
    if ufs && PTN_XBL <= list[0] then rest else [list[0]] + rest
  }

  /** Where the entry that a pass leaves at position `p` comes from, read off the untouched array. */
  function Partner(es: seq<Entry>, names: seq<string>, p: nat): (q: nat)
    requires forall k :: 0 <= k < |names| ==> ShortName(names[k])
    requires p < |es|
    ensures q < |es|
  {
    if names == [] then p else
    var (i, j) := Twins(es, names[0]);
    if j < |es| && p == i then j
    else if j < |es| && p == j then i
    else Partner(es, names[1..], p)
  }

  // ---------- names ----------

  /** One name field cannot hold two different terminated names. */
  lemma HoldsOne(e: Entry, s: string, t: string)
    requires |s| < NAME_UNITS && |t| < NAME_UNITS && s != t
    requires forall i :: 0 <= i < |s| ==> 0 < s[i] as int < 0x80
    requires forall i :: 0 <= i < |t| ==> 0 < t[i] as int < 0x80
    ensures !(Holds(e, 0, s) && Holds(e, 0, t))
  {
    if Holds(e, 0, s) {
      if |s| < |t| {
        assert Unit(e, 0 + |s|) != t[|s|] as int;
      } else if |t| < |s| {
        assert Unit(e, 0 + |t|) == s[|t|] as int;
      } else {
        var i :| 0 <= i < |s| && s[i] != t[i];
        assert Unit(e, 0 + i) == s[i] as int;
      }
    }
  }

  /** An entry never matches two names of which neither is the other or its backup. */
  lemma MatchesOneName(e: Entry, x: string, y: string)
    requires ShortName(x) && ShortName(y)
    requires x != y && x != y + BAK_PTN_NAME_EXT && y != x + BAK_PTN_NAME_EXT
    ensures !(Matches(e, x) && Matches(e, y))
  {
    var xb, yb := x + BAK_PTN_NAME_EXT, y + BAK_PTN_NAME_EXT;
    assert x == xb[..|x|] && y == yb[..|y|];
    HoldsOne(e, x, y);
    HoldsOne(e, x, yb);
    HoldsOne(e, xb, y);
    HoldsOne(e, xb, yb);
  }

  /** Length, first and last letter: enough to tell the listed names apart. */
  predicate LookAlike(a: string, b: string) {
    |a| == |b| && (a == [] || (a[0] == b[0] && a[|a| - 1] == b[|b| - 1]))
  }

  lemma ListedNames(k: nat)
    requires k < |PTN_SWAP_LIST|
    ensures ShortName(PTN_SWAP_LIST[k]) && PTN_SWAP_LIST[k][|PTN_SWAP_LIST[k]| - 1] != 'k'
  {
  }

  lemma NoneLookAlike(k: nat, l: nat)
    requires k < l < |PTN_SWAP_LIST|
    ensures !LookAlike(PTN_SWAP_LIST[k], PTN_SWAP_LIST[l])
  {
  }

  /** The shipped list holds no name twice and never names one partition as another's backup. */
  lemma SwapListSeparate()
    ensures Separate(PTN_SWAP_LIST)
  {
    hide PTN_SWAP_LIST, ShortName;
    forall k | 0 <= k < |PTN_SWAP_LIST|
      ensures ShortName(PTN_SWAP_LIST[k])
    {
      ListedNames(k);
    }
    forall k, l | 0 <= k < |PTN_SWAP_LIST| && 0 <= l < |PTN_SWAP_LIST| && k != l
      ensures PTN_SWAP_LIST[k] != PTN_SWAP_LIST[l] && PTN_SWAP_LIST[k] != PTN_SWAP_LIST[l] + BAK_PTN_NAME_EXT
    {
      ListedNames(k);
      if k < l {
        NoneLookAlike(k, l);
      } else {
        NoneLookAlike(l, k);
      }
      EndsInSuffix(PTN_SWAP_LIST[l]);
    }
  }

  lemma EndsInSuffix(name: string)
    ensures var s := name + BAK_PTN_NAME_EXT; s[|s| - 1] == 'k'
  {
  }

  lemma SeparateTail(names: seq<string>)
    requires Separate(names) && names != []
    ensures Separate(names[1..])
  {
    forall k, l | 0 <= k < |names[1..]| && 0 <= l < |names[1..]| && k != l
      ensures names[1..][k] != names[1..][l] && names[1..][k] != names[1..][l] + BAK_PTN_NAME_EXT
    {
      assert names[k + 1] != names[l + 1] && names[k + 1] != names[l + 1] + BAK_PTN_NAME_EXT;
    }
  }

  /** A pass visits exactly the listed names that are not left out. */
  lemma {:induction false} VisitedIff(list: seq<string>, ufs: bool, name: string)
    ensures name in Visited(list, ufs) <==> name in list && !(ufs && "xbl" <= name)
    decreases |list|
  {
    if list != [] {
      VisitedIff(list[1..], ufs, name);
      assert list == [list[0]] + list[1..];
    }
  }

  lemma {:induction false} VisitedSeparate(list: seq<string>, ufs: bool)
    requires Separate(list)
    ensures Separate(Visited(list, ufs))
  {
    if list != [] {
      SeparateTail(list);
      VisitedSeparate(list[1..], ufs);
      var rest, r := Visited(list[1..], ufs), Visited(list, ufs);
      if r != rest {
        forall k | 0 <= k < |rest|
          ensures list[0] != rest[k] && list[0] != rest[k] + BAK_PTN_NAME_EXT && rest[k] != list[0] + BAK_PTN_NAME_EXT
        {
          VisitedIff(list[1..], ufs, rest[k]);
          var m :| 0 <= m < |list[1..]| && list[1..][m] == rest[k];
          assert list[m + 1] == rest[k];
        }
        assert forall k :: 0 < k < |r| ==> r[k] == rest[k - 1];
      }
    }
  }

  // ---------- what one pass does ----------

  /** Two arrays that agree on which positions match which names. */
  ghost predicate SameNames(es: seq<Entry>, fs: seq<Entry>, names: seq<string>)
    requires forall k :: 0 <= k < |names| ==> ShortName(names[k])
  {
    |es| == |fs| && forall k, p :: 0 <= k < |names| && 0 <= p < |es| ==>
      Matches(es[p], names[k]) == Matches(fs[p], names[k])
  }

  lemma {:induction false} SeekAgrees(es: seq<Entry>, fs: seq<Entry>, name: string, from: nat)
    requires ShortName(name) && |es| == |fs| && from <= |es|
    requires forall p :: 0 <= p < |es| ==> Matches(es[p], name) == Matches(fs[p], name)
    ensures Seek(es, name, from) == Seek(fs, name, from)
    decreases |es| - from
  {
    if from < |es| && !Matches(es[from], name) {
      SeekAgrees(es, fs, name, from + 1);
    }
  }

  lemma TwinsAgree(es: seq<Entry>, fs: seq<Entry>, name: string)
    requires ShortName(name) && |es| == |fs|
    requires forall p :: 0 <= p < |es| ==> Matches(es[p], name) == Matches(fs[p], name)
    ensures Twins(es, name) == Twins(fs, name)
  {
    SeekAgrees(es, fs, name, 0);
    var i := Seek(es, name, 0);
    if i < |es| {
      SeekAgrees(es, fs, name, i + 1);
    }
  }

  lemma {:induction false} PartnerAgrees(es: seq<Entry>, fs: seq<Entry>, names: seq<string>, p: nat)
    requires forall k :: 0 <= k < |names| ==> ShortName(names[k])
    requires SameNames(es, fs, names) && p < |es|
    ensures Partner(es, names, p) == Partner(fs, names, p)
  {
    if names != [] {
      TwinsAgree(es, fs, names[0]);
      PartnerAgrees(es, fs, names[1..], p);
    }
  }

  /** The partner carries the same listed name; an entry that matches no listed name is its own partner. */
  lemma {:induction false} PartnerMatches(es: seq<Entry>, names: seq<string>, p: nat)
    requires forall k :: 0 <= k < |names| ==> ShortName(names[k])
    requires p < |es|
    ensures Partner(es, names, p) == p
            || exists k :: 0 <= k < |names| && Matches(es[p], names[k]) && Matches(es[Partner(es, names, p)], names[k])
  {
    if names != [] {
      var (i, j) := Twins(es, names[0]);
      if !(j < |es| && (p == i || p == j)) {
        PartnerMatches(es, names[1..], p);
        if Partner(es, names, p) != p {
          var k :| 0 <= k < |names[1..]| && Matches(es[p], names[1..][k])
                   && Matches(es[Partner(es, names, p)], names[1..][k]);
          assert names[k + 1] == names[1..][k];
        }
      }
    }
  }

  /** Exchanging one pair leaves every listed name exactly where it was. */
  lemma SwapKeepsNames(es: seq<Entry>, names: seq<string>, n: nat)
    requires Separate(names) && n < |names|
    ensures SameNames(es, SwapOne(es, names[n]), names)
  {
    var fs := SwapOne(es, names[n]);
    var (i, j) := Twins(es, names[n]);
    forall k, p | 0 <= k < |names| && 0 <= p < |es|
      ensures Matches(es[p], names[k]) == Matches(fs[p], names[k])
    {
      if k != n && j < |es| {
        MatchesOneName(es[i], names[n], names[k]);
        MatchesOneName(es[j], names[n], names[k]);
      }
    }
  }

  /** A pass only moves entries, each one to where its partner was. */
  lemma {:induction false} SwapMovesToPartner(es: seq<Entry>, names: seq<string>, p: nat)
    requires Separate(names) && p < |es|
    ensures SwapNames(es, names)[p] == es[Partner(es, names, p)]
    decreases |names|
  {
    if names != [] {
      var fs := SwapOne(es, names[0]);
      var rest := names[1..];
      SeparateTail(names);
      SwapKeepsNames(es, names, 0);
      assert SameNames(es, fs, rest) by {
        assert forall k :: 0 <= k < |rest| ==> rest[k] == names[k + 1];
      }
      SwapMovesToPartner(fs, rest, p);
      PartnerAgrees(es, fs, rest, p);
      var (i, j) := Twins(es, names[0]);
      var q := Partner(es, rest, p);
      if j < |es| {
        PartnerMatches(es, rest, p);
        if q != p {
          var k :| 0 <= k < |rest| && Matches(es[p], rest[k]) && Matches(es[q], rest[k]);
          assert rest[k] == names[k + 1];
          MatchesOneName(es[p], names[0], names[k + 1]);
          MatchesOneName(es[q], names[0], names[k + 1]);
        }
      }
    }
  }

  lemma {:induction false} PartnerInvolution(es: seq<Entry>, names: seq<string>, p: nat)
    requires Separate(names) && p < |es|
    ensures Partner(es, names, Partner(es, names, p)) == p
    decreases |names|
  {
    if names != [] {
      var (i, j) := Twins(es, names[0]);
      var rest := names[1..];
      SeparateTail(names);
      if !(j < |es| && (p == i || p == j)) {
        var q := Partner(es, rest, p);
        PartnerMatches(es, rest, p);
        if q != p {
          var k :| 0 <= k < |rest| && Matches(es[p], rest[k]) && Matches(es[q], rest[k]);
          assert rest[k] == names[k + 1];
          MatchesOneName(es[q], names[0], names[k + 1]);
        }
        PartnerInvolution(es, rest, p);
      }
    }
  }

  /** After a pass every position still carries the listed name it carried before. */
  lemma SwapSameNames(es: seq<Entry>, names: seq<string>)
    requires Separate(names)
    ensures SameNames(es, SwapNames(es, names), names)
  {
    var fs := SwapNames(es, names);
    forall k, p | 0 <= k < |names| && 0 <= p < |es|
      ensures Matches(es[p], names[k]) == Matches(fs[p], names[k])
    {
      SwapMovesToPartner(es, names, p);
      PartnerMatches(es, names, p);
      var q := Partner(es, names, p);
      if q != p {
        var l :| 0 <= l < |names| && Matches(es[p], names[l]) && Matches(es[q], names[l]);
        if k != l {
          MatchesOneName(es[p], names[k], names[l]);
          MatchesOneName(es[q], names[k], names[l]);
        }
      }
    }
  }

  /** Two passes restore the array, and each is a permutation of it. */
  lemma SwapInvolution(es: seq<Entry>, names: seq<string>)
    requires Separate(names)
    ensures SwapNames(SwapNames(es, names), names) == es
  {
    var fs := SwapNames(es, names);
    forall p | 0 <= p < |es|
      ensures SwapNames(fs, names)[p] == es[p]
    {
      SwapSameNames(es, names);
      SwapMovesToPartner(fs, names, p);
      PartnerAgrees(es, fs, names, p);
      SwapMovesToPartner(es, names, Partner(es, names, p));
      PartnerInvolution(es, names, p);
    }
  }

  lemma {:induction false} SwapPermutes(es: seq<Entry>, names: seq<string>)
    requires forall k :: 0 <= k < |names| ==> ShortName(names[k])
    ensures multiset(SwapNames(es, names)) == multiset(es)
    decreases |names|
  {
    if names != [] {
      SwapPermutes(SwapOne(es, names[0]), names[1..]);
    }
  }

  /** Some listed name has a backup twin. */
  ghost predicate AnyTwins(es: seq<Entry>, names: seq<string>)
    requires forall k :: 0 <= k < |names| ==> ShortName(names[k])
  {
    exists k :: 0 <= k < |names| && HasTwins(es, names[k])
  }

  /** A pass that finds no twins changes nothing. */
  lemma {:induction false} NoTwinsNoChange(es: seq<Entry>, names: seq<string>)
    requires forall k :: 0 <= k < |names| ==> ShortName(names[k])
    requires !AnyTwins(es, names)
    ensures SwapNames(es, names) == es
    decreases |names|
  {
    if names != [] {
      assert !HasTwins(es, names[0]);
      assert forall k :: 0 <= k < |names[1..]| ==> names[1..][k] == names[k + 1];
      NoTwinsNoChange(es, names[1..]);
    }
  }

  // ---------- what a pass does, by the list and the untouched array alone ----------

  lemma {:induction false} VisitedSplit(list: seq<string>, ufs: bool, m: nat)
    requires m <= |list|
    ensures Visited(list, ufs) == Visited(list[..m], ufs) + Visited(list[m..], ufs)
    decreases m
  {
    if m > 0 {
      VisitedSplit(list[1..], ufs, m - 1);
      assert list[..m][1..] == list[1..][..m - 1] && list[1..][m - 1..] == list[m..];
    } else {
      assert list[..0] == [] && list[0..] == list;
    }
  }

  /** It visits them in the order of the list. */
  lemma VisitedInOrder(list: seq<string>, ufs: bool, k: nat, l: nat)
    requires k < l < |list| && !(ufs && ("xbl" <= list[k] || "xbl" <= list[l]))
    ensures var r := Visited(list, ufs); exists i, j :: 0 <= i < j < |r| && r[i] == list[k] && r[j] == list[l]
  {
    var before, after := Visited(list[..l], ufs), Visited(list[l..], ufs);
    VisitedSplit(list, ufs, l);
    VisitedIff(list[..l], ufs, list[k]);
    assert after[0] == list[l];
    hide Visited;
    assert list[..l][k] == list[k];
    var i :| 0 <= i < |before| && before[i] == list[k];
    var r := Visited(list, ufs);
    assert r[i] == list[k] && r[|before|] == list[l];
  }

  /** Of the shipped names only xbl, which comes first, is left out on UFS, and none elsewhere. */
  lemma ShippedVisited()
    ensures Visited(PTN_SWAP_LIST, false) == PTN_SWAP_LIST && Visited(PTN_SWAP_LIST, true) == PTN_SWAP_LIST[1..]
  {
    hide Visited;
    assert PTN_SWAP_LIST[0] == "xbl";
    NothingSkipped(PTN_SWAP_LIST);
    forall k | 0 < k < |PTN_SWAP_LIST|
      ensures !("xbl" <= PTN_SWAP_LIST[k])
    {
      NoOtherXbl(k);
    }
    OnlyFirstSkipped(PTN_SWAP_LIST);
  }

  lemma NoOtherXbl(k: nat)
    requires 0 < k < |PTN_SWAP_LIST|
    ensures !("xbl" <= PTN_SWAP_LIST[k])
  {
    assert PTN_SWAP_LIST[k][0] != 'x';
  }

  lemma {:induction false} NothingSkipped(list: seq<string>)
    ensures Visited(list, false) == list
  {
    if list != [] {
      NothingSkipped(list[1..]);
    }
  }

  lemma {:induction false} NoneSkipped(list: seq<string>)
    requires forall k :: 0 <= k < |list| ==> !("xbl" <= list[k])
    ensures Visited(list, true) == list
  {
    if list != [] {
      assert forall k :: 0 <= k < |list[1..]| ==> list[1..][k] == list[k + 1];
      NoneSkipped(list[1..]);
    }
  }

  lemma OnlyFirstSkipped(list: seq<string>)
    requires list != [] && "xbl" <= list[0] && forall k :: 0 < k < |list| ==> !("xbl" <= list[k])
    ensures Visited(list, true) == list[1..]
  {
    NoneSkipped(list[1..]);
  }

  /** The first two entries that match the name. */
  ghost predicate FirstTwo(es: seq<Entry>, name: string, i: nat, j: nat)
    requires ShortName(name)
  {
    i < j < |es| && Matches(es[i], name) && Matches(es[j], name)
    && forall k :: 0 <= k < j && Matches(es[k], name) ==> k == i
  }

  lemma FirstTwoAreTwins(es: seq<Entry>, name: string, i: nat, j: nat)
    requires ShortName(name)
    ensures FirstTwo(es, name, i, j) <==> HasTwins(es, name) && Twins(es, name) == (i, j)
  {
    if FirstTwo(es, name, i, j) {
      var x := Seek(es, name, 0);
      assert x <= i;
      assert Matches(es[x], name);
      assert Seek(es, name, i + 1) == j;
    }
  }

  /** The k-th listed name has its first two entries at i and j, and is not left out. */
  ghost predicate PairAt(es: seq<Entry>, list: seq<string>, ufs: bool, k: nat, i: nat, j: nat)
    requires Separate(list)
  {
    k < |list| && !(ufs && "xbl" <= list[k]) && FirstTwo(es, list[k], i, j)
  }

  ghost predicate PairsExchanged(es: seq<Entry>, fs: seq<Entry>, list: seq<string>, ufs: bool)
    requires Separate(list) && |fs| == |es|
  {
    forall k: nat, i: nat, j: nat :: PairAt(es, list, ufs, k, i, j) ==> fs[i] == es[j] && fs[j] == es[i]
  }

  ghost predicate OnlyPairsMove(es: seq<Entry>, fs: seq<Entry>, list: seq<string>, ufs: bool)
    requires Separate(list) && |fs| == |es|
  {
    forall p: nat :: p < |es| && fs[p] != es[p] ==>
      exists k: nat, q: nat :: PairAt(es, list, ufs, k, p, q) || PairAt(es, list, ufs, k, q, p)
  }

  /** `fs` is `es` with the first two entries of each listed name exchanged, xbl left out on UFS. */
  ghost predicate ExchangesListed(es: seq<Entry>, fs: seq<Entry>, list: seq<string>, ufs: bool)
    requires Separate(list)
  {
    |fs| == |es| && PairsExchanged(es, fs, list, ufs) && OnlyPairsMove(es, fs, list, ufs)
  }

  /** Some listed name, other than xbl on UFS, has two entries. */
  ghost predicate ListedPair(es: seq<Entry>, list: seq<string>, ufs: bool)
    requires Separate(list)
  {
    exists k: nat, i: nat, j: nat :: PairAt(es, list, ufs, k, i, j)
  }

  lemma {:induction false} PartnersOfTwins(es: seq<Entry>, names: seq<string>, n: nat)
    requires Separate(names) && n < |names| && HasTwins(es, names[n])
    ensures var (i, j) := Twins(es, names[n]); Partner(es, names, i) == j && Partner(es, names, j) == i
    decreases |names|
  {
    if n > 0 {
      var (i, j) := Twins(es, names[n]);
      SeparateTail(names);
      PartnersOfTwins(es, names[1..], n - 1);
      MatchesOneName(es[i], names[0], names[n]);
      MatchesOneName(es[j], names[0], names[n]);
    }
  }

  lemma {:induction false} PartnersAreTwins(es: seq<Entry>, names: seq<string>, p: nat) returns (n: nat)
    requires Separate(names) && p < |es| && Partner(es, names, p) != p
    ensures n < |names| && HasTwins(es, names[n])
    ensures var q := Partner(es, names, p); Twins(es, names[n]) == (p, q) || Twins(es, names[n]) == (q, p)
    decreases |names|
  {
    var (i, j) := Twins(es, names[0]);
    if j < |es| && (p == i || p == j) {
      n := 0;
    } else {
      SeparateTail(names);
      n := PartnersAreTwins(es, names[1..], p);
      n := n + 1;
    }
  }

  /** A pass does exactly that. */
  lemma PassExchanges(es: seq<Entry>, list: seq<string>, ufs: bool)
    requires Separate(list)
    ensures Separate(Visited(list, ufs))
    ensures ExchangesListed(es, SwapNames(es, Visited(list, ufs)), list, ufs)
  {
    VisitedSeparate(list, ufs);
    hide *;
    var fs := SwapNames(es, Visited(list, ufs));
    assert PairsExchanged(es, fs, list, ufs) by { ListedAreExchanged(es, list, ufs); }
    assert OnlyPairsMove(es, fs, list, ufs) by { MovedAreListed(es, list, ufs); }
    BothWays(es, fs, list, ufs);
  }

  lemma BothWays(es: seq<Entry>, fs: seq<Entry>, list: seq<string>, ufs: bool)
    requires Separate(list) && |fs| == |es|
    requires PairsExchanged(es, fs, list, ufs) && OnlyPairsMove(es, fs, list, ufs)
    ensures ExchangesListed(es, fs, list, ufs)
  {
    hide PairsExchanged, OnlyPairsMove, Separate;
  }

  lemma ListedAreExchanged(es: seq<Entry>, list: seq<string>, ufs: bool)
    requires Separate(list) && Separate(Visited(list, ufs))
    ensures PairsExchanged(es, SwapNames(es, Visited(list, ufs)), list, ufs)
  {
    var fs := SwapNames(es, Visited(list, ufs));
    hide Visited, SwapNames, Separate, PairAt;
    forall k: nat, i: nat, j: nat | PairAt(es, list, ufs, k, i, j)
      ensures i < |es| && j < |es| && fs[i] == es[j] && fs[j] == es[i]
    {
      ListedIsExchanged(es, list, ufs, k, i, j);
    }
  }

  lemma MovedAreListed(es: seq<Entry>, list: seq<string>, ufs: bool)
    requires Separate(list) && Separate(Visited(list, ufs))
    ensures OnlyPairsMove(es, SwapNames(es, Visited(list, ufs)), list, ufs)
  {
    var fs := SwapNames(es, Visited(list, ufs));
    hide Visited, SwapNames, Separate, PairAt;
    forall p: nat | p < |es| && fs[p] != es[p]
      ensures exists k: nat, q: nat :: PairAt(es, list, ufs, k, p, q) || PairAt(es, list, ufs, k, q, p)
    {
      var k, q := MovedIsListed(es, list, ufs, p);
    }
  }

  lemma ListedIsExchanged(es: seq<Entry>, list: seq<string>, ufs: bool, k: nat, i: nat, j: nat)
    requires Separate(list) && Separate(Visited(list, ufs))
    requires PairAt(es, list, ufs, k, i, j)
    ensures var fs := SwapNames(es, Visited(list, ufs));
      i < |es| && j < |es| && fs[i] == es[j] && fs[j] == es[i]
  {
    var names := Visited(list, ufs);
    VisitedIff(list, ufs, list[k]);
    FirstTwoAreTwins(es, list[k], i, j);
    hide Visited, SwapNames, Partner, Matches, ShortName;
    var n :| 0 <= n < |names| && names[n] == list[k];
    PartnersOfTwins(es, names, n);
    SwapMovesToPartner(es, names, i);
    SwapMovesToPartner(es, names, j);
  }

  lemma MovedIsListed(es: seq<Entry>, list: seq<string>, ufs: bool, p: nat) returns (k: nat, q: nat)
    requires Separate(list) && Separate(Visited(list, ufs))
    requires p < |es| && SwapNames(es, Visited(list, ufs))[p] != es[p]
    ensures PairAt(es, list, ufs, k, p, q) || PairAt(es, list, ufs, k, q, p)
  {
    hide Visited, SwapNames, Partner, Matches, ShortName, Twins, HasTwins, FirstTwo;
    var names := Visited(list, ufs);
    SwapMovesToPartner(es, names, p);
    var n := PartnersAreTwins(es, names, p);
    VisitedIff(list, ufs, names[n]);
    k :| 0 <= k < |list| && list[k] == names[n];
    q := Partner(es, names, p);
    FirstTwoAreTwins(es, list[k], p, q);
    FirstTwoAreTwins(es, list[k], q, p);
  }

  lemma TwinsAreListed(es: seq<Entry>, list: seq<string>, ufs: bool)
    requires Separate(list)
    ensures Separate(Visited(list, ufs))
    ensures AnyTwins(es, Visited(list, ufs)) <==> ListedPair(es, list, ufs)
  {
    VisitedSeparate(list, ufs);
    hide Visited, Matches, ShortName, Twins, HasTwins, FirstTwo;
    var names := Visited(list, ufs);
    if AnyTwins(es, names) {
      var n :| 0 <= n < |names| && HasTwins(es, names[n]);
      VisitedIff(list, ufs, names[n]);
      var k :| 0 <= k < |list| && list[k] == names[n];
      var (i, j) := Twins(es, list[k]);
      FirstTwoAreTwins(es, list[k], i, j);
      assert PairAt(es, list, ufs, k, i, j);
    }
    if ListedPair(es, list, ufs) {
      var k: nat, i: nat, j: nat :| PairAt(es, list, ufs, k, i, j);
      VisitedIff(list, ufs, list[k]);
      FirstTwoAreTwins(es, list[k], i, j);
      var n :| 0 <= n < |names| && names[n] == list[k];
    }
  }

  // ---------- entry arrays as bytes ----------

  predicate WholeEntries(a: seq<byte>) {
    |a| % PTN_ENTRY_SIZE == 0
  }

  function Entries(a: seq<byte>): (es: seq<Entry>)
    requires WholeEntries(a)
    ensures |es| == |a| / PTN_ENTRY_SIZE
    ensures forall i :: 0 <= i < |es| ==> es[i] == a[PTN_ENTRY_SIZE * i..PTN_ENTRY_SIZE * i + PTN_ENTRY_SIZE]
  {
    seq(|a| / PTN_ENTRY_SIZE, i requires 0 <= i < |a| / PTN_ENTRY_SIZE =>
      a[PTN_ENTRY_SIZE * i..PTN_ENTRY_SIZE * i + PTN_ENTRY_SIZE])
  }

  function Flatten(es: seq<Entry>): (a: seq<byte>)
    ensures |a| == PTN_ENTRY_SIZE * |es|
  {
    if es == [] then [] else Flatten(es[..|es| - 1]) + es[|es| - 1]
  }

  lemma {:induction false} FlattenEntry(es: seq<Entry>, i: nat)
    requires i < |es|
    ensures Flatten(es)[PTN_ENTRY_SIZE * i..PTN_ENTRY_SIZE * i + PTN_ENTRY_SIZE] == es[i]
    decreases |es|
  {
    var init := es[..|es| - 1];
    if i < |init| {
      FlattenEntry(init, i);
      assert Flatten(es)[PTN_ENTRY_SIZE * i..PTN_ENTRY_SIZE * i + PTN_ENTRY_SIZE]
          == Flatten(init)[PTN_ENTRY_SIZE * i..PTN_ENTRY_SIZE * i + PTN_ENTRY_SIZE];
    }
  }

  lemma EntriesOfFlatten(es: seq<Entry>)
    ensures Entries(Flatten(es)) == es
  {
    forall i | 0 <= i < |es|
      ensures Entries(Flatten(es))[i] == es[i]
    {
      FlattenEntry(es, i);
    }
  }

  lemma FlattenOfEntries(a: seq<byte>)
    requires WholeEntries(a)
    ensures Flatten(Entries(a)) == a
  {
    var b := Flatten(Entries(a));
    EntriesOfFlatten(Entries(a));
    forall k | 0 <= k < |a|
      ensures a[k] == b[k]
    {
      var i, r := k / PTN_ENTRY_SIZE, k % PTN_ENTRY_SIZE;
      assert a[k] == Entries(a)[i][r];
      assert b[k] == Entries(b)[i][r];
    }
  }

  /** The entry array after one pass, as bytes. */
  function Swapped(a: seq<byte>, names: seq<string>): (r: seq<byte>)
    requires WholeEntries(a) && forall k :: 0 <= k < |names| ==> ShortName(names[k])
    ensures |r| == |a|
  {
    Flatten(SwapNames(Entries(a), names))
  }

  /** Some visited partition has a backup. */
  ghost predicate HasBackup(a: seq<byte>, names: seq<string>)
    requires WholeEntries(a) && forall k :: 0 <= k < |names| ==> ShortName(names[k])
  {
    AnyTwins(Entries(a), names)
  }

  /** Two passes over an entry array restore every byte. */
  lemma SwappedTwice(a: seq<byte>, names: seq<string>)
    requires WholeEntries(a) && Separate(names)
    ensures Swapped(Swapped(a, names), names) == a
  {
    EntriesOfFlatten(SwapNames(Entries(a), names));
    SwapInvolution(Entries(a), names);
    FlattenOfEntries(a);
  }

  lemma SwappedNoBackup(a: seq<byte>, names: seq<string>)
    requires WholeEntries(a) && Separate(names) && !HasBackup(a, names)
    ensures Swapped(a, names) == a
  {
    NoTwinsNoChange(Entries(a), names);
    FlattenOfEntries(a);
  }

  // ---------- the in-place pass ----------

  /** Reads an entry's name byte-wise and compares it with `name` and with its backup form. */
  method NameMatches(a: array<byte>, at: nat, name: string) returns (m: bool)
    requires at + PTN_ENTRY_SIZE <= a.Length && ShortName(name)
    ensures m == Matches(a[at..at + PTN_ENTRY_SIZE], name)
  {
    ghost var e: Entry := a[at..at + PTN_ENTRY_SIZE];
    var name8 := new byte[2 * NAME_UNITS];
    var i := 0;
    while i < NAME_UNITS
      invariant 0 <= i <= NAME_UNITS
      invariant forall k :: 0 <= k < i ==> name8[k] == Unit(e, k)
      invariant e == a[at..at + PTN_ENTRY_SIZE]
    {
      name8[i] := a[at + PARTITION_NAME_OFFSET + i * 2];
      i := i + 1;
    }
    var len := |name|;
    var same := true;
    i := 0;
    while i < len && same
      invariant 0 <= i <= len
      invariant same ==> forall k :: 0 <= k < i ==> name8[k] == name[k] as int
      invariant !same ==> exists k :: 0 <= k < len && Unit(e, k) != name[k] as int
    {
      if name8[i] != name[i] as int {
        assert Unit(e, i) != name[i] as int;
        same := false;
      }
      i := i + 1;
    }
    if !same {
      DifferentName(e, name);
      return false;
    }
    var plain := name8[len] == 0;
    var backup := name8[len] == 'b' as int && name8[len + 1] == 'a' as int && name8[len + 2] == 'k' as int
                  && name8[len + 3] == 0;
    SameName(e, name);
    return plain || backup;
  }

  lemma DifferentName(e: Entry, name: string)
    requires ShortName(name)
    requires exists k :: 0 <= k < |name| && Unit(e, k) != name[k] as int
    ensures !Matches(e, name)
  {
    var k :| 0 <= k < |name| && Unit(e, k) != name[k] as int;
    assert Unit(e, 0 + k) != (name + BAK_PTN_NAME_EXT)[k] as int;
    assert Unit(e, 0 + k) != name[k] as int;
  }

  lemma SameName(e: Entry, name: string)
    requires ShortName(name)
    requires forall k :: 0 <= k < |name| ==> Unit(e, k) == name[k] as int
    ensures Matches(e, name) <==>
            Unit(e, |name|) == 0
            || (Unit(e, |name|) == 'b' as int && Unit(e, |name| + 1) == 'a' as int
                && Unit(e, |name| + 2) == 'k' as int && Unit(e, |name| + 3) == 0)
  {
    var n, bak := |name|, name + BAK_PTN_NAME_EXT;
    assert bak[n] == 'b' && bak[n + 1] == 'a' && bak[n + 2] == 'k';
    if Holds(e, 0, bak) {
      assert Unit(e, 0 + n) == bak[n] as int && Unit(e, 0 + (n + 1)) == bak[n + 1] as int
          && Unit(e, 0 + (n + 2)) == bak[n + 2] as int;
    }
    if Unit(e, n) == 'b' as int && Unit(e, n + 1) == 'a' as int && Unit(e, n + 2) == 'k' as int && Unit(e, n + 3) == 0 {
      forall i | 0 <= i < |bak|
        ensures Unit(e, 0 + i) == bak[i] as int
      {
        if i < n { assert Unit(e, i) == name[i] as int; }
      }
    }
  }

  lemma EntryAt(a: seq<byte>, k: nat)
    requires WholeEntries(a) && PTN_ENTRY_SIZE * k + PARTITION_NAME_OFFSET < |a|
    ensures k < |Entries(a)| && PTN_ENTRY_SIZE * k + PTN_ENTRY_SIZE <= |a|
    ensures Entries(a)[k] == a[PTN_ENTRY_SIZE * k..PTN_ENTRY_SIZE * k + PTN_ENTRY_SIZE]
  {
  }

  /** Byte offset of the first matching entry from `start` on, or none. */
  method PentrySeek(a: array<byte>, name: string, start: nat) returns (at: int)
    requires WholeEntries(a[..]) && ShortName(name)
    requires start <= a.Length && start % PTN_ENTRY_SIZE == 0
    ensures var es := Entries(a[..]);
      var k := Seek(es, name, start / PTN_ENTRY_SIZE);
      at == if k < |es| then PTN_ENTRY_SIZE * k else -1
  {
    ghost var es, k := Entries(a[..]), start / PTN_ENTRY_SIZE;
    var p := start;
    while p + PARTITION_NAME_OFFSET < a.Length
      invariant k <= |es| && p == PTN_ENTRY_SIZE * k
      invariant Seek(es, name, start / PTN_ENTRY_SIZE) == Seek(es, name, k)
    {
      EntryAt(a[..], k);
      assert a[..][p..p + PTN_ENTRY_SIZE] == a[p..p + PTN_ENTRY_SIZE];
      var m := NameMatches(a, p, name);
      if m {
        return p;
      }
      p := p + PTN_ENTRY_SIZE;
      k := k + 1;
    }
    return -1;
  }

  /** Byte-wise exchange of entries `i` and `j`. */
  function Exchanged(b: seq<byte>, x: nat, y: nat): (r: seq<byte>)
    requires x + PTN_ENTRY_SIZE <= y && y + PTN_ENTRY_SIZE <= |b|
    ensures |r| == |b|
  {
    Patch(Patch(b, x, b[y..y + PTN_ENTRY_SIZE]), y, b[x..x + PTN_ENTRY_SIZE])
  }

  lemma EntriesOfExchanged(b: seq<byte>, i: nat, j: nat)
    requires WholeEntries(b) && i < j < |Entries(b)|
    ensures var es := Entries(b);
      Entries(Exchanged(b, PTN_ENTRY_SIZE * i, PTN_ENTRY_SIZE * j)) == es[i := es[j]][j := es[i]]
  {
    var es, x, y := Entries(b), PTN_ENTRY_SIZE * i, PTN_ENTRY_SIZE * j;
    var m := Patch(b, x, b[y..y + PTN_ENTRY_SIZE]);
    var r := Exchanged(b, x, y);
    forall k | 0 <= k < |es|
      ensures Entries(r)[k] == es[i := es[j]][j := es[i]][k]
    {
      PatchRead(b, x, b[y..y + PTN_ENTRY_SIZE], PTN_ENTRY_SIZE * k, PTN_ENTRY_SIZE);
      PatchRead(m, y, b[x..x + PTN_ENTRY_SIZE], PTN_ENTRY_SIZE * k, PTN_ENTRY_SIZE);
    }
  }

  /** Exchanges two entries through a scratch buffer. */
  method SwapEntries(a: array<byte>, x: nat, y: nat)
    requires x + PTN_ENTRY_SIZE <= y && y + PTN_ENTRY_SIZE <= a.Length
    modifies a
    ensures a[..] == Exchanged(old(a[..]), x, y)
  {
    var scratch := new byte[PTN_ENTRY_SIZE];
    MemCpy(scratch, 0, a, x, PTN_ENTRY_SIZE);
    assert scratch[..] == old(a[x..x + PTN_ENTRY_SIZE]);
    assert old(a[..])[x..x + PTN_ENTRY_SIZE] == old(a[x..x + PTN_ENTRY_SIZE]);
    assert old(a[..])[y..y + PTN_ENTRY_SIZE] == a[y..y + PTN_ENTRY_SIZE];
    MemCpy(a, x, a, y, PTN_ENTRY_SIZE);
    assert scratch[0..PTN_ENTRY_SIZE] == scratch[..];
    MemCpy(a, y, scratch, 0, PTN_ENTRY_SIZE);
  }

  /** Handles one listed name; `found` says that it had a backup twin. */
  method SwapListed(a: array<byte>, name: string) returns (found: bool)
    requires WholeEntries(a[..]) && ShortName(name)
    modifies a
    ensures WholeEntries(a[..])
    ensures Entries(a[..]) == SwapOne(Entries(old(a[..])), name)
    ensures found == HasTwins(Entries(old(a[..])), name)
  {
    ghost var b := a[..];
    ghost var i := Seek(Entries(b), name, 0);
    SizeIs();
    hide *;
    var x := PentrySeek(a, name, 0);
    if x < 0 {
      ListedNowhere(Entries(b), name);
      return false;
    }
    assert x == PTN_ENTRY_SIZE * i && (x + PTN_ENTRY_SIZE) / PTN_ENTRY_SIZE == i + 1 && (x + PTN_ENTRY_SIZE) % 128 == 0;
    EntryFits(b, i);
    var y := PentrySeek(a, name, x + PTN_ENTRY_SIZE);
    if y < 0 {
      ListedOnce(Entries(b), name);
      return false;
    }
    ghost var j := Seek(Entries(b), name, i + 1);
    EntryFits(b, j);
    SwapEntries(a, x, y);
    ListedTwice(b, name);
    return true;
  }

  lemma SizeIs()
    ensures PTN_ENTRY_SIZE == 128
  {
  }

  lemma EntryFits(b: seq<byte>, k: nat)
    requires WholeEntries(b) && k < |Entries(b)|
    ensures PTN_ENTRY_SIZE * k + PTN_ENTRY_SIZE <= |b|
  {
  }

  lemma ListedNowhere(es: seq<Entry>, name: string)
    requires ShortName(name) && Seek(es, name, 0) == |es|
    ensures SwapOne(es, name) == es && !HasTwins(es, name)
  {
  }

  lemma ListedOnce(es: seq<Entry>, name: string)
    requires ShortName(name) && Seek(es, name, 0) < |es| && Seek(es, name, Seek(es, name, 0) + 1) == |es|
    ensures SwapOne(es, name) == es && !HasTwins(es, name)
  {
  }

  lemma ListedTwice(b: seq<byte>, name: string)
    requires WholeEntries(b) && ShortName(name)
    requires var es := Entries(b); var i := Seek(es, name, 0); i < |es| && Seek(es, name, i + 1) < |es|
    ensures var es := Entries(b); var i := Seek(es, name, 0); var j := Seek(es, name, i + 1);
      && i < j && PTN_ENTRY_SIZE * i + PTN_ENTRY_SIZE <= PTN_ENTRY_SIZE * j
      && PTN_ENTRY_SIZE * j + PTN_ENTRY_SIZE <= |b|
      && WholeEntries(Exchanged(b, PTN_ENTRY_SIZE * i, PTN_ENTRY_SIZE * j))
      && Entries(Exchanged(b, PTN_ENTRY_SIZE * i, PTN_ENTRY_SIZE * j)) == SwapOne(es, name) && HasTwins(es, name)
  {
    var es := Entries(b);
    var i := Seek(es, name, 0);
    var j := Seek(es, name, i + 1);
    hide Exchanged, Seek, Entries;
    EntryFits(b, j);
    EntriesOfExchanged(b, i, j);
  }

  /** The first `n` names include one with a backup twin. */
  ghost predicate FoundAmong(es: seq<Entry>, names: seq<string>, n: nat)
    requires n <= |names| && forall k :: 0 <= k < |names| ==> ShortName(names[k])
  {
    exists k :: 0 <= k < n && HasTwins(es, names[k])
  }

  /** What handling the n-th name means for the rest of the pass. */
  lemma PassStep(before: seq<Entry>, now: seq<Entry>, names: seq<string>, n: nat)
    requires Separate(names) && n < |names| && SameNames(before, now, names)
    ensures var next := SwapOne(now, names[n]);
      && SwapNames(now, names[n..]) == SwapNames(next, names[n + 1..])
      && SameNames(before, next, names)
      && (FoundAmong(before, names, n + 1) <==> FoundAmong(before, names, n) || HasTwins(now, names[n]))
  {
    assert names[n..][0] == names[n] && names[n..][1..] == names[n + 1..];
    TwinsAgree(before, now, names[n]);
    SwapKeepsNames(now, names, n);
  }

  /** The same of entry arrays as bytes. */
  ghost predicate BytesExchanged(b: seq<byte>, a: seq<byte>, list: seq<string>, ufs: bool)
    requires Separate(list)
  {
    WholeEntries(b) && WholeEntries(a) && ExchangesListed(Entries(b), Entries(a), list, ufs)
  }

  ghost predicate BytesPaired(b: seq<byte>, list: seq<string>, ufs: bool)
    requires WholeEntries(b) && Separate(list)
  {
    ListedPair(Entries(b), list, ufs)
  }

  /** One pass over a swap list. Result 1 says that no listed partition that it visits has a backup. */
  method BootChainSwap(a: array<byte>, list: seq<string>, ufs: bool) returns (backupNotFound: int)
    requires WholeEntries(a[..]) && Separate(list)
    modifies a
    ensures Separate(Visited(list, ufs))
    ensures a[..] == Swapped(old(a[..]), Visited(list, ufs))
    ensures backupNotFound == if HasBackup(old(a[..]), Visited(list, ufs)) then 0 else 1
    ensures backupNotFound == 1 ==> a[..] == old(a[..])
    ensures BytesExchanged(old(a[..]), a[..], list, ufs)
    ensures backupNotFound == if BytesPaired(old(a[..]), list, ufs) then 0 else 1
  {
    ghost var start, names := a[..], Visited(list, ufs);
    PassStart(start, list, ufs);
    hide *;
    backupNotFound := 1;
    var i := 0;
    ghost var done := 0;
    while i < |list|
      invariant 0 <= i <= |list|
      invariant done <= |names| && names[done..] == Visited(list[i..], ufs)
      invariant backupNotFound in {0, 1} && Midway(start, a[..], names, done, backupNotFound == 0)
    {
      VisitStep(list, ufs, i, names, done);
      if !(ufs && PTN_XBL <= list[i]) {
        ghost var was := a[..];
        MidwayWhole(start, was, names, done, backupNotFound == 0);
        var found := SwapListed(a, list[i]);
        MidwayStep(start, was, a[..], names, done, backupNotFound == 0, found);
        if found {
          backupNotFound := 0;
        }
        done := done + 1;
      }
      i := i + 1;
    }
    PassDone(start, a[..], list, ufs, names, done, backupNotFound == 0);
  }

  /** After the first `done` of the visited names: the rest of the pass from here is the whole pass from the start. */
  ghost predicate Midway(start: seq<byte>, a: seq<byte>, names: seq<string>, done: nat, found: bool)
    requires done <= |names| && Separate(names)
  {
    && WholeEntries(start) && WholeEntries(a)
    && SwapNames(Entries(start), names) == SwapNames(Entries(a), names[done..])
    && (found <==> FoundAmong(Entries(start), names, done))
    && SameNames(Entries(start), Entries(a), names)
  }

  lemma MidwayWhole(start: seq<byte>, a: seq<byte>, names: seq<string>, done: nat, found: bool)
    requires done <= |names| && Separate(names) && Midway(start, a, names, done, found)
    ensures WholeEntries(a)
  {
  }

  lemma MidwayStep(start: seq<byte>, a: seq<byte>, a': seq<byte>, names: seq<string>, done: nat, found: bool,
      here: bool)
    requires done < |names| && Separate(names) && Midway(start, a, names, done, found)
    requires WholeEntries(a) && WholeEntries(a') && Entries(a') == SwapOne(Entries(a), names[done])
    requires here == HasTwins(Entries(a), names[done])
    ensures Midway(start, a', names, done + 1, found || here)
  {
    PassStep(Entries(start), Entries(a), names, done);
    hide SwapNames, SwapOne, HasTwins, FoundAmong, SameNames, WholeEntries, Entries, Separate;
  }

  /** What the end of the pass means, in the names visited and in the list itself. */
  lemma PassDone(start: seq<byte>, a: seq<byte>, list: seq<string>, ufs: bool, names: seq<string>, done: nat,
      found: bool)
    requires Separate(list) && names == Visited(list, ufs) && Separate(names)
    requires done <= |names| && names[done..] == Visited(list[|list|..], ufs) && Midway(start, a, names, done, found)
    ensures WholeEntries(start) && WholeEntries(a)
    ensures a == Swapped(start, names) && (HasBackup(start, names) <==> found) && (!found ==> a == start)
    ensures BytesExchanged(start, a, list, ufs) && (found <==> BytesPaired(start, list, ufs))
  {
    hide WholeEntries, Entries, Flatten, SwapNames, ExchangesListed, ListedPair, HasBackup, FoundAmong, AnyTwins,
        Swapped;
    NoneLeft(ufs);
    hide Visited;
    assert list[|list|..] == [];
    PassEnd(start, a, names, done);
    PassExchanges(Entries(start), list, ufs);
    TwinsAreListed(Entries(start), list, ufs);
    EntriesOfFlatten(SwapNames(Entries(start), names));
    SwappedIs(start, names);
  }

  lemma SwappedIs(start: seq<byte>, names: seq<string>)
    requires WholeEntries(start) && forall k :: 0 <= k < |names| ==> ShortName(names[k])
    ensures Swapped(start, names) == Flatten(SwapNames(Entries(start), names))
    ensures HasBackup(start, names) <==> AnyTwins(Entries(start), names)
  {
  }

  lemma NoneLeft(ufs: bool)
    ensures Visited([], ufs) == []
  {
  }

  lemma PassStart(a: seq<byte>, list: seq<string>, ufs: bool)
    requires Separate(list) && WholeEntries(a)
    ensures var names := Visited(list, ufs);
      Separate(names) && names[0..] == Visited(list[0..], ufs) && Midway(a, a, names, 0, false)
  {
    VisitedSeparate(list, ufs);
    hide Visited, Entries, WholeEntries, SwapNames;
    assert list[0..] == list;
    var names := Visited(list, ufs);
    assert names[0..] == names;
  }

  lemma VisitStep(list: seq<string>, ufs: bool, i: nat, names: seq<string>, done: nat)
    requires i < |list| && done <= |names| && names[done..] == Visited(list[i..], ufs)
    requires Separate(names)
    ensures if ufs && PTN_XBL <= list[i] then names[done..] == Visited(list[i + 1..], ufs)
            else done < |names| && names[done] == list[i] && ShortName(list[i])
                 && names[done + 1..] == Visited(list[i + 1..], ufs)
  {
    assert list[i..][0] == list[i] && list[i..][1..] == list[i + 1..];
    if !(ufs && PTN_XBL <= list[i]) {
      assert names[done] == names[done..][0] && names[done + 1..] == names[done..][1..];
    }
  }

  lemma PassEnd(start: seq<byte>, a: seq<byte>, names: seq<string>, done: nat)
    requires WholeEntries(start) && WholeEntries(a) && Separate(names) && done <= |names| && names[done..] == []
    requires SwapNames(Entries(start), names) == SwapNames(Entries(a), names[done..])
    ensures a == Swapped(start, names)
    ensures HasBackup(start, names) <==> FoundAmong(Entries(start), names, done)
    ensures !HasBackup(start, names) ==> a == start
  {
    FlattenOfEntries(a);
    if !HasBackup(start, names) {
      SwappedNoBackup(start, names);
    }
  }
}
