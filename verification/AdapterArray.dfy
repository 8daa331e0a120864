/** The bounded array of location adapters, kept without holes by moving the last one into a gap. */
module AdapterArray {
  import GapFill

  const MAX_ADAPTERS := 10

  /** An adapter and the events it listens to, as the set of the bits of its mask. */
  class LocAdapter {
    const mEvtMask: set<nat>

    constructor (mask: set<nat>)
      ensures mEvtMask == mask
    {
      mEvtMask := mask;
    }
  }

  /** What is sent to the message thread: open for a new adapter, open again, or close. */
  datatype Msg = Open(adapter: LocAdapter) | Reopen | Close

  // ---------- on lists ----------

  ghost predicate Distinct(list: seq<LocAdapter>) {
    forall i, j :: 0 <= i < j < |list| ==> list[i] != list[j]
  }

  /** An adapter that is listed, or finds no room, is not added. */
  function Add(list: seq<LocAdapter>, a: LocAdapter): seq<LocAdapter> {
    if a in list || |list| == MAX_ADAPTERS then list else list + [a]
  }

  /** The last adapter takes the place of the removed one. */
  function Remove(list: seq<LocAdapter>, a: LocAdapter): seq<LocAdapter> {
    GapFill.Remove(list, a)
  }

  lemma AddKeeps(list: seq<LocAdapter>, a: LocAdapter)
    requires Distinct(list) && |list| <= MAX_ADAPTERS
    ensures Distinct(Add(list, a)) && |Add(list, a)| <= MAX_ADAPTERS
    ensures forall x :: x in Add(list, a) <==> x in list || (x == a && |list| < MAX_ADAPTERS)
  {
  }

  /** Removal drops exactly the given adapter and leaves no hole. */
  lemma RemoveKeeps(list: seq<LocAdapter>, a: LocAdapter)
    requires Distinct(list)
    ensures Distinct(Remove(list, a)) && |Remove(list, a)| == |list| - if a in list then 1 else 0
    ensures forall x :: x in Remove(list, a) <==> x in list && x != a
  {
    GapFill.RemoveDrops(list, a);
    hide GapFill.Remove;
  }

  // ---------- runs ----------

  datatype Call = AddAdapter(adapter: LocAdapter) | RemoveAdapter(adapter: LocAdapter)

  function Step(list: seq<LocAdapter>, c: Call): seq<LocAdapter> {
    match c
    case AddAdapter(a) => Add(list, a)
    case RemoveAdapter(a) => Remove(list, a)
  }

  /** The message of one call, if it changes anything. */
  function Sent(list: seq<LocAdapter>, c: Call): seq<Msg> {
    match c
    case AddAdapter(a) => if a in list || |list| == MAX_ADAPTERS then [] else [Open(a)]
    case RemoveAdapter(a) => if a !in list then [] else if |list| == 1 then [Close] else [Reopen]
  }

  function Run(calls: seq<Call>): seq<LocAdapter> {
    if calls == [] then [] else Step(Run(calls[..|calls| - 1]), calls[|calls| - 1])
  }

  /** What a set with room for ten makes of a call. */
  function StepSet(s: set<LocAdapter>, c: Call): set<LocAdapter> {
    match c
    case AddAdapter(a) => if |s| < MAX_ADAPTERS then s + {a} else s
    case RemoveAdapter(a) => s - {a}
  }

  function Registered(calls: seq<Call>): set<LocAdapter> {
    if calls == [] then {} else StepSet(Registered(calls[..|calls| - 1]), calls[|calls| - 1])
  }

  /** The list holds each element of the set once, and nothing else. */
  ghost predicate Lists(list: seq<LocAdapter>, s: set<LocAdapter>) {
    Distinct(list) && |list| == |s| <= MAX_ADAPTERS && s == set a | a in list
  }

  lemma StepRefinesSet(list: seq<LocAdapter>, s: set<LocAdapter>, c: Call)
    requires Lists(list, s)
    ensures Lists(Step(list, c), StepSet(s, c))
    ensures Close in Sent(list, c) <==> list != [] && Step(list, c) == []
  {
    match c
    case AddAdapter(a) => AddRefines(list, s, a);
    case RemoveAdapter(a) => RemoveRefines(list, s, a);
    hide Lists, Add, Remove;
  }

  /** What is sent tells how the array changed: open for the adapter that came, close when the last one went, open
      again when another went, and nothing when it is as it was. */
  lemma SentTells(list: seq<LocAdapter>, c: Call)
    requires |list| <= MAX_ADAPTERS
    ensures var list' := Step(list, c);
      if |list'| > |list| then Sent(list, c) == [Open(c.adapter)] && c.AddAdapter? && list' == list + [c.adapter]
      else if |list'| == |list| then Sent(list, c) == [] && list' == list
      else Sent(list, c) == (if list' == [] then [Close] else [Reopen]) && c.RemoveAdapter? && |list'| == |list| - 1
  {
  }

  lemma AddRefines(list: seq<LocAdapter>, s: set<LocAdapter>, a: LocAdapter)
    requires Lists(list, s)
    ensures Lists(Add(list, a), StepSet(s, AddAdapter(a))) && Add(list, a) != []
  {
    AddKeeps(list, a);
    if a in s {
      assert s + {a} == s;
    }
  }

  lemma RemoveRefines(list: seq<LocAdapter>, s: set<LocAdapter>, a: LocAdapter)
    requires Lists(list, s)
    ensures Lists(Remove(list, a), s - {a})
    ensures a in list && Remove(list, a) == [] <==> list == [a]
    ensures a !in list ==> Remove(list, a) == list
  {
    RemoveKeeps(list, a);
    if a !in s {
      assert s - {a} == s;
    }
    hide Remove;
  }

  /** After every run the array holds exactly the registered adapters, once each; and the close message goes out
      exactly when a call makes it empty. */
  lemma {:induction false} RunRefinesSet(calls: seq<Call>, c: Call)
    ensures Lists(Run(calls), Registered(calls))
    ensures Close in Sent(Run(calls), c) <==> Run(calls) != [] && Step(Run(calls), c) == []
    decreases |calls|
  {
    hide Lists, Step, StepSet, Sent;
    if calls == [] {
      NothingListed();
    } else {
      RunRefinesSet(calls[..|calls| - 1], c);
      StepRefinesSet(Run(calls[..|calls| - 1]), Registered(calls[..|calls| - 1]), calls[|calls| - 1]);
    }
    StepRefinesSet(Run(calls), Registered(calls), c);
  }

  lemma NothingListed()
    ensures Lists([], {})
  {
  }

  // ---------- the array against what was added ----------

  /** The adapters added and not removed since, however many. */
  function Added(calls: seq<Call>): set<LocAdapter> {
    if calls == [] then {} else
    var before := Added(calls[..|calls| - 1]);
    match calls[|calls| - 1]
    case AddAdapter(a) => before + {a}
    case RemoveAdapter(a) => before - {a}
  }

  predicate Within(calls: seq<Call>)
    decreases |calls|
  {
    |Added(calls)| <= MAX_ADAPTERS && (calls != [] ==> Within(calls[..|calls| - 1]))
  }

  /** After every call of the run the array holds exactly the adapters added and not removed. */
  ghost predicate AlwaysHoldsAll(calls: seq<Call>)
    decreases |calls|
  {
    Lists(Run(calls), Added(calls)) && (calls != [] ==> AlwaysHoldsAll(calls[..|calls| - 1]))
  }

  /** An eleventh adapter is dropped without a word: the array holds exactly the adapters added and not removed,
      throughout a run, if and only if they are never more than ten. */
  lemma {:induction false} AlwaysHoldsAllIff(calls: seq<Call>)
    ensures AlwaysHoldsAll(calls) <==> Within(calls)
    decreases |calls|
  {
    hide Lists, Added, Run;
    AtMostTen(Run(calls), Added(calls));
    if calls == [] {
      assert Lists(Run(calls), Added(calls)) by { NothingAdded(); }
    } else {
      AlwaysHoldsAllIff(calls[..|calls| - 1]);
      assert AlwaysHoldsAll(calls[..|calls| - 1]) ==> Lists(Run(calls[..|calls| - 1]), Added(calls[..|calls| - 1]));
      if Within(calls) {
        StepHoldsAll(calls);
      }
    }
  }

  lemma NothingAdded()
    ensures Lists(Run([]), Added([]))
  {
  }

  lemma AtMostTen(list: seq<LocAdapter>, s: set<LocAdapter>)
    ensures Lists(list, s) ==> |s| <= MAX_ADAPTERS
  {
  }

  lemma StepHoldsAll(calls: seq<Call>)
    requires calls != [] && Lists(Run(calls[..|calls| - 1]), Added(calls[..|calls| - 1]))
    requires |Added(calls)| <= MAX_ADAPTERS
    ensures Lists(Run(calls), Added(calls))
  {
    var list, s, c := Run(calls[..|calls| - 1]), Added(calls[..|calls| - 1]), calls[|calls| - 1];
    StepRefinesSet(list, s, c);
    AtMostTen(list, s);
    hide Lists, Step;
    if c.AddAdapter? && |s| == MAX_ADAPTERS {
      assert s <= s + {c.adapter};
      SameSize(s, s + {c.adapter});
    }
  }

  lemma SameSize<T>(s: set<T>, t: set<T>)
    requires s <= t && |t| <= |s|
    ensures s == t
  {
    assert |t - s| == |t| - |s|;
  }

  // ---------- the array ----------

  class LocApiBase {
    const mLocAdapters: array<LocAdapter?>
    const mExcludedMask: set<nat>
    var mSent: seq<Msg>

    /** The array is the list followed by nulls. */
    ghost predicate Holds(list: seq<LocAdapter>)
      reads mLocAdapters
    {
      && mLocAdapters.Length == MAX_ADAPTERS && |list| <= MAX_ADAPTERS && Distinct(list)
      && (forall i :: 0 <= i < |list| ==> mLocAdapters[i] == list[i])
      && (forall i :: |list| <= i < MAX_ADAPTERS ==> mLocAdapters[i] == null)
    }

    constructor (excluded: set<nat>)
      ensures Holds([]) && fresh(mLocAdapters) && mSent == [] && mExcludedMask == excluded
    {
      mLocAdapters := new LocAdapter?[MAX_ADAPTERS](_ => null);
      mExcludedMask, mSent := excluded, [];
    }

    method AddAdapter(adapter: LocAdapter, ghost list: seq<LocAdapter>)
      requires Holds(list)
      modifies `mSent, mLocAdapters
      ensures Holds(Add(list, adapter))
      ensures mSent == old(mSent) + Sent(list, Call.AddAdapter(adapter))
    {
      AddKeeps(list, adapter);
      var i := 0;
      while i < MAX_ADAPTERS && mLocAdapters[i] != adapter
        invariant 0 <= i <= |list| && Holds(list) && mSent == old(mSent)
        invariant forall k :: 0 <= k < i ==> list[k] != adapter
      {
        if mLocAdapters[i] == null {
          assert i == |list|;
          mLocAdapters[i] := adapter;
          mSent := mSent + [Open(adapter)];
          return;
        }
        i := i + 1;
      }
    }

    method RemoveAdapter(adapter: LocAdapter, ghost list: seq<LocAdapter>)
      requires Holds(list)
      modifies `mSent, mLocAdapters
      ensures Holds(Remove(list, adapter))
      ensures mSent == old(mSent) + Sent(list, Call.RemoveAdapter(adapter))
    {
      RemoveKeeps(list, adapter);
      var i := 0;
      while i < MAX_ADAPTERS && mLocAdapters[i] != null
        invariant 0 <= i <= |list| && Holds(list) && mSent == old(mSent)
        invariant forall k :: 0 <= k < i ==> list[k] != adapter
      {
        if mLocAdapters[i] == adapter {
          assert i == GapFill.IndexOf(list, adapter);
          mLocAdapters[i] := null;
          var j := i;
          i := i + 1;
          while i < MAX_ADAPTERS && mLocAdapters[i] != null
            invariant j < i <= |list|
          {
            i := i + 1;
          }
          i := i - 1;
          assert i == |list| - 1;
          mLocAdapters[j] := mLocAdapters[i];
          mLocAdapters[i] := null;
          mSent := mSent + [if i == 0 then Close else Reopen];
          // The slot after the last one is null or past the end: the loop ends here.
          return;
        }
        i := i + 1;
      }
    }

    /** The union over exactly the registered adapters, without the excluded events. */
    method GetEvtMask(ghost list: seq<LocAdapter>) returns (mask: set<nat>)
      requires Holds(list)
      ensures forall e :: e in mask <==> e !in mExcludedMask && exists k :: 0 <= k < |list| && e in list[k].mEvtMask
    {
      mask := {};
      var i := 0;
      while i < MAX_ADAPTERS && mLocAdapters[i] != null
        invariant 0 <= i <= |list|
        invariant forall e :: e in mask <==> exists k :: 0 <= k < i && e in list[k].mEvtMask
      {
        mask := mask + mLocAdapters[i].mEvtMask;
        i := i + 1;
      }
      mask := mask - mExcludedMask;
    }
  }
}
