/**
 * What compaction of sorted runs has to produce, and why the k-way step keeps it
 * (algorithm/layeredLSM/run_merge.cpp). A run is flattened to the items its cursor still has to deliver.
 */
module MergeSpec {

  /** One entry of a run with the block it lies in. */
  datatype Item = Item(lba: nat, psa: nat, block: nat)

  /** An emitted entry with the run it was taken from. */
  datatype Out = Out(run: nat, item: Item)

  ghost predicate StrictlySorted(s: seq<Item>) {
    forall i, j :: 0 <= i < j < |s| ==> s[i].lba < s[j].lba
  }

  ghost predicate InLbaOrder(out: seq<Out>) {
    forall i, j :: 0 <= i < j < |out| ==> out[i].item.lba < out[j].item.lba
  }

  ghost function Lbas(out: seq<Out>): set<nat> {
    set o | o in out :: o.item.lba
  }

  /**
   * The result of merging: strictly increasing lbas, every one taken from the lowest-indexed (newest) run whose copy
   * is live, and every lba with a live copy is there.
   */
  ghost predicate Merged(runs: seq<seq<Item>>, live: (nat, Item) -> bool, out: seq<Out>) {
    && InLbaOrder(out)
    && (forall o :: o in out ==> Chosen(runs, live, o))
    && (forall i, x :: 0 <= i < |runs| && x in runs[i] && live(i, x) ==> x.lba in Lbas(out))
  }

  /** o is a live copy and no lower-indexed run has one. */
  ghost predicate Chosen(runs: seq<seq<Item>>, live: (nat, Item) -> bool, o: Out) {
    && o.run < |runs| && o.item in runs[o.run] && live(o.run, o.item)
    && forall i, x :: 0 <= i < o.run && x in runs[i] && x.lba == o.item.lba ==> !live(i, x)
  }

  /** A merge in progress: left are the undelivered suffixes of the runs. */
  ghost predicate Merging(runs: seq<seq<Item>>, left: seq<seq<Item>>, live: (nat, Item) -> bool, out: seq<Out>) {
    Suffixes(runs, left) && InLbaOrder(out) && Ahead(left, out) && AllChosen(runs, live, out) &&
        Covered(runs, left, live, out)
  }

  ghost predicate Suffixes(runs: seq<seq<Item>>, left: seq<seq<Item>>) {
    && |left| == |runs|
    && forall i :: 0 <= i < |runs| ==> StrictlySorted(runs[i]) && IsSuffix(left[i], runs[i])
  }

  ghost predicate IsSuffix(t: seq<Item>, s: seq<Item>) {
    |t| <= |s| && s[|s| - |t|..] == t
  }

  /** Everything left lies beyond everything emitted. */
  ghost predicate Ahead(left: seq<seq<Item>>, out: seq<Out>) {
    forall o, i :: o in out && 0 <= i < |left| ==> Beyond(left[i], o.item.lba)
  }

  ghost predicate Beyond(s: seq<Item>, lba: nat) {
    forall x :: x in s ==> lba < x.lba
  }

  ghost predicate AllChosen(runs: seq<seq<Item>>, live: (nat, Item) -> bool, out: seq<Out>) {
    forall o :: o in out ==> Chosen(runs, live, o)
  }

  /** Every fresh item is still left or its lba was emitted. */
  ghost predicate Covered(runs: seq<seq<Item>>, left: seq<seq<Item>>, live: (nat, Item) -> bool, out: seq<Out>)
    requires |left| == |runs|
  {
    forall i, x :: 0 <= i < |runs| && x in runs[i] && live(i, x) ==> x in left[i] || x.lba in Lbas(out)
  }

  /** Nothing left: the merge is complete. */
  lemma {:induction false} MergeComplete(runs: seq<seq<Item>>, left: seq<seq<Item>>, live: (nat, Item) -> bool,
                                         out: seq<Out>)
    requires Merging(runs, left, live, out) && forall i :: 0 <= i < |left| ==> left[i] == []
    ensures Merged(runs, live, out)
  {
  }

  lemma {:induction false} MergeStarts(runs: seq<seq<Item>>, live: (nat, Item) -> bool)
    requires forall i :: 0 <= i < |runs| ==> StrictlySorted(runs[i])
    ensures Merging(runs, runs, live, [])
  {
  }

  // ----- one step of a suffix

  lemma {:induction false} SuffixTail(t: seq<Item>, s: seq<Item>)
    requires IsSuffix(t, s) && t != []
    ensures IsSuffix(t[1..], s) && t[0] in s
    ensures forall x :: x in t <==> x == t[0] || x in t[1..]
  {
    assert t == [t[0]] + t[1..];
    assert s[|s| - |t|] == t[0];
  }

  lemma {:induction false} SuffixSorted(t: seq<Item>, s: seq<Item>)
    requires StrictlySorted(s) && IsSuffix(t, s)
    ensures StrictlySorted(t)
  {
    forall i, j | 0 <= i < j < |t| ensures t[i].lba < t[j].lba {
      var d := |s| - |t|;
      assert s[d + i] == s[d..][i] && s[d + j] == s[d..][j];
    }
  }

  /** An lba below the head is below the whole suffix; an lba at the head is below the rest. */
  lemma {:induction false} HeadIsLeast(t: seq<Item>, s: seq<Item>, lba: nat)
    requires StrictlySorted(s) && IsSuffix(t, s) && (t != [] ==> lba <= t[0].lba)
    ensures t != [] && lba == t[0].lba ==> Beyond(t[1..], lba)
    ensures t == [] || lba < t[0].lba ==> Beyond(t, lba)
  {
    SuffixSorted(t, s);
  }

  // ----- one step of the merge

  /** A head that is not live is dropped. */
  lemma {:induction false} DropStale(runs: seq<seq<Item>>, left: seq<seq<Item>>, live: (nat, Item) -> bool,
                                     out: seq<Out>, t: nat)
    requires Merging(runs, left, live, out) && t < |left| && left[t] != [] && !live(t, left[t][0])
    ensures Merging(runs, left[t := left[t][1..]], live, out)
  {
    SuffixTail(left[t], runs[t]);
  }

  /** Every head with the given lba is passed. */
  ghost predicate Passed(left: seq<seq<Item>>, left': seq<seq<Item>>, lba: nat) {
    && |left'| == |left|
    && forall i :: 0 <= i < |left| ==>
         left'[i] == if left[i] != [] && left[i][0].lba == lba then left[i][1..] else left[i]
  }

  /** The smallest head, lowest run first, is emitted when live, and every head with its lba is passed. */
  lemma {:induction false} Emit(runs: seq<seq<Item>>, left: seq<seq<Item>>, left': seq<seq<Item>>, live: (nat,
                                Item) -> bool,
             out: seq<Out>, t: nat, out': seq<Out>)
    requires Merging(runs, left, live, out) && t < |left| && left[t] != [] && live(t, left[t][0])
    requires out' == out + [Out(t, left[t][0])]
    requires forall i :: 0 <= i < |left| && left[i] != [] ==> left[t][0].lba <= left[i][0].lba
    requires forall i :: 0 <= i < t && left[i] != [] ==> left[t][0].lba < left[i][0].lba
    requires Passed(left, left', left[t][0].lba)
    ensures Merging(runs, left', live, out')
  {
    var x0 := left[t][0];
    SuffixTail(left[t], runs[t]);
    EmitChosen(runs, left, live, out, t);
    forall i | 0 <= i < |left| ensures Beyond(left'[i], x0.lba) && IsSuffix(left'[i], runs[i]) {
      HeadIsLeast(left[i], runs[i], x0.lba);
      if left[i] != [] {
        SuffixTail(left[i], runs[i]);
      }
    }
    EmitAhead(left, left', out, Out(t, x0));
    EmitCovered(runs, left, left', live, out, Out(t, x0));
  }

  lemma {:induction false} EmitChosen(runs: seq<seq<Item>>, left: seq<seq<Item>>, live: (nat, Item) -> bool,
                                      out: seq<Out>, t: nat)
    requires Merging(runs, left, live, out) && t < |left| && left[t] != [] && live(t, left[t][0])
    requires forall i :: 0 <= i < t && left[i] != [] ==> left[t][0].lba < left[i][0].lba
    ensures Chosen(runs, live, Out(t, left[t][0]))
  {
    var x0 := left[t][0];
    SuffixTail(left[t], runs[t]);
    assert x0 in left[t];
    forall i, x | 0 <= i < t && x in runs[i] && x.lba == x0.lba ensures !live(i, x) {
      HeadIsLeast(left[i], runs[i], x0.lba);
    }
  }

  lemma {:induction false} EmitAhead(left: seq<seq<Item>>, left': seq<seq<Item>>, out: seq<Out>, o: Out)
    requires Ahead(left, out) && InLbaOrder(out) && Passed(left, left', o.item.lba)
    requires o.run < |left| && left[o.run] != [] && left[o.run][0] == o.item
    requires forall i :: 0 <= i < |left| ==> Beyond(left'[i], o.item.lba)
    ensures Ahead(left', out + [o]) && InLbaOrder(out + [o])
  {
    forall p | p in out ensures p.item.lba < o.item.lba {
      assert Beyond(left[o.run], p.item.lba) && o.item in left[o.run];
    }
    forall p, i | p in out + [o] && 0 <= i < |left'| ensures Beyond(left'[i], p.item.lba) {
    }
  }

  lemma {:induction false} EmitCovered(runs: seq<seq<Item>>, left: seq<seq<Item>>, left': seq<seq<Item>>, live: (nat,
                                       Item) -> bool,
                    out: seq<Out>, o: Out)
    requires Suffixes(runs, left) && Covered(runs, left, live, out) && Passed(left, left', o.item.lba)
    ensures Covered(runs, left', live, out + [o])
  {
    assert Lbas(out + [o]) == Lbas(out) + {o.item.lba};
    forall i, x | 0 <= i < |runs| && x in runs[i] && live(i, x) ensures x in left'[i] || x.lba in Lbas(out + [o]) {
      if x in left[i] {
        SuffixTail(left[i], runs[i]);
      }
    }
  }

  lemma {:induction false} Regroup(a: seq<Out>, b: seq<Out>, c: seq<Out>)
    ensures a + b + c == a + (b + c)
  {
  }

  // ----- what comes out of a merge

  /** The items that pass their check, in order. */
  ghost function LiveOf(items: seq<Item>, run: nat, live: (nat, Item) -> bool): (out: seq<Out>)
    ensures |out| <= |items|
  {
    if items == [] then []
    else
      var n := |items| - 1;
      LiveOf(items[..n], run, live) + if live(run, items[n]) then [Out(run, items[n])] else []
  }

  lemma {:induction false} LiveOfNext(items: seq<Item>, run: nat, live: (nat, Item) -> bool, n: nat)
    requires n < |items|
    ensures LiveOf(items[..n + 1], run, live)
            == LiveOf(items[..n], run, live) + if live(run, items[n]) then [Out(run, items[n])] else []
  {
    assert items[..n + 1][..n] == items[..n];
  }

  /** Each is there exactly when it passes, and all of them exactly when all pass. */
  lemma {:induction false} LiveOfExact(items: seq<Item>, run: nat, live: (nat, Item) -> bool)
    ensures forall o :: o in LiveOf(items, run, live) <==> o.run == run && o.item in items && live(run, o.item)
    ensures |LiveOf(items, run, live)| == |items| <==> forall x :: x in items ==> live(run, x)
  {
    if items != [] {
      var n := |items| - 1;
      LiveOfExact(items[..n], run, live);
      assert items == items[..n] + [items[n]];
    }
  }

  lemma {:induction false} LiveOfInOrder(items: seq<Item>, run: nat, live: (nat, Item) -> bool)
    requires StrictlySorted(items)
    ensures InLbaOrder(LiveOf(items, run, live))
  {
    if items != [] {
      var n := |items| - 1;
      LiveOfInOrder(items[..n], run, live);
      LiveOfExact(items[..n], run, live);
      var before := LiveOf(items[..n], run, live);
      forall k | 0 <= k < |before| ensures before[k].item.lba < items[n].lba {
        assert before[k] in before;
      }
    }
  }

  /**
   * What a merge hands to the target run: copied entries, or a block as it is with the entries of it that were
   * linked.
   */
  datatype Part<B> = Copied(entries: seq<Out>) | Whole(moved: B, linked: seq<Out>)
  {
    function Entries(): seq<Out> {
      if Copied? then entries else linked
    }
  }

  function AllEntries<B>(parts: seq<Part<B>>): seq<Out> {
    if parts == [] then [] else parts[0].Entries() + AllEntries(parts[1..])
  }

  lemma {:induction false} AllEntriesConcat<B>(a: seq<Part<B>>, b: seq<Part<B>>)
    ensures AllEntries(a + b) == AllEntries(a) + AllEntries(b)
  {
    if a == [] {
      assert a + b == b;
    } else {
      AllEntriesConcat(a[1..], b);
      assert (a + b)[1..] == a[1..] + b && (a + b)[0] == a[0];
      Regroup(a[0].Entries(), AllEntries(a[1..]), AllEntries(b));
    }
  }

  lemma {:induction false} OnePart<B>(p: Part<B>)
    ensures AllEntries([p]) == p.Entries()
  {
    assert [p][1..] == [];
  }

  lemma {:induction false} PartInside<B>(parts: seq<Part<B>>, p: Part<B>, o: Out)
    requires p in parts && o in p.Entries()
    ensures o in AllEntries(parts)
  {
    if p != parts[0] {
      PartInside(parts[1..], p, o);
    }
  }

  /** shortcut_link_bulk_lba over the flat map. */
  method Link<T>(owners: array<T>, entries: seq<Out>, slot: T)
    requires forall o :: o in entries ==> o.item.lba < owners.Length
    modifies owners
    ensures forall l :: 0 <= l < owners.Length ==> owners[l] == if l in Lbas(entries) then slot else old(owners[l])
  {
    for i := 0 to |entries|
      invariant forall l :: 0 <= l < owners.Length ==>
          owners[l] == if l in Lbas(entries[..i]) then slot else old(owners[l])
    {
      owners[entries[i].item.lba] := slot;
      assert Lbas(entries[..i + 1]) == Lbas(entries[..i]) + {entries[i].item.lba} by {
        assert entries[..i + 1] == entries[..i] + [entries[i]];
      }
    }
    assert entries[..|entries|] == entries;
  }
}
