/**
 * A merge as operations on the shortcut (algorithm/layeredLSM/run_merge.cpp:266-308, 387-474): every flushed round is
 * a bulk link and every whole block a checked move, so that the directories, the counters and the cursors go through
 * a merge as the flat map of owners does.
 */
module MergeShortcut {
  import opened Layout
  import opened ShortcutCodec
  import opened ShortcutMaster
  import opened ShortcutHistory
  import opened MergeSpec
  import SummarySearch
  import RunMerge

  type Part = MergeSpec.Part<RunMerge.MovedBlock>

  function LbasOf(es: seq<Out>): seq<nat> {
    seq(|es|, i requires 0 <= i < |es| => es[i].item.lba)
  }

  function PairLbas(pairs: seq<SummarySearch.Pair>): seq<nat> {
    seq(|pairs|, i requires 0 <= i < |pairs| => pairs[i].lba)
  }

  /** What the shortcut is asked to do for a part. */
  function OpOf(p: Part, runs: seq<RunMerge.Run>, infos: seq<Info>, slot: Slot): Op
    requires p.Whole? ==> p.moved.source < |runs|
  {
    if p.Copied? then Bulk(LbasOf(p.entries), slot, true)
    else Carry(infos, runs[p.moved.source].slot, slot, PairLbas(p.moved.block.pairs))
  }

  ghost predicate Sourced(parts: seq<Part>, n: nat) {
    forall k :: 0 <= k < |parts| && parts[k].Whole? ==> parts[k].moved.source < n
  }

  function OpsOf(parts: seq<Part>, runs: seq<RunMerge.Run>, infos: seq<Info>, slot: Slot): seq<Op>
    requires Sourced(parts, |runs|)
  {
    seq(|parts|, k requires 0 <= k < |parts| => OpOf(parts[k], runs, infos, slot))
  }

  /** Entries that whole blocks carry without a link. */
  function StaleIn(parts: seq<Part>): int {
    if parts == [] then 0
    else
      StaleIn(parts[..|parts| - 1]) + StaleOf(parts[|parts| - 1])
  }

  function StaleOf(p: Part): int {
    if p.Whole? then |p.moved.block.pairs| - |p.linked| else 0
  }

  /** The parts of a merge that is over. */
  ghost predicate MergedInto(job: RunMerge.Job, parts: seq<Part>) {
    job.Ok() && Merged(job.Flats(), job.Live(), AllEntries(parts)) && RunMerge.PartsOk(parts, job)
  }

  // ----- entries of a prefix

  lemma {:induction false} PrefixEntries(parts: seq<Part>, k: nat)
    requires k < |parts|
    ensures AllEntries(parts[..k + 1]) == AllEntries(parts[..k]) + parts[k].Entries()
  {
    assert parts[..k + 1] == parts[..k] + [parts[k]];
    AllEntriesConcat(parts[..k], [parts[k]]);
    OnePart(parts[k]);
  }

  lemma {:induction false} SplitEntries(parts: seq<Part>, k: nat)
    requires k <= |parts|
    ensures AllEntries(parts) == AllEntries(parts[..k]) + AllEntries(parts[k..])
  {
    assert parts == parts[..k] + parts[k..];
    AllEntriesConcat(parts[..k], parts[k..]);
  }

  /** The entries of a part are in order, and none of their lbas was emitted before. */
  lemma {:induction false} PartInOrder(parts: seq<Part>, k: nat)
    requires k < |parts| && InLbaOrder(AllEntries(parts))
    ensures InLbaOrder(parts[k].Entries())
    ensures forall o :: o in parts[k].Entries() ==> o.item.lba !in Lbas(AllEntries(parts[..k]))
  {
    SplitEntries(parts, k + 1);
    PrefixEntries(parts, k);
    var before, here, after := AllEntries(parts[..k]), parts[k].Entries(), AllEntries(parts[k + 1..]);
    InnerInOrder(before, here, after, AllEntries(parts));
  }

  lemma {:induction false} InnerInOrder(a: seq<Out>, b: seq<Out>, c: seq<Out>, all: seq<Out>)
    requires all == a + b + c && InLbaOrder(all)
    ensures InLbaOrder(b) && forall o :: o in b ==> o.item.lba !in Lbas(a)
  {
    forall i, j | 0 <= i < j < |b| ensures b[i].item.lba < b[j].item.lba {
      assert all[|a| + i] == b[i] && all[|a| + j] == b[j];
    }
    forall j, o | 0 <= j < |b| && o in a ensures o.item.lba < b[j].item.lba {
      var i :| 0 <= i < |a| && a[i] == o;
      assert all[i] == o && all[|a| + j] == b[j];
    }
  }

  /** A block that moves whole finds its lbas as they were before the merge. */
  lemma {:induction false} BlockUntouched(job: RunMerge.Job, parts: seq<Part>, k: nat, i: nat)
    requires MergedInto(job, parts) && k < |parts| && parts[k].Whole? && i < |parts[k].moved.block.pairs|
    ensures parts[k].moved.block.pairs[i].lba !in Lbas(AllEntries(parts[..k]))
  {
    var p := parts[k];
    assert p in parts;
    var t, b := p.moved.source, p.moved.index;
    var x := job.runs[t].blocks[b].Items(b)[i];
    if job.Alive(t, x) {
      LiveOfExact(job.runs[t].blocks[b].Items(b), t, job.Live());
      LinkedNotBefore(parts, k, Out(t, x));
    } else {
      RunMerge.StaleIsNotEmitted(job, AllEntries(parts), p, i);
      PrefixLbas(parts, k, x.lba);
    }
  }

  lemma {:induction false} LinkedNotBefore(parts: seq<Part>, k: nat, o: Out)
    requires k < |parts| && InLbaOrder(AllEntries(parts)) && o in parts[k].Entries()
    ensures o.item.lba !in Lbas(AllEntries(parts[..k]))
  {
    PartInOrder(parts, k);
  }

  lemma {:induction false} PrefixLbas(parts: seq<Part>, k: nat, l: nat)
    requires k <= |parts|
    ensures l in Lbas(AllEntries(parts[..k])) ==> l in Lbas(AllEntries(parts))
  {
    SplitEntries(parts, k);
  }

  // ----- one part

  /** The shortcut's own check keeps what the merge links, when both checks agree on every pair. */
  lemma {:induction false} KeptIsLinked(owners: seq<Slot>, infos: seq<Info>, src: Slot, lbas: seq<nat>,
                                        items: seq<Item>, t: nat,
                                        live: (nat, Item) -> bool, n: nat)
    requires src < |infos| && n <= |lbas| == |items|
    requires forall l :: 0 <= l < |owners| ==> owners[l] < |infos| || owners[l] == NOT_ASSIGNED
    requires forall i :: 0 <= i < |lbas| ==> lbas[i] < |owners| && items[i].lba == lbas[i]
    requires forall i :: 0 <= i < |lbas| ==> live(t, items[i]) == OwnerNotNewer(owners[lbas[i]], infos, src)
    ensures forall i :: 0 <= i < n ==> lbas[..n][i] < |owners|
    ensures KeptOf(owners, infos, src, lbas[..n]) == LbasOf(LiveOf(items[..n], t, live))
  {
    if n > 0 {
      KeptIsLinked(owners, infos, src, lbas, items, t, live, n - 1);
      assert lbas[..n][..n - 1] == lbas[..n - 1];
      LiveOfNext(items, t, live, n - 1);
      LbasOfMore(LiveOf(items[..n - 1], t, live), Out(t, items[n - 1]));
    }
  }

  lemma {:induction false} LbasOfMore(es: seq<Out>, o: Out)
    ensures LbasOf(es + [o]) == LbasOf(es) + [o.item.lba] && LbasOf(es + []) == LbasOf(es)
  {
    assert es + [] == es;
  }

  lemma {:induction false} LbasOfIn(es: seq<Out>, l: nat)
    ensures l in LbasOf(es) <==> l in Lbas(es)
  {
    if l in Lbas(es) {
      var o :| o in es && o.item.lba == l;
      var i :| 0 <= i < |es| && es[i] == o;
      assert LbasOf(es)[i] == l;
    }
  }

  /** The state of the shortcut after some parts. */
  ghost predicate Halfway(st: State, job: RunMerge.Job, out: seq<Out>, slot: Slot) {
    && st.books.Ok() && |st.books.linked| == |job.infos| && slot < |job.infos|
    && RunMerge.LinkedOwners(st.books.owners, job, out, slot)
  }

  lemma {:induction false} CopiedStep(st: State, job: RunMerge.Job, out: seq<Out>, es: seq<Out>, slot: Slot)
    requires Halfway(st, job, out, slot) && es != [] && InLbaOrder(es)
    requires forall o :: o in es ==> o.item.lba < |job.owners|
    ensures st.Allows(Bulk(LbasOf(es), slot, true))
    ensures Halfway(st.After(Bulk(LbasOf(es), slot, true)), job, out + es, slot)
  {
    var lbas := LbasOf(es);
    forall k | 0 <= k < |lbas| ensures lbas[k] < |job.owners| {
      assert es[k] in es;
    }
    LinkAllEffect(st.books, lbas, slot, true);
    LinkedAfter(st.books.owners, st.After(Bulk(lbas, slot, true)).books.owners, job, out, es, slot);
  }

  /** Storing the lbas of es. */
  lemma {:induction false} LinkedAfter(owners: seq<Slot>, owners': seq<Slot>, job: RunMerge.Job, out: seq<Out>,
                                       es: seq<Out>, slot: Slot)
    requires RunMerge.LinkedOwners(owners, job, out, slot) && |owners'| == |owners|
    requires forall l :: 0 <= l < |owners| ==> owners'[l] == if l in LbasOf(es) then slot else owners[l]
    ensures RunMerge.LinkedOwners(owners', job, out + es, slot)
  {
    assert Lbas(out + es) == Lbas(out) + Lbas(es);
    forall l | 0 <= l < |owners| ensures owners'[l] == if l in Lbas(out + es) then slot else job.owners[l] {
      LbasOfIn(es, l);
    }
  }

  lemma {:induction false} WholeStep(st: State, job: RunMerge.Job, parts: seq<Part>, k: nat, slot: Slot)
    requires MergedInto(job, parts) && k < |parts| && parts[k].Whole? && parts[k].moved.source < |job.runs|
    requires Halfway(st, job, AllEntries(parts[..k]), slot)
    ensures var op := OpOf(parts[k], job.runs, job.infos, slot);
            st.Allows(op) && Halfway(st.After(op), job, AllEntries(parts[..k]) + parts[k].linked, slot)
            && KeptOf(st.books.owners, job.infos, op.src, op.lbas) == LbasOf(parts[k].linked)
  {
    var p := parts[k];
    assert p in parts;
    var src, lbas := job.runs[p.moved.source].slot, PairLbas(p.moved.block.pairs);
    WholeKeeps(st, job, parts, k, slot, src, lbas);
    CarryStep(st, job, AllEntries(parts[..k]), slot, src, lbas, p.linked);
  }

  /** What the check of a whole move keeps is what the merge links. */
  lemma {:induction false} WholeKeeps(st: State, job: RunMerge.Job, parts: seq<Part>, k: nat, slot: Slot, src: Slot,
                                      lbas: seq<nat>)
    requires MergedInto(job, parts) && k < |parts| && parts[k].Whole? && parts[k] in parts
    requires Halfway(st, job, AllEntries(parts[..k]), slot)
    requires src == job.runs[parts[k].moved.source].slot && lbas == PairLbas(parts[k].moved.block.pairs)
    ensures lbas != [] && Increasing(lbas) && (forall i :: 0 <= i < |lbas| ==> lbas[i] < |st.books.owners|)
    ensures OwnerNotNewer(st.books.owners[lbas[0]], job.infos, src)
    ensures KeptOf(st.books.owners, job.infos, src, lbas) == LbasOf(parts[k].linked)
  {
    var p := parts[k];
    var t, b := p.moved.source, p.moved.index;
    var items := job.runs[t].blocks[b].Items(b);
    BlockLbas(job, t, b);
    forall i | 0 <= i < |lbas|
      ensures lbas[i] < |st.books.owners| && items[i].lba == lbas[i]
      ensures job.Live()(t, items[i]) == OwnerNotNewer(st.books.owners[lbas[i]], job.infos, src)
    {
      BlockUntouched(job, parts, k, i);
    }
    KeptIsLinked(st.books.owners, job.infos, src, lbas, items, t, job.Live(), |lbas|);
    assert lbas[..|lbas|] == lbas && items[..|items|] == items;
  }

  lemma {:induction false} CarryStep(st: State, job: RunMerge.Job, out: seq<Out>, slot: Slot, src: Slot,
                                     lbas: seq<nat>, es: seq<Out>)
    requires Halfway(st, job, out, slot) && src < |job.infos|
    requires lbas != [] && Increasing(lbas) && forall i :: 0 <= i < |lbas| ==> lbas[i] < |st.books.owners|
    requires OwnerNotNewer(st.books.owners[lbas[0]], job.infos, src)
    requires KeptOf(st.books.owners, job.infos, src, lbas) == LbasOf(es)
    ensures st.Allows(Carry(job.infos, src, slot, lbas))
    ensures Halfway(st.After(Carry(job.infos, src, slot, lbas)), job, out + es, slot)
  {
    MovedOwners(st.books, job.infos, src, slot, lbas);
    LinkedAfter(st.books.owners, MovedWhole(st.books, job.infos, src, slot, lbas).owners, job, out, es, slot);
  }

  /** A whole move gives exactly the kept lbas to the target. */
  lemma {:induction false} MovedOwners(b: Books, infos: seq<Info>, src: Slot, des: Slot, lbas: seq<nat>)
    requires b.Ok() && |infos| == |b.linked| && src < |infos| && des < |infos|
    requires forall k :: 0 <= k < |lbas| ==> lbas[k] < |b.owners|
    ensures var owners := MovedWhole(b, infos, src, des, lbas).owners;
            |owners| == |b.owners|
            && forall l :: 0 <= l < |owners| ==>
                owners[l] == if l in KeptOf(b.owners, infos, src, lbas) then des else b.owners[l]
  {
    var keep := KeptOf(b.owners, infos, src, lbas);
    var c := b.Charge(des, |lbas| - |keep|);
    LinkAllEffect(c, keep, des, true);
    assert c.owners == b.owners && MovedWhole(b, infos, src, des, lbas) == c.LinkAll(keep, des, true);
  }

  /** The lbas of a block of a sorted run are increasing and in range. */
  lemma {:induction false} BlockLbas(job: RunMerge.Job, t: nat, b: nat)
    requires job.Ok() && t < |job.runs| && b < |job.runs[t].blocks|
    ensures var lbas := PairLbas(job.runs[t].blocks[b].pairs);
            lbas != [] && Increasing(lbas) && forall i :: 0 <= i < |lbas| ==> lbas[i] < |job.owners|
  {
    var run := job.runs[t];
    var items := run.blocks[b].Items(b);
    RunMerge.BlocksOrdered(run, 0);
    forall i, j | 0 <= i < j < |items| ensures run.blocks[b].pairs[i].lba < run.blocks[b].pairs[j].lba {
      assert items[i].lba < items[j].lba;
    }
    forall i | 0 <= i < |items| ensures run.blocks[b].pairs[i].lba < |job.owners| {
      RunMerge.BlockInRun(run, 0, b, items[i]);
    }
  }

  // ----- the whole merge

  lemma {:induction false} AllSourced(job: RunMerge.Job, parts: seq<Part>)
    requires job.Ok() && RunMerge.PartsOk(parts, job)
    ensures Sourced(parts, |job.runs|)
  {
    forall k | 0 <= k < |parts| && parts[k].Whole? ensures parts[k].moved.source < |job.runs| {
      assert parts[k] in parts;
    }
  }

  lemma {:induction false} EntriesInRange(job: RunMerge.Job, parts: seq<Part>, k: nat)
    requires MergedInto(job, parts) && k < |parts|
    ensures forall o :: o in parts[k].Entries() ==> o.item.lba < |job.owners|
  {
    forall o | o in parts[k].Entries() ensures o.item.lba < |job.owners| {
      PartInside(parts, parts[k], o);
      assert Chosen(job.Flats(), job.Live(), o);
    }
  }

  /** One part as an operation on the shortcut, with the entries it carries without a link. */
  lemma {:induction false} PartStep(st: State, job: RunMerge.Job, parts: seq<Part>, k: nat, slot: Slot, s: Slot)
    requires MergedInto(job, parts) && k < |parts| && Sourced(parts, |job.runs|) && s < |job.infos|
    requires Halfway(st, job, AllEntries(parts[..k]), slot)
    ensures var op := OpOf(parts[k], job.runs, job.infos, slot);
            && st.Allows(op) && InUse(op, s) && Halfway(st.After(op), job, AllEntries(parts[..k + 1]), slot)
            && Stale(st, op, s) == if s == slot then StaleOf(parts[k]) else 0
  {
    PrefixEntries(parts, k);
    PartInOrder(parts, k);
    EntriesInRange(job, parts, k);
    assert parts[k] in parts;
    if parts[k].Copied? {
      CopiedStep(st, job, AllEntries(parts[..k]), parts[k].entries, slot);
    } else {
      WholeStep(st, job, parts, k, slot);
    }
  }

  /**
   * The operations ran, left the owners of out, kept slot s in use, and carried n entries to the target without a
   * link.
   */
  ghost predicate Followed(st: State, ops: seq<Op>, job: RunMerge.Job, out: seq<Out>, slot: Slot, s: Slot, n: int) {
    && Feasible(st, ops) && Halfway(Final(st, ops), job, out, slot) && AllInUse(ops, s)
    && Carried(st, ops, s) == if s == slot then n else 0
  }

  ghost predicate AllInUse(ops: seq<Op>, s: Slot) {
    forall i :: 0 <= i < |ops| ==> InUse(ops[i], s)
  }

  /** One operation more. */
  lemma {:induction false} FollowMore(st: State, init: seq<Op>, op: Op, job: RunMerge.Job, out: seq<Out>,
                                      out': seq<Out>, slot: Slot,
                                      s: Slot, n: int, m: int)
    requires Followed(st, init, job, out, slot, s, n) && Final(st, init).Allows(op) && InUse(op, s)
    requires Halfway(Final(st, init).After(op), job, out', slot)
    requires Stale(Final(st, init), op, s) == if s == slot then m else 0
    ensures Followed(st, init + [op], job, out', slot, s, n + m)
  {
    assert (init + [op])[..|init|] == init;
  }

  /**
   * The operations of a merge can be performed on any shortcut with its owners and leave the owners of the merge; the
   * counters of the target fall behind by exactly the entries carried without a link, those of all other slots stay.
   */
  lemma {:induction false} MergeIsHistory(job: RunMerge.Job, parts: seq<Part>, slot: Slot, st: State, k: nat, s: Slot)
    requires MergedInto(job, parts) && k <= |parts| && Sourced(parts, |job.runs|) && s < |job.infos|
    requires Halfway(st, job, [], slot)
    ensures Followed(st, OpsOf(parts, job.runs, job.infos, slot)[..k], job, AllEntries(parts[..k]), slot, s,
        StaleIn(parts[..k]))
  {
    var all := OpsOf(parts, job.runs, job.infos, slot);
    if k > 0 {
      MergeIsHistory(job, parts, slot, st, k - 1, s);
      HistoryStep(job, parts, slot, st, all[..k - 1], k - 1, s, StaleIn(parts[..k - 1]));
      PrefixOps(parts, job.runs, job.infos, slot, k - 1);
    }
  }

  lemma {:induction false} PrefixOps(parts: seq<Part>, runs: seq<RunMerge.Run>, infos: seq<Info>, slot: Slot, k: nat)
    requires Sourced(parts, |runs|) && k < |parts|
    ensures OpsOf(parts, runs, infos, slot)[..k + 1]
        == OpsOf(parts, runs, infos, slot)[..k] + [OpOf(parts[k], runs, infos, slot)]
    ensures StaleIn(parts[..k + 1]) == StaleIn(parts[..k]) + StaleOf(parts[k])
  {
    assert parts[..k + 1][..k] == parts[..k];
  }

  lemma {:induction false} HistoryStep(job: RunMerge.Job, parts: seq<Part>, slot: Slot, st: State, init: seq<Op>,
                                       k: nat, s: Slot, n: int)
    requires MergedInto(job, parts) && k < |parts| && Sourced(parts, |job.runs|) && s < |job.infos|
    requires Followed(st, init, job, AllEntries(parts[..k]), slot, s, n)
    ensures Followed(st, init + [OpOf(parts[k], job.runs, job.infos, slot)], job, AllEntries(parts[..k + 1]), slot, s,
        n + StaleOf(parts[k]))
  {
    PartStep(Final(st, init), job, parts, k, slot, s);
    FollowMore(st, init, OpOf(parts[k], job.runs, job.infos, slot), job, AllEntries(parts[..k]),
        AllEntries(parts[..k + 1]), slot, s, n,
               StaleOf(parts[k]));
  }

  /** Reads the owners out of the shortcut. */
  method CopyOwners(m: Master, range: nat) returns (owners: array<Slot>)
    requires m.Valid() && range == |m.books.owners|
    ensures fresh(owners) && owners[..] == m.books.owners
  {
    owners := new Slot[range](_ => NOT_ASSIGNED);
    for l := 0 to range
      invariant forall i :: 0 <= i < l ==> owners[i] == m.books.owners[i]
    {
      owners[l] := m.Query(l);
    }
  }

  /**
   * run_merge with the shortcut of directories: its operations leave the shortcut sound and give exactly the emitted
   * lbas to the target run. Linked minus unlinked of the target falls behind the lbas it owns by exactly the stale
   * entries of blocks moved whole, and keeps its distance for every other slot.
   */
  method MergeOnShortcut(m: Master, range: nat, runs: seq<RunMerge.Run>, infos: seq<Info>, slot: Slot, bps: nat,
                         force: bool)
    returns (parts: seq<Part>, ghost job: RunMerge.Job)
    requires m.Valid() && range == |m.books.owners| && |infos| == m.linked.Length && slot < |infos|
    requires RunMerge.Mergeable(runs, m.books.owners, infos) && (force || |runs| <= 4 * bps)
    modifies m`memoryUsage, m`books, m`sizes, m`tree, m.dirs, m.Bitmaps(), m.linked, m.unlinked, m.Cursors()
    ensures m.Valid() && job.runs == runs && job.owners == old(m.books.owners) && job.infos == infos
    ensures MergedInto(job, parts)
    ensures RunMerge.LinkedOwners(m.books.owners, job, AllEntries(parts), slot)
    ensures |m.books.linked| == |m.books.unlinked| == |infos|
    ensures forall s :: 0 <= s < |infos| ==>
              m.books.Excess(s) == old(m.books).Excess(s) - if s == slot then StaleIn(parts) else 0
  {
    var owners := CopyOwners(m, range);
    parts, job := RunMerge.RunMerge(runs, owners, infos, slot, bps, force);
    AllSourced(job, parts);
    var ops := OpsOf(parts, runs, infos, slot);
    ghost var st := State(m.books, 0);
    HistoryEnds(job, parts, slot, st, ops);
    var _, _ := Execute(m, ops, []);
  }

  lemma {:induction false} HistoryEnds(job: RunMerge.Job, parts: seq<Part>, slot: Slot, st: State, ops: seq<Op>)
    requires MergedInto(job, parts) && Sourced(parts, |job.runs|) && ops == OpsOf(parts, job.runs, job.infos, slot)
    requires st.books.Ok() && st.books.owners == job.owners && |st.books.linked| == |job.infos| && slot < |job.infos|
    ensures Feasible(st, ops) && RunMerge.LinkedOwners(Final(st, ops).books.owners, job, AllEntries(parts), slot)
    ensures forall s :: 0 <= s < |job.infos| ==>
              Final(st, ops).books.Excess(s) == st.books.Excess(s) - if s == slot then StaleIn(parts) else 0
  {
    assert Halfway(st, job, [], slot);
    assert ops[..|parts|] == ops && parts[..|parts|] == parts;
    forall s: Slot | s < |job.infos|
      ensures Feasible(st, ops) && RunMerge.LinkedOwners(Final(st, ops).books.owners, job, AllEntries(parts), slot)
      ensures Final(st, ops).books.Excess(s) == st.books.Excess(s) - if s == slot then StaleIn(parts) else 0
    {
      MergeIsHistory(job, parts, slot, st, |parts|, s);
      CountersInUse(st, ops, s);
    }
    assert slot < |job.infos|;
    MergeIsHistory(job, parts, slot, st, |parts|, slot);
  }
}
