/**
 * Compaction of one log run: its cursor walks the run's map, an lba-ordered tree, instead of the summaries, and blocks
 * whose range overlaps no other block of the run are moved whole
 * (algorithm/layeredLSM/run_merge.cpp:322-530, summary_page_set.cpp:35-207, translation_functions/tree_mapping.cpp).
 */
module LogMerge {
  import opened Layout
  import opened ShortcutCodec
  import opened MergeSpec
  import opened SummarySearch
  import ShortcutMaster

  /**
   * The lba range of every block, whether it may be moved, and the map in iteration order: for every lba written to the
   * run its last entry, tagged with the block it lies in.
   */
  datatype LogRun = LogRun(slot: Slot, spm: seq<Range>, movable: seq<bool>, order: seq<Item>)
  {
    ghost predicate Ok() {
      && spm != [] && |movable| == |spm| && StrictlySorted(order)
      && (forall b {:trigger Covered(b)} :: 0 <= b < |spm| ==> Covered(b))
      && forall i :: 0 <= i < |order| ==> InBlock(order[i])
    }

    ghost predicate Has(lba: nat) {
      exists i :: 0 <= i < |order| && order[i].lba == lba
    }

    /** The first and the last lba of block b are in the map, like all lbas ever written. */
    ghost predicate Covered(b: nat)
      requires b < |spm|
    {
      spm[b].start <= spm[b].end && Has(spm[b].start) && Has(spm[b].end)
    }

    ghost predicate InBlock(x: Item) {
      x.block < |spm| && spm[x.block].start <= x.lba <= spm[x.block].end
    }

    /** Entries per block. */
    function PerBlock(): nat
      requires spm != []
    {
      |order| / |spm|
    }
  }

  /** The test under which the cursor never divides by zero: it steps off a single entry without dividing. */
  predicate Divides(run: LogRun) {
    |run.order| <= 1 || |run.spm| <= |run.order|
  }

  lemma {:induction false} PerBlockIs(run: LogRun)
    requires run.spm != []
    ensures run.PerBlock() == 0 <==> |run.order| < |run.spm|
    ensures |run.spm| == 1 ==> run.PerBlock() == |run.order|
  {
    var n, m := |run.order|, |run.spm|;
    if m <= n {
      assert n / m >= 1;
    }
  }

  // ----- what has to come out

  ghost predicate OwnersOk(owners: seq<Slot>, infos: seq<ShortcutMaster.Info>) {
    |infos| <= NOT_ASSIGNED && forall l :: 0 <= l < |owners| ==> owners[l] < |infos| || owners[l] == NOT_ASSIGNED
  }

  /** No run newer than src owns the lba of x. */
  ghost predicate Keeps(owners: seq<Slot>, infos: seq<ShortcutMaster.Info>, src: Slot, x: Item) {
    && src < |infos| && x.lba < |owners| && (owners[x.lba] < |infos| || owners[x.lba] == NOT_ASSIGNED)
    && ShortcutMaster.OwnerNotNewer(owners[x.lba], infos, src)
  }

  ghost function Keeping(owners: seq<Slot>, infos: seq<ShortcutMaster.Info>, src: Slot): (nat, Item) -> bool {
    (i: nat, x: Item) => Keeps(owners, infos, src, x)
  }

  /** The entries that no newer run owns, in order. */
  ghost function Kept(items: seq<Item>, owners: seq<Slot>, infos: seq<ShortcutMaster.Info>,
                      src: Slot): (out: seq<Out>) {
    LiveOf(items, 0, Keeping(owners, infos, src))
  }

  /** Exactly the entries that pass, each from the run, in strictly increasing order of lba. */
  lemma {:induction false} KeptExact(items: seq<Item>, owners: seq<Slot>, infos: seq<ShortcutMaster.Info>, src: Slot)
    requires StrictlySorted(items)
    ensures InLbaOrder(Kept(items, owners, infos, src))
    ensures forall o :: o in Kept(items, owners, infos, src) <==>
              o.run == 0 && o.item in items && Keeps(owners, infos, src, o.item)
  {
    LiveOfInOrder(items, 0, Keeping(owners, infos, src));
    LiveOfExact(items, 0, Keeping(owners, infos, src));
  }

  /** That is the merge of the single run. */
  lemma {:induction false} KeptIsMerged(items: seq<Item>, owners: seq<Slot>, infos: seq<ShortcutMaster.Info>, src: Slot)
    requires StrictlySorted(items)
    ensures Merged([items], Keeping(owners, infos, src), Kept(items, owners, infos, src))
  {
    KeptExact(items, owners, infos, src);
    var out := Kept(items, owners, infos, src);
    forall x | x in items && Keeps(owners, infos, src, x) ensures x.lba in Lbas(out) {
      assert Out(0, x) in out;
    }
  }

  // ----- a marked block among the entries

  /** The entries at or behind the start of a lone block and up to its end are its own. */
  lemma {:induction false} LoneBlock(run: LogRun, j: nat, x: Item)
    requires run.Ok() && j < |run.spm| && Alone(run.spm, j) && run.InBlock(x)
    ensures run.spm[j].start <= x.lba <= run.spm[j].end <==> x.block == j
  {
    if x.block != j {
      assert !Overlap(run.spm[x.block], run.spm[j]);
    }
  }

  /** A position from which the last lba of a block is still to come. */
  lemma {:induction false} EndAhead(run: LogRun, pos: nat, end: nat) returns (at: nat)
    requires run.Ok() && run.Has(end) && pos < |run.order| && run.order[pos].lba <= end
    ensures pos <= at < |run.order| && run.order[at].lba == end
  {
    at :| 0 <= at < |run.order| && run.order[at].lba == end;
  }

  /** Blocks that hold a single lba between them all overlap. */
  lemma {:induction false} SingleLbaOverlaps(run: LogRun, j: nat)
    requires run.Ok() && |run.order| == 1 && j < |run.spm| && Alone(run.spm, j)
    ensures |run.spm| == 1
  {
    if |run.spm| > 1 {
      var k := if j == 0 then 1 else 0;
      assert run.Covered(j) && run.Covered(k);
      OnlyLba(run, run.spm[k].start);
      OnlyLba(run, run.spm[k].end);
      OnlyLba(run, run.spm[j].start);
      OnlyLba(run, run.spm[j].end);
    }
  }

  lemma {:induction false} OnlyLba(run: LogRun, lba: nat)
    requires |run.order| == 1 && run.Has(lba)
    ensures lba == run.order[0].lba
  {
  }

  // ----- the cursor

  /** mm_container with the map iterator of a log run. */
  class LogCursor {
    const run: LogRun
    const marks: seq<nat>
    /** ste_per_ent */
    const per: nat
    var pos: nat
    var picked: nat
    var now: nat
    var proc: nat
    var done: bool
    var noncopyIdx: nat
    /** The program divided by zero and is gone. */
    var crashed: bool

    /** A cursor that has moved, over more than one entry, has something to divide by. */
    ghost predicate Valid()
      reads this
    {
      && !crashed && run.spm != [] && (pos > 0 && |run.order| > 1 ==> per > 0) && (pos == 0 ==> now == 0)
      && pos <= |run.order| && (done <==> pos == |run.order|) && picked <= pos
      && (!done ==> proc <= |run.order| && now <= |run.order|)
    }

    constructor (run: LogRun, marks: seq<nat>)
      requires run.spm != [] && run.order != []
      ensures Valid() && this.run == run && this.marks == marks && pos == 0 && proc == 0 && !done
      ensures (per == 0 <==> |run.order| < |run.spm|)
    {
      this.run, this.marks, per := run, marks, run.PerBlock();
      pos, picked, now, proc, done, noncopyIdx, crashed := 0, 0, 0, 0, false, 0, false;
      PerBlockIs(run);
    }

    /** sp_set_iter_move through __move_iter_target. */
    method Move()
      requires Valid() && !done
      modifies this`pos, this`picked, this`now, this`proc, this`done, this`crashed
      ensures crashed <==> per == 0 && |run.order| > 1
      ensures !crashed ==> Valid() && pos == old(pos) + 1
    {
      if pos + 1 == |run.order| {
        pos, done, now := pos + 1, true, now + 1;
      } else {
        pos := pos + 1;
        if now != |run.spm| {
          Count();
          if crashed {
            return;
          }
        } else {
          picked := picked + 1;
        }
      }
      proc := now;
    }

    /** sp_set_iter_move_ste from the last entry of a block. */
    method MoveSte(end: nat)
      requires Valid() && !done && run.order[pos].lba == end && StrictlySorted(run.order)
      requires (per > 0 || |run.order| > 1)
      modifies this`pos, this`picked, this`now, this`done, this`crashed
      ensures crashed <==> per == 0
      ensures !crashed ==> Valid() && pos == old(pos) + 1
    {
      SkipUpTo(end);
    }

    /** Over everything up to the end of the block; the container's block index stays behind. */
    method SkipUpTo(end: nat)
      requires !crashed && pos < |run.order| && run.order[pos].lba == end && picked <= pos && now <= |run.order|
      requires forall k :: pos < k < |run.order| ==> end < run.order[k].lba
      modifies this`pos, this`picked, this`now, this`done, this`crashed
      ensures crashed <==> per == 0
      ensures !crashed ==> pos == old(pos) + 1 && done == (pos == |run.order|) && picked <= pos && now <= |run.order|
    {
      while pos < |run.order| && run.order[pos].lba <= end
        invariant old(pos) <= pos <= old(pos) + 1 && pos <= |run.order| && picked <= pos && now <= |run.order|
        invariant !crashed && (pos > old(pos) ==> per > 0)
      {
        Count();
        if crashed {
          return;
        }
        pos := pos + 1;
      }
      done := pos == |run.order|;
    }

    /** The block index follows the entries picked: the division. */
    method Count()
      requires !crashed
      modifies this`picked, this`now, this`crashed
      ensures crashed <==> per == 0
      ensures !crashed ==> picked == old(picked) + 1 && now <= picked
    {
      picked := picked + 1;
      if per == 0 {
        crashed := true;
        return;
      }
      QuotientBound(picked, per);
      now := picked / per;
    }
  }

  // ----- merging

  /** The run can be merged: every lba has a place in the shortcut. */
  ghost predicate Ready(run: LogRun, owners0: seq<Slot>, infos: seq<ShortcutMaster.Info>) {
    && run.Ok() && OwnersOk(owners0, infos) && run.slot < |infos|
    && forall x :: x in run.order ==> x.lba < |owners0|
  }

  /** The first pos entries were handled and out came of them. */
  ghost predicate Upto(run: LogRun, pos: nat, owners0: seq<Slot>, infos: seq<ShortcutMaster.Info>, out: seq<Out>) {
    Ready(run, owners0, infos) && pos <= |run.order| && out == Kept(run.order[..pos], owners0, infos, run.slot)
  }

  /** The lbas of out belong to des, the others are as before the merge. */
  ghost predicate Linked(owners: seq<Slot>, owners0: seq<Slot>, out: seq<Out>, des: Slot) {
    |owners| == |owners0| && forall l :: 0 <= l < |owners| ==> owners[l] == if l in Lbas(out) then des else owners0[l]
  }

  /** One entry more. */
  lemma {:induction false} UptoNext(run: LogRun, pos: nat, owners0: seq<Slot>, infos: seq<ShortcutMaster.Info>,
                                    out: seq<Out>)
    requires Upto(run, pos, owners0, infos, out) && pos < |run.order|
    ensures run.order[pos].lba < |owners0| && run.order[pos].lba !in Lbas(out)
    ensures Upto(run, pos + 1, owners0, infos, out +
        if Passes(run, pos, owners0, infos) then [Out(0, run.order[pos])] else [])
  {
    LiveOfNext(run.order, 0, Keeping(owners0, infos, run.slot), pos);
    KeptExact(run.order[..pos], owners0, infos, run.slot);
    assert run.order[pos] in run.order;
  }

  /** The entry at pos passes its check. */
  ghost predicate Passes(run: LogRun, pos: nat, owners0: seq<Slot>, infos: seq<ShortcutMaster.Info>) {
    pos < |run.order| && Keeps(owners0, infos, run.slot, run.order[pos])
  }

  lemma {:induction false} UptoTaken(run: LogRun, pos: nat, owners0: seq<Slot>, infos: seq<ShortcutMaster.Info>,
                                     out: seq<Out>, sorted: seq<Out>)
    requires Upto(run, pos, owners0, infos, out + sorted) && Passes(run, pos, owners0, infos)
    ensures Upto(run, pos + 1, owners0, infos, out + (sorted + [Out(0, run.order[pos])]))
  {
    UptoNext(run, pos, owners0, infos, out + sorted);
    Regroup(out, sorted, [Out(0, run.order[pos])]);
  }

  lemma {:induction false} UptoDropped(run: LogRun, pos: nat, owners0: seq<Slot>, infos: seq<ShortcutMaster.Info>,
                                       out: seq<Out>)
    requires Upto(run, pos, owners0, infos, out) && pos < |run.order| && !Passes(run, pos, owners0, infos)
    ensures Upto(run, pos + 1, owners0, infos, out)
  {
    UptoNext(run, pos, owners0, infos, out);
    assert out + [] == out;
  }

  /** The head's lba was not linked in this merge: its owner is still the first one. */
  lemma {:induction false} HeadOwner(run: LogRun, pos: nat, owners0: seq<Slot>, infos: seq<ShortcutMaster.Info>,
                                     out: seq<Out>,
                                     owners: seq<Slot>, base: seq<Out>, des: Slot)
    requires Upto(run, pos, owners0, infos, out) && pos < |run.order| && Linked(owners, owners0, base, des)
    requires base <= out
    ensures run.order[pos].lba < |owners| == |owners0| && owners[run.order[pos].lba] == owners0[run.order[pos].lba]
    ensures owners0[run.order[pos].lba] < |infos| || owners0[run.order[pos].lba] == NOT_ASSIGNED
    ensures run.slot < |infos| && OwnersOk(owners0, infos)
  {
    UptoNext(run, pos, owners0, infos, out);
    LbasPrefix(base, out[|base|..]);
    assert base + out[|base|..] == out;
  }

  /** Linked after out was extended and its new entries were stored. */
  lemma {:induction false} LinkedMore(owners: seq<Slot>, owners': seq<Slot>, owners0: seq<Slot>, out: seq<Out>,
                                      more: seq<Out>, des: Slot)
    requires Linked(owners, owners0, out, des) && |owners'| == |owners|
    requires forall l :: 0 <= l < |owners| ==> owners'[l] == if l in Lbas(more) then des else owners[l]
    ensures Linked(owners', owners0, out + more, des)
  {
    assert Lbas(out + more) == Lbas(out) + Lbas(more);
  }

  lemma {:induction false} LbasPrefix(out: seq<Out>, more: seq<Out>)
    ensures Lbas(out) <= Lbas(out + more)
  {
  }

  /**
   * A block by its number, the stretch of the iteration that is its entries, and whether some of them were not
   * linked.
   */
  datatype MovedBlock = MovedBlock(block: nat, from: nat, to: nat, unlinkedCopy: bool)

  /**
   * A block handed over whole: its entries are a stretch of the iteration; exactly those that pass are linked, in
   * order, and it is flagged exactly when some do not.
   */
  ghost predicate PartOk(p: Part<MovedBlock>, run: LogRun, owners0: seq<Slot>, infos: seq<ShortcutMaster.Info>)
    requires Ready(run, owners0, infos)
  {
    p.Whole? ==>
      var m := p.moved;
      && m.block < |run.spm| && run.movable[m.block] && Alone(run.spm, m.block) && m.from < m.to <= |run.order|
      && (forall i :: 0 <= i < |run.order| ==> (run.order[i].block == m.block <==> m.from <= i < m.to))
      && p.linked == Kept(run.order[m.from..m.to], owners0, infos, run.slot)
      && m.unlinkedCopy == (m.from + |p.linked| < m.to)
  }

  /** sp_set_noncopy_check */
  predicate AtMark(run: LogRun, marks: seq<nat>, idx: nat, pos: nat)
    requires pos < |run.order|
  {
    idx < |marks| && marks[idx] < |run.spm| && run.spm[marks[idx]].start == run.order[pos].lba
  }

  /** Entries that fail their check are dropped until one passes or none is left. */
  method PickValid(c: LogCursor, owners: array<Slot>, infos: seq<ShortcutMaster.Info>, ghost owners0: seq<Slot>,
                   ghost base: seq<Out>,
                   ghost out: seq<Out>, ghost des: Slot)
    requires c.Valid() && Upto(c.run, c.pos, owners0, infos, out) && Linked(owners[..], owners0, base, des)
    requires base <= out
    modifies c`pos, c`picked, c`now, c`proc, c`done, c`crashed
    ensures c.crashed ==> c.per == 0 && |c.run.order| > 1
    ensures !c.crashed ==> c.Valid() && c.pos >= old(c.pos) && Upto(c.run, c.pos, owners0, infos, out)
    ensures !c.crashed && !c.done ==> Passes(c.run, c.pos, owners0, infos)
  {
    var passes := false;
    while !c.done && !passes
      invariant c.Valid() && c.pos >= old(c.pos) && Upto(c.run, c.pos, owners0, infos, out)
      invariant passes && !c.done ==> Passes(c.run, c.pos, owners0, infos)
      decreases |c.run.order| - c.pos, !passes
    {
      passes := TryHead(c, owners, infos, owners0, base, out, des);
      if c.crashed {
        return;
      }
    }
  }

  /** The head stays when it passes its check and is dropped otherwise. */
  method TryHead(c: LogCursor, owners: array<Slot>, infos: seq<ShortcutMaster.Info>, ghost owners0: seq<Slot>,
                 ghost base: seq<Out>,
                 ghost out: seq<Out>, ghost des: Slot)
    returns (passes: bool)
    requires c.Valid() && !c.done && Upto(c.run, c.pos, owners0, infos, out) && Linked(owners[..], owners0, base, des)
    requires base <= out
    modifies c`pos, c`picked, c`now, c`proc, c`done, c`crashed
    ensures c.crashed ==> c.per == 0 && |c.run.order| > 1
    ensures !c.crashed ==> c.Valid() && Upto(c.run, c.pos, owners0, infos, out)
    ensures !c.crashed ==> c.pos == if passes then old(c.pos) else old(c.pos) + 1
    ensures !c.crashed && passes ==> !c.done && Passes(c.run, c.pos, owners0, infos)
  {
    passes := CheckHead(c, owners, infos, owners0, base, out, des);
    if !passes {
      UptoDropped(c.run, c.pos, owners0, infos, out);
      c.Move();
    }
  }

  method CheckHead(c: LogCursor, owners: array<Slot>, infos: seq<ShortcutMaster.Info>, ghost owners0: seq<Slot>,
                   ghost base: seq<Out>,
                   ghost out: seq<Out>, ghost des: Slot)
    returns (passes: bool)
    requires c.Valid() && !c.done && Upto(c.run, c.pos, owners0, infos, out) && Linked(owners[..], owners0, base, des)
    requires base <= out
    ensures passes == Passes(c.run, c.pos, owners0, infos)
  {
    HeadOwner(c.run, c.pos, owners0, infos, out, owners[..], base, des);
    var lba := c.run.order[c.pos].lba;
    assert owners[..][lba] == owners0[lba];
    passes := ShortcutMaster.OwnerNotNewer(owners[lba], infos, c.run.slot);
  }

  /** __sorting_mm_set with one run, whose mask is a single bit. */
  method SortRound(c: LogCursor, owners: array<Slot>, infos: seq<ShortcutMaster.Info>, round: nat, trivial: bool,
                   ghost owners0: seq<Slot>, ghost out: seq<Out>, ghost des: Slot)
    returns (moved: bool, sorted: seq<Out>)
    requires c.Valid() && Upto(c.run, c.pos, owners0, infos, out) && Linked(owners[..], owners0, out, des)
    modifies c`pos, c`picked, c`now, c`proc, c`done, c`crashed
    ensures c.crashed ==> c.per == 0 && |c.run.order| > 1
    ensures !c.crashed ==> c.Valid() && c.pos >= old(c.pos) && Upto(c.run, c.pos, owners0, infos, out + sorted)
    ensures !c.crashed && !moved ==> c.done || c.proc >= round
    ensures moved ==> !c.crashed && !c.done && AtMark(c.run, c.marks, c.noncopyIdx, c.pos)
    ensures !c.crashed && sorted != [] ==> c.pos > 0
  {
    sorted, moved := [], false;
    assert out + sorted == out;
    while !(c.done || c.proc >= round)
      invariant c.Valid() && c.pos >= old(c.pos) && Upto(c.run, c.pos, owners0, infos, out + sorted)
      invariant (sorted != [] ==> c.pos > 0)
      decreases |c.run.order| - c.pos
    {
      PickValid(c, owners, infos, owners0, out, out + sorted, des);
      if c.crashed {
        return;
      }
      if !c.done {
        if trivial && AtMark(c.run, c.marks, c.noncopyIdx, c.pos) {
          return true, sorted;
        }
        sorted := TakeHead(c, infos, owners0, out, sorted);
        if c.crashed {
          return;
        }
      }
    }
  }

  method TakeHead(c: LogCursor, ghost infos: seq<ShortcutMaster.Info>, ghost owners0: seq<Slot>, ghost out: seq<Out>,
                  sorted: seq<Out>)
    returns (sorted': seq<Out>)
    requires c.Valid() && !c.done && Upto(c.run, c.pos, owners0, infos, out + sorted)
    requires Passes(c.run, c.pos, owners0, infos)
    modifies c`pos, c`picked, c`now, c`proc, c`done, c`crashed
    ensures c.crashed ==> c.per == 0 && |c.run.order| > 1
    ensures !c.crashed ==> c.Valid() && c.pos == old(c.pos) + 1 && Upto(c.run, c.pos, owners0, infos, out + sorted')
  {
    UptoTaken(c.run, c.pos, owners0, infos, out, sorted);
    sorted' := sorted + [Out(0, c.run.order[c.pos])];
    c.Move();
  }

  // ----- moving a marked block

  /** Position pos is in lone block j, whose stretch of the iteration is from..to and whose last entry is at to - 1. */
  ghost predicate InStretch(run: LogRun, j: nat, from: nat, to: nat) {
    && j < |run.spm| && from < to <= |run.order| && run.order[to - 1].lba == run.spm[j].end
    && forall i :: 0 <= i < |run.order| ==> (run.order[i].block == j <==> from <= i < to)
  }

  /** The stretch of a marked block that the cursor is at. */
  lemma {:induction false} Stretch(run: LogRun, j: nat, pos: nat) returns (to: nat)
    requires run.Ok() && j < |run.spm| && Alone(run.spm, j) && pos < |run.order|
    requires run.spm[j].start == run.order[pos].lba
    ensures InStretch(run, j, pos, to) && run.order[pos].block == j
  {
    assert run.Covered(j);
    var at := EndAhead(run, pos, run.spm[j].end);
    to := at + 1;
    LoneBlock(run, j, run.order[pos]);
    forall i | 0 <= i < |run.order| ensures run.order[i].block == j <==> pos <= i < to {
      LoneBlock(run, j, run.order[i]);
    }
  }

  /** The entries of the block up to the cursor were checked. */
  ghost predicate Moving(run: LogRun, from: nat, pos: nat, owners0: seq<Slot>, infos: seq<ShortcutMaster.Info>,
                         out: seq<Out>, linked: seq<Out>) {
    && Upto(run, pos, owners0, infos, out + linked) && from <= pos
    && linked == Kept(run.order[from..pos], owners0, infos, run.slot)
  }

  lemma {:induction false} MovingNext(run: LogRun, from: nat, pos: nat, owners0: seq<Slot>,
                                      infos: seq<ShortcutMaster.Info>, out: seq<Out>,
                                      linked: seq<Out>, linked': seq<Out>)
    requires Moving(run, from, pos, owners0, infos, out, linked) && pos < |run.order|
    requires linked' == if Passes(run, pos, owners0, infos) then linked + [Out(0, run.order[pos])] else linked
    ensures Moving(run, from, pos + 1, owners0, infos, out, linked')
  {
    KeptLonger(run.order, from, pos, owners0, infos, run.slot);
    if Passes(run, pos, owners0, infos) {
      UptoTaken(run, pos, owners0, infos, out, linked);
    } else {
      UptoNext(run, pos, owners0, infos, out + linked);
      UptoDropped(run, pos, owners0, infos, out + linked);
    }
  }

  /** One entry more of a stretch. */
  lemma {:induction false} KeptLonger(items: seq<Item>, from: nat, pos: nat, owners: seq<Slot>,
                                      infos: seq<ShortcutMaster.Info>, src: Slot)
    requires from <= pos < |items|
    ensures Kept(items[from..pos + 1], owners, infos, src)
            == Kept(items[from..pos], owners, infos, src) +
                if Keeps(owners, infos, src, items[pos]) then [Out(0, items[pos])] else []
  {
    var stretch := items[from..pos + 1];
    assert stretch[..pos - from] == items[from..pos] && stretch[..pos + 1 - from] == stretch;
    LiveOfNext(stretch, 0, Keeping(owners, infos, src), pos - from);
  }

  /** One entry of the block: checked, and linked when it passes. */
  method CheckEntry(c: LogCursor, owners: array<Slot>, infos: seq<ShortcutMaster.Info>, linked: seq<Out>,
                    ghost from: nat,
                    ghost owners0: seq<Slot>, ghost out: seq<Out>, ghost des: Slot)
    returns (linked': seq<Out>)
    requires c.Valid() && !c.done && Moving(c.run, from, c.pos, owners0, infos, out, linked)
    requires Linked(owners[..], owners0, out, des)
    ensures Moving(c.run, from, c.pos + 1, owners0, infos, out, linked')
  {
    var passes := CheckHead(c, owners, infos, owners0, out, out + linked, des);
    linked' := if passes then linked + [Out(0, c.run.order[c.pos])] else linked;
    MovingNext(c.run, from, c.pos, owners0, infos, out, linked, linked');
  }

  method NextEntry(c: LogCursor, owners: array<Slot>, infos: seq<ShortcutMaster.Info>, linked: seq<Out>,
                   ghost from: nat,
                   ghost owners0: seq<Slot>, ghost out: seq<Out>, ghost des: Slot)
    returns (linked': seq<Out>)
    requires c.Valid() && c.pos + 1 < |c.run.order| && Moving(c.run, from, c.pos + 1, owners0, infos, out, linked)
    requires Linked(owners[..], owners0, out, des)
    modifies c`pos, c`picked, c`now, c`proc, c`done, c`crashed
    ensures c.crashed ==> c.per == 0 && |c.run.order| > 1
    ensures !c.crashed ==> c.Valid() && c.pos == old(c.pos) + 1
    ensures !c.crashed ==> Moving(c.run, from, c.pos + 1, owners0, infos, out, linked')
  {
    c.Move();
    if c.crashed {
      return linked;
    }
    linked' := CheckEntry(c, owners, infos, linked, from, owners0, out, des);
  }

  /** The loop of trivial_move and the step over the end of the block. */
  method MoveEntries(c: LogCursor, owners: array<Slot>, infos: seq<ShortcutMaster.Info>, ghost j: nat, end: nat,
                     ghost to: nat,
                     ghost owners0: seq<Slot>, ghost out: seq<Out>, ghost des: Slot)
    returns (linked: seq<Out>)
    requires c.Valid() && !c.done && Upto(c.run, c.pos, owners0, infos, out) && Linked(owners[..], owners0, out, des)
    requires InStretch(c.run, j, c.pos, to) && end == c.run.spm[j].end && StrictlySorted(c.run.order)
    requires c.per > 0 || |c.run.order| > 1
    modifies c`pos, c`picked, c`now, c`proc, c`done, c`crashed
    ensures c.crashed ==> c.per == 0 && |c.run.order| > 1
    ensures !c.crashed ==> c.Valid() && c.pos == to && Moving(c.run, old(c.pos), to, owners0, infos, out, linked)
  {
    ghost var from := c.pos;
    MovingStarts(c.run, from, owners0, infos, out);
    forall i | 0 <= i < to ensures c.run.order[i].lba == end <==> i == to - 1 {
      LastOfStretch(c.run, j, from, to, i);
    }
    linked := CheckEntry(c, owners, infos, [], from, owners0, out, des);
    linked := CheckRest(c, owners, infos, linked, end, from, to, owners0, out, des);
    if !c.crashed {
      c.MoveSte(end);
    }
  }

  method CheckRest(c: LogCursor, owners: array<Slot>, infos: seq<ShortcutMaster.Info>, linked: seq<Out>, end: nat,
                   ghost from: nat, ghost to: nat,
                   ghost owners0: seq<Slot>, ghost out: seq<Out>, ghost des: Slot)
    returns (linked': seq<Out>)
    requires c.Valid() && c.pos < to <= |c.run.order| && Moving(c.run, from, c.pos + 1, owners0, infos, out, linked)
    requires Linked(owners[..], owners0, out, des)
    requires forall i :: 0 <= i < to ==> (c.run.order[i].lba == end <==> i == to - 1)
    modifies c`pos, c`picked, c`now, c`proc, c`done, c`crashed
    ensures c.crashed ==> c.per == 0 && |c.run.order| > 1
    ensures !c.crashed ==> c.Valid() && c.pos == to - 1 && Moving(c.run, from, c.pos + 1, owners0, infos, out, linked')
  {
    linked' := linked;
    while c.run.order[c.pos].lba != end
      invariant c.Valid() && c.pos < to && Moving(c.run, from, c.pos + 1, owners0, infos, out, linked')
      decreases |c.run.order| - c.pos
    {
      linked' := NextEntry(c, owners, infos, linked', from, owners0, out, des);
      if c.crashed {
        return;
      }
    }
  }

  lemma {:induction false} MovingStarts(run: LogRun, from: nat, owners0: seq<Slot>, infos: seq<ShortcutMaster.Info>,
                                        out: seq<Out>)
    requires Upto(run, from, owners0, infos, out)
    ensures Moving(run, from, from, owners0, infos, out, [])
  {
    assert out + [] == out && run.order[from..from] == [];
  }

  lemma {:induction false} LastOfStretch(run: LogRun, j: nat, from: nat, to: nat, pos: nat)
    requires InStretch(run, j, from, to) && StrictlySorted(run.order) && pos < to
    ensures run.order[pos].lba == run.spm[j].end <==> pos == to - 1
  {
  }

  /** trivial_move: the block the cursor stands at the start of, as it is. */
  method TrivialMove(c: LogCursor, owners: array<Slot>, infos: seq<ShortcutMaster.Info>,
                     ghost owners0: seq<Slot>, ghost out: seq<Out>, ghost des: Slot)
    returns (part: Part<MovedBlock>)
    requires c.Valid() && !c.done && Upto(c.run, c.pos, owners0, infos, out) && Linked(owners[..], owners0, out, des)
    requires AtMark(c.run, c.marks, c.noncopyIdx, c.pos) && Marked(c.run, c.marks) && (|c.run.spm| == 1 ==> c.per > 0)
    modifies c
    ensures c.crashed ==> c.per == 0 && |c.run.order| > 1
    ensures !c.crashed ==> c.Valid() && c.pos > old(c.pos) && part.Whole? && PartOk(part, c.run, owners0, infos)
    ensures !c.crashed ==> Upto(c.run, c.pos, owners0, infos, out + part.linked)
  {
    ghost var j := c.marks[c.noncopyIdx];
    assert j in c.marks;
    ghost var to := Stretch(c.run, j, c.pos);
    if |c.run.order| == 1 {
      SingleLbaOverlaps(c.run, j);
    }
    c.noncopyIdx := c.noncopyIdx + 1;
    var ste, from := c.run.order[c.pos].block, c.pos;
    var linked := MoveEntries(c, owners, infos, j, c.run.spm[ste].end, to, owners0, out, des);
    part := Whole(MovedBlock(ste, from, c.pos, from + |linked| < c.pos), linked);
  }

  /** Only movable blocks that overlap no other are marked. */
  ghost predicate Marked(run: LogRun, marks: seq<nat>) {
    |run.movable| == |run.spm| && forall j :: j in marks ==> j < |run.spm| && run.movable[j] && Alone(run.spm, j)
  }

  // ----- the whole merge

  lemma {:induction false} EntriesInRange(run: LogRun, pos: nat, owners0: seq<Slot>, infos: seq<ShortcutMaster.Info>,
                                          out: seq<Out>, more: seq<Out>)
    requires Upto(run, pos, owners0, infos, out + more)
    ensures forall o :: o in more ==> o.item.lba < |owners0|
  {
    KeptExact(run.order[..pos], owners0, infos, run.slot);
    forall o | o in more ensures o.item.lba < |owners0| {
      assert o in out + more;
    }
  }

  ghost predicate PartsOk(parts: seq<Part<MovedBlock>>, run: LogRun, owners0: seq<Slot>,
                          infos: seq<ShortcutMaster.Info>)
    requires Ready(run, owners0, infos)
  {
    forall p :: p in parts ==> PartOk(p, run, owners0, infos)
  }

  /** Hands a part over and links its entries. */
  method HandOver(c: LogCursor, owners: array<Slot>, infos: seq<ShortcutMaster.Info>, des: Slot,
                  parts: seq<Part<MovedBlock>>, p: Part<MovedBlock>, ghost owners0: seq<Slot>)
    returns (parts': seq<Part<MovedBlock>>)
    requires Upto(c.run, c.pos, owners0, infos, AllEntries(parts) + p.Entries())
    requires Linked(owners[..], owners0, AllEntries(parts), des)
    requires PartsOk(parts, c.run, owners0, infos) && PartOk(p, c.run, owners0, infos)
    modifies owners
    ensures Upto(c.run, c.pos, owners0, infos, AllEntries(parts'))
    ensures Linked(owners[..], owners0, AllEntries(parts'), des)
    ensures PartsOk(parts', c.run, owners0, infos)
  {
    EntriesInRange(c.run, c.pos, owners0, infos, AllEntries(parts), p.Entries());
    ghost var before := owners[..];
    Link(owners, p.Entries(), des);
    LinkedMore(before, owners[..], owners0, AllEntries(parts), p.Entries(), des);
    OnePart(p);
    AllEntriesConcat(parts, [p]);
    parts' := parts + [p];
  }

  /** One pass of the loop in run_merge. */
  method Pass(c: LogCursor, owners: array<Slot>, infos: seq<ShortcutMaster.Info>, des: Slot, round: nat, trivial: bool,
              parts: seq<Part<MovedBlock>>,
              ghost owners0: seq<Slot>)
    returns (parts': seq<Part<MovedBlock>>)
    requires c.Valid() && Upto(c.run, c.pos, owners0, infos, AllEntries(parts))
    requires Linked(owners[..], owners0, AllEntries(parts), des)
    requires Marked(c.run, c.marks) && (|c.run.spm| == 1 ==> c.per > 0) && PartsOk(parts, c.run, owners0, infos)
    modifies c, owners
    ensures c.crashed ==> c.per == 0 && |c.run.order| > 1 && parts' == parts && owners[..] == old(owners[..])
    ensures !c.crashed ==> c.Valid() && Upto(c.run, c.pos, owners0, infos, AllEntries(parts')) && c.pos >= old(c.pos)
    ensures !c.crashed ==> Linked(owners[..], owners0, AllEntries(parts'), des)
    ensures !c.crashed ==> PartsOk(parts', c.run, owners0, infos)
    ensures !c.crashed ==> c.pos > old(c.pos) || c.done || c.proc >= round
    ensures !c.crashed && c.pos == 0 ==> parts' == parts && owners[..] == old(owners[..])
  {
    parts' := parts;
    var moved, sorted := SortRound(c, owners, infos, round, trivial, owners0, AllEntries(parts), des);
    if c.crashed {
      return;
    }
    if |sorted| > 0 {
      parts' := HandOver(c, owners, infos, des, parts, Copied(sorted), owners0);
    } else {
      assert AllEntries(parts) + sorted == AllEntries(parts);
    }
    if moved {
      var part := TrivialMove(c, owners, infos, owners0, AllEntries(parts'), des);
      if c.crashed {
        return;
      }
      parts' := HandOver(c, owners, infos, des, parts', part, owners0);
    }
  }

  /**
   * run_merge of one log run. It divides by zero, at the first step of its cursor, exactly when the run has more than
   * one lba and fewer lbas than blocks. Otherwise, with or without moving whole blocks, what is linked to the target
   * run is exactly what copying entry by entry links, in the same order, and the shortcut gives those lbas, and no
   * others, to the target.
   */
  method MergeLog(run: LogRun, owners: array<Slot>, infos: seq<ShortcutMaster.Info>, des: Slot, bps: nat, force: bool)
    returns (parts: seq<Part<MovedBlock>>, crashed: bool)
    requires Ready(run, owners[..], infos) && (force || bps > 0)
    modifies owners
    ensures crashed <==> !Divides(run)
    ensures crashed ==> parts == [] && owners[..] == old(owners[..])
    ensures !crashed ==> AllEntries(parts) == Kept(run.order, old(owners[..]), infos, run.slot)
    ensures !crashed ==> Linked(owners[..], old(owners[..]), AllEntries(parts), des)
    ensures !crashed ==> PartsOk(parts, run, old(owners[..]), infos)
  {
    var marks: seq<nat> := [];
    assert run.Covered(0);
    if !force {
      forall k | 0 <= k < |run.spm| ensures run.spm[k].start <= run.spm[k].end {
        assert run.Covered(k);
      }
      marks := MarkLog(run.spm, run.movable);
    }
    var c := new LogCursor(run, marks);
    var step := if force then |run.spm| else 4 * bps;
    parts := RunRounds(c, owners, infos, des, step, !force);
    crashed := c.crashed;
  }

  method RunRounds(c: LogCursor, owners: array<Slot>, infos: seq<ShortcutMaster.Info>, des: Slot, step: nat,
                   trivial: bool)
    returns (parts: seq<Part<MovedBlock>>)
    requires c.Valid() && c.pos == 0 && c.proc == 0 && Ready(c.run, owners[..], infos) && step > 0
    requires Marked(c.run, c.marks) && (|c.run.spm| == 1 ==> c.per > 0)
    modifies c, owners
    ensures c.crashed <==> c.per == 0 && |c.run.order| > 1
    ensures c.crashed ==> parts == [] && owners[..] == old(owners[..])
    ensures !c.crashed ==> AllEntries(parts) == Kept(c.run.order, old(owners[..]), infos, c.run.slot)
    ensures !c.crashed ==> Linked(owners[..], old(owners[..]), AllEntries(parts), des)
    ensures !c.crashed ==> PartsOk(parts, c.run, old(owners[..]), infos)
  {
    ghost var owners0 := owners[..];
    var round := 0;
    parts := [];
    while !c.done
      invariant c.Valid() && Upto(c.run, c.pos, owners0, infos, AllEntries(parts))
      invariant Linked(owners[..], owners0, AllEntries(parts), des)
      invariant PartsOk(parts, c.run, owners0, infos) && (c.pos == 0 ==> parts == [] && owners[..] == owners0)
      decreases |c.run.order| - c.pos, |c.run.order| + 1 - round
    {
      round := round + step;
      parts := Pass(c, owners, infos, des, round, trivial, parts, owners0);
      if c.crashed {
        return;
      }
    }
    assert c.run.order[..c.pos] == c.run.order;
  }

  /** Two lbas written over and over into three blocks: merging them divides by zero. */
  method OverwrittenLogDividesByZero(owners: array<Slot>, infos: seq<ShortcutMaster.Info>, des: Slot,
                                     bps: nat) returns (crashed: bool)
    requires 2 <= owners.Length && OwnersOk(owners[..], infos) && 0 < |infos| && bps > 0
    modifies owners
    ensures crashed
  {
    var r := Range(0, 1);
    var run := LogRun(0, [r, r, r], [true, true, true], [Item(0, 4, 2), Item(1, 5, 2)]);
    OverwrittenIsReady(run, owners[..], infos);
    var parts;
    parts, crashed := MergeLog(run, owners, infos, des, bps, false);
  }

  lemma {:induction false} OverwrittenIsReady(run: LogRun, owners: seq<Slot>, infos: seq<ShortcutMaster.Info>)
    requires 2 <= |owners| && OwnersOk(owners, infos) && 0 < |infos|
    requires run == LogRun(0, [Range(0, 1), Range(0, 1), Range(0, 1)], [true, true, true],
        [Item(0, 4, 2), Item(1, 5, 2)])
    ensures Ready(run, owners, infos)
  {
    assert run.order[0].lba == 0 && run.order[1].lba == 1;
    assert run.Has(0) && run.Has(1);
  }
}
