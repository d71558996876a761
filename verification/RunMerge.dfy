/**
 * Compaction of sorted runs: cursors over summary blocks, the k-way pick with its validity check, and the rounds of
 * sorting and linking (algorithm/layeredLSM/run_merge.cpp, summary_page_set.cpp, summary_page_iter.cpp).
 */
module RunMerge {
  import opened ShortcutCodec
  import opened MergeSpec
  import opened SummarySearch
  import opened ReadFlag
  import ShortcutMaster

  /** A written summary block with its summary_page_meta and whether its data block is whole on flash. */
  datatype Block = Block(pairs: seq<Pair>, whole: bool, sorted: bool, unlinkedCopy: bool, level: nat, recency: nat)
  {
    function Start(): nat
      requires pairs != []
    {
      pairs[0].lba
    }

    function End(): nat
      requires pairs != []
    {
      pairs[|pairs| - 1].lba
    }

    function Items(b: nat): (s: seq<Item>)
      ensures |s| == |pairs|
    {
      seq(|pairs|, k requires 0 <= k < |pairs| => Item(pairs[k].lba, pairs[k].psa, b))
    }
  }

  function ItemsFrom(blocks: seq<Block>, b: nat): seq<Item>
    decreases |blocks| - b
  {
    if b < |blocks| then blocks[b].Items(b) + ItemsFrom(blocks, b + 1) else []
  }

  /** The items from a block on are all of its items and those behind it. */
  lemma {:induction false} WholeBlock(blocks: seq<Block>, b: nat)
    requires b < |blocks|
    ensures ItemsFrom(blocks, b) == blocks[b].Items(b)[0..] + ItemsFrom(blocks, b + 1)
  {
    assert blocks[b].Items(b)[0..] == blocks[b].Items(b);
  }

  lemma {:induction false} FirstOff(here: seq<Item>, k: nat, rest: seq<Item>)
    requires k < |here|
    ensures (here[k..] + rest)[0] == here[k] && (here[k..] + rest)[1..] == here[k + 1..] + rest
    ensures k + 1 == |here| ==> here[k + 1..] + rest == rest
  {
  }

  datatype Run = Run(slot: Slot, blocks: seq<Block>)
  {
    ghost predicate Ok() {
      blocks != [] && forall b :: 0 <= b < |blocks| ==> blocks[b].pairs != []
    }
  }

  /** mm_container with its sp_set_iter; proc is now_proc_block_idx, which only __move_iter_target brings up to date. */
  datatype Cursor = Cursor(run: Run, now: nat, ptr: nat, done: bool, proc: nat, noncopy: seq<nat>, noncopyIdx: nat)
  {
    ghost predicate Ok() {
      && run.Ok() && now <= |run.blocks| && (now < |run.blocks| ==> ptr < |run.blocks[now].pairs|)
      && (done <==> now == |run.blocks|) && proc <= now
    }

    ghost function Left(): seq<Item>
      requires Ok()
    {
      if done then [] else run.blocks[now].Items(now)[ptr..] + ItemsFrom(run.blocks, now + 1)
    }

    /** sp_set_iter_pick */
    function Head(): Item
      requires Ok() && !done
    {
      Item(run.blocks[now].pairs[ptr].lba, run.blocks[now].pairs[ptr].psa, now)
    }

    /** __move_iter_target: on to the next pair, or to the next block after the last pair. */
    function Move(): (c: Cursor)
      requires Ok()
      ensures c.Ok() && c.run == run && c.now >= now && c.noncopy == noncopy && c.noncopyIdx == noncopyIdx
    {
      if done then this else
      var c := if ptr + 1 == |run.blocks[now].pairs| then this.(now := now + 1, ptr := 0) else this.(ptr := ptr + 1);
      c.(done := c.now == |run.blocks|, proc := c.now)
    }

    /** sp_set_iter_move_ste after the last pair of a block. */
    function MoveSte(): (c: Cursor)
      requires Ok() && !done && ptr + 1 == |run.blocks[now].pairs|
      ensures c.Ok() && Moved(c) && c.now == now + 1
    {
      this.(now := now + 1, ptr := 0, done := now + 1 == |run.blocks|)
    }

    /** One pair on, whether or not the block index of the container follows. */
    ghost predicate Moved(c: Cursor)
      requires Ok()
    {
      c == Move().(proc := c.proc) && c.proc <= c.now
    }

    lemma {:induction false} MoveDropsHead()
      requires Ok() && !done
      ensures Left() != [] && Head() == Left()[0] && Move().Left() == Left()[1..]
    {
      var here, rest := run.blocks[now].Items(now), ItemsFrom(run.blocks, now + 1);
      FirstOff(here, ptr, rest);
      var c := Move();
      if ptr + 1 < |here| {
        assert c.Left() == here[ptr + 1..] + rest;
      } else if now + 1 < |run.blocks| {
        WholeBlock(run.blocks, now + 1);
        assert c.Left() == rest;
      } else {
        assert c.Left() == [] == rest;
      }
    }

    lemma {:induction false} MovedLeft(c: Cursor)
      requires Ok() && !done && Moved(c)
      ensures c.Ok() && c.run == run && c.noncopy == noncopy && c.now >= now
      ensures Left() != [] && Head() == Left()[0] && c.Left() == Left()[1..]
    {
      MoveDropsHead();
      assert c.Left() == Move().Left();
    }
  }

  // ----- validity

  /** shortcut_validity_check_by_value, asked of blocks that were moved whole with unlinked data in them. */
  predicate OwnerNotNewerThan(owner: Slot, infos: seq<ShortcutMaster.Info>, slot: Slot, level: nat, recency: nat)
    requires slot < |infos| && (owner < |infos| || owner == NOT_ASSIGNED)
  {
    owner == NOT_ASSIGNED || owner >= |infos| || slot == owner
    || ShortcutMaster.RecencyCmp(infos[owner], ShortcutMaster.Info(level, recency, false, true)) <= 0
  }

  /** The two checks of __pick_smallest_pair. */
  predicate PassesCheck(owner: Slot, infos: seq<ShortcutMaster.Info>, run: Run, x: Item)
    requires run.slot < |infos| && |infos| <= NOT_ASSIGNED && (owner < |infos| || owner == NOT_ASSIGNED)
  {
    && ShortcutMaster.OwnerNotNewer(owner, infos, run.slot)
    && (x.block < |run.blocks| && run.blocks[x.block].unlinkedCopy ==>
          var blk := run.blocks[x.block]; OwnerNotNewerThan(owner, infos, run.slot, blk.level, blk.recency))
  }

  // ----- block ranges

  /** sp_meta of a run: the lba range of every block. */
  function Ranges(run: Run): (s: seq<Range>)
    requires run.Ok()
    ensures |s| == |run.blocks|
  {
    seq(|run.blocks|, b requires 0 <= b < |run.blocks| => Range(run.blocks[b].Start(), run.blocks[b].End()))
  }

  lemma {:induction false} SortedParts(a: seq<Item>, b: seq<Item>)
    requires StrictlySorted(a + b) && a != []
    ensures StrictlySorted(a) && StrictlySorted(b) && (b != [] ==> a[|a| - 1].lba < b[0].lba)
  {
    forall i, j | 0 <= i < j < |a| ensures a[i].lba < a[j].lba {
      assert (a + b)[i] == a[i] && (a + b)[j] == a[j];
    }
    forall i, j | 0 <= i < j < |b| ensures b[i].lba < b[j].lba {
      assert (a + b)[|a| + i] == b[i] && (a + b)[|a| + j] == b[j];
    }
    if b != [] {
      assert (a + b)[|a| - 1] == a[|a| - 1] && (a + b)[|a|] == b[0];
    }
  }

  /** The blocks of a sorted run are sorted, in order and apart. */
  lemma {:induction false} BlocksOrdered(run: Run, b0: nat)
    requires run.Ok() && b0 <= |run.blocks| && StrictlySorted(ItemsFrom(run.blocks, b0))
    ensures forall b :: b0 <= b < |run.blocks| ==> StrictlySorted(run.blocks[b].Items(b))
    ensures forall b, c :: b0 <= b < c < |run.blocks| ==> run.blocks[b].End() < run.blocks[c].Start()
    decreases |run.blocks| - b0
  {
    if b0 < |run.blocks| {
      var here, rest := run.blocks[b0].Items(b0), ItemsFrom(run.blocks, b0 + 1);
      SortedParts(here, rest);
      BlocksOrdered(run, b0 + 1);
      if b0 + 1 < |run.blocks| {
        var next := run.blocks[b0 + 1];
        assert rest[0] == next.Items(b0 + 1)[0];
        InsideBlock(run, b0 + 1, |next.pairs| - 1);
      }
    }
  }

  /** An entry of a sorted block lies in the block's range, at its end exactly when it is the last. */
  lemma {:induction false} InsideBlock(run: Run, b: nat, k: nat)
    requires run.Ok() && b < |run.blocks| && k < |run.blocks[b].pairs| && StrictlySorted(run.blocks[b].Items(b))
    ensures run.blocks[b].Start() <= run.blocks[b].pairs[k].lba <= run.blocks[b].End()
    ensures run.blocks[b].pairs[k].lba == run.blocks[b].End() <==> k == |run.blocks[b].pairs| - 1
    ensures run.blocks[b].pairs[k].lba == run.blocks[b].Start() <==> k == 0
  {
    var s := run.blocks[b].Items(b);
    assert s[0].lba <= s[k].lba <= s[|s| - 1].lba;
  }

  lemma {:induction false} RangesOrdered(run: Run)
    requires run.Ok() && StrictlySorted(ItemsFrom(run.blocks, 0))
    ensures Ordered(Ranges(run))
  {
    BlocksOrdered(run, 0);
    forall b | 0 <= b < |run.blocks| ensures run.blocks[b].Start() <= run.blocks[b].End() {
      InsideBlock(run, b, 0);
    }
  }

  /** Block j of run i shares no lba range with a block of another run. */
  ghost predicate Apart(runs: seq<Run>, i: nat, j: nat)
    requires (forall k :: 0 <= k < |runs| ==> runs[k].Ok()) && i < |runs| && j < |runs[i].blocks|
  {
    forall k, m :: 0 <= k < |runs| && k != i && 0 <= m < |runs[k].blocks| ==>
        !Overlap(Ranges(runs[k])[m], Ranges(runs[i])[j])
  }

  /** A block that may be moved: whole on flash, sorted, and without stale data from an earlier move. */
  predicate Movable(b: Block) {
    b.whole && b.sorted && !b.unlinkedCopy
  }

  /** The merge as it was set up: the runs, newest first, who owned what, and the blocks marked for trivial moves. */
  datatype Job = Job(runs: seq<Run>, owners: seq<Slot>, infos: seq<ShortcutMaster.Info>, noncopy: seq<seq<nat>>)
  {
    ghost predicate Ok() {
      && |infos| <= NOT_ASSIGNED && |noncopy| == |runs| < 32
      && MarksOk()
      && (forall i :: 0 <= i < |runs| ==>
            runs[i].Ok() && runs[i].slot < |infos| && StrictlySorted(ItemsFrom(runs[i].blocks, 0)))
      && (forall i, x :: 0 <= i < |runs| && x in ItemsFrom(runs[i].blocks, 0) ==> x.lba < |owners|)
      && OwnersOk(owners)
    }

    /** Only movable blocks apart from all other runs are marked. */
    ghost predicate MarksOk()
      requires |noncopy| == |runs|
    {
      && (forall i :: 0 <= i < |runs| ==> runs[i].Ok())
      && forall i, j :: 0 <= i < |runs| && j in noncopy[i] ==>
           j < |runs[i].blocks| && Movable(runs[i].blocks[j]) && Apart(runs, i, j)
    }

    ghost predicate OwnersOk(owners: seq<Slot>) {
      forall l :: 0 <= l < |owners| ==> owners[l] < |infos| || owners[l] == NOT_ASSIGNED
    }

    ghost function Flats(): (s: seq<seq<Item>>)
      ensures |s| == |runs|
    {
      seq(|runs|, i requires 0 <= i < |runs| => ItemsFrom(runs[i].blocks, 0))
    }

    ghost predicate Alive(i: nat, x: Item)
      requires Ok()
    {
      i < |runs| && x.lba < |owners| && PassesCheck(owners[x.lba], infos, runs[i], x)
    }

    ghost function Live(): (nat, Item) -> bool
      requires Ok()
    {
      (i: nat, x: Item) => Alive(i, x)
    }
  }

  // ----- the cursors together

  ghost predicate CursorsOk(cs: seq<Cursor>, job: Job) {
    && |cs| == |job.runs| && job.Ok()
    && forall i :: 0 <= i < |cs| ==> cs[i].Ok() && cs[i].run == job.runs[i] && cs[i].noncopy == job.noncopy[i]
  }

  /** left are the undelivered suffixes of the cursors' runs. */
  ghost predicate LeftOf(cs: seq<Cursor>, left: seq<seq<Item>>) {
    |left| == |cs| && forall i :: 0 <= i < |cs| ==> cs[i].Ok() && left[i] == cs[i].Left()
  }

  /** The merge has emitted out; the lbas not emitted still have their first owners. */
  ghost predicate State(cs: seq<Cursor>, left: seq<seq<Item>>, owners: seq<Slot>, job: Job, out: seq<Out>) {
    && CursorsOk(cs, job) && LeftOf(cs, left) && Merging(job.Flats(), left, job.Live(), out)
    && Agree(owners, job, out)
  }

  ghost predicate Agree(owners: seq<Slot>, job: Job, out: seq<Out>) {
    && |owners| == |job.owners| && job.OwnersOk(owners)
    && forall l :: 0 <= l < |owners| && l !in Lbas(out) ==> owners[l] == job.owners[l]
  }

  /** Entries not delivered yet. */
  ghost function Remaining(left: seq<seq<Item>>): nat {
    if left == [] then 0 else |left[0]| + Remaining(left[1..])
  }

  lemma {:induction false} RemainingStore(left: seq<seq<Item>>, t: nat, s: seq<Item>)
    requires t < |left|
    ensures Remaining(left[t := s]) == Remaining(left) - |left[t]| + |s|
  {
    if t == 0 {
      assert left[t := s][1..] == left[1..];
    } else {
      assert left[t := s][1..] == left[1..][t - 1 := s];
      RemainingStore(left[1..], t - 1, s);
    }
  }

  /** A head lies among the lbas and was not emitted yet: its owner is still the first one. */
  lemma {:induction false} HeadUnlinked(cs: seq<Cursor>, left: seq<seq<Item>>, owners: seq<Slot>, job: Job,
                                        out: seq<Out>, t: nat)
    requires State(cs, left, owners, job, out) && t < |cs| && !cs[t].done
    ensures left[t] != [] && left[t][0] == cs[t].Head()
    ensures cs[t].Head().lba < |owners| && owners[cs[t].Head().lba] == job.owners[cs[t].Head().lba]
    ensures job.Live()(t, cs[t].Head()) == PassesCheck(owners[cs[t].Head().lba], job.infos, cs[t].run, cs[t].Head())
  {
    cs[t].MoveDropsHead();
    SuffixTail(left[t], job.Flats()[t]);
    assert left[t][0] in left[t];
  }

  /** Dropping a head that fails its check. */
  lemma {:induction false} DropStep(cs: seq<Cursor>, left: seq<seq<Item>>, owners: seq<Slot>, job: Job, out: seq<Out>,
                                    t: nat, cs': seq<Cursor>)
    returns (left': seq<seq<Item>>)
    requires State(cs, left, owners, job, out) && t < |cs| && !cs[t].done && |cs'| == |cs| && cs' == cs[t := cs'[t]]
    requires cs[t].Moved(cs'[t])
    requires cs[t].Head().lba < |owners| && !PassesCheck(owners[cs[t].Head().lba], job.infos, cs[t].run, cs[t].Head())
    ensures State(cs', left', owners, job, out) && Remaining(left') < Remaining(left)
  {
    HeadUnlinked(cs, left, owners, job, out, t);
    left' := DropCursor(cs, left, job, t, cs');
    DropStale(job.Flats(), left, job.Live(), out, t);
  }

  lemma {:induction false} DropCursor(cs: seq<Cursor>, left: seq<seq<Item>>, job: Job, t: nat, cs': seq<Cursor>)
    returns (left': seq<seq<Item>>)
    requires CursorsOk(cs, job) && LeftOf(cs, left) && t < |cs| && !cs[t].done
    requires |cs'| == |cs| && cs' == cs[t := cs'[t]] && cs[t].Moved(cs'[t])
    ensures left[t] != [] && left' == left[t := left[t][1..]] && Remaining(left') < Remaining(left)
    ensures CursorsOk(cs', job) && LeftOf(cs', left')
  {
    cs[t].MovedLeft(cs'[t]);
    left' := left[t := left[t][1..]];
    RemainingStore(left, t, left[t][1..]);
  }

  /** t is the lowest-indexed cursor with the smallest head. */
  ghost predicate Smallest(cs: seq<Cursor>, t: nat)
    requires forall i :: 0 <= i < |cs| ==> cs[i].Ok()
  {
    && t < |cs| && !cs[t].done
    && (forall i :: 0 <= i < |cs| && !cs[i].done ==> cs[t].Head().lba <= cs[i].Head().lba)
    && (forall i :: 0 <= i < t && !cs[i].done ==> cs[t].Head().lba < cs[i].Head().lba)
  }

  /** Every cursor at the lba has moved on. */
  ghost predicate MovedPast(cs: seq<Cursor>, cs': seq<Cursor>, lba: nat)
    requires forall i :: 0 <= i < |cs| ==> cs[i].Ok()
  {
    && |cs'| == |cs|
    && forall i :: 0 <= i < |cs| ==>
         if !cs[i].done && cs[i].Head().lba == lba then cs[i].Moved(cs'[i]) else cs'[i] == cs[i]
  }

  /** What MovedPast leaves. */
  lemma {:induction false} PassedLeft(cs: seq<Cursor>, cs': seq<Cursor>, left: seq<seq<Item>>,
                                      lba: nat) returns (left': seq<seq<Item>>)
    requires LeftOf(cs, left) && MovedPast(cs, cs', lba)
    ensures LeftOf(cs', left') && Passed(left, left', lba)
    ensures forall i :: 0 <= i < |cs| && !cs[i].done ==> left[i] != [] && left[i][0] == cs[i].Head()
    ensures forall i :: 0 <= i < |cs| && cs[i].done ==> left[i] == []
    ensures forall i :: 0 <= i < |cs| ==> |left'[i]| <= |left[i]|
  {
    left' := seq(|cs|, i requires 0 <= i < |cs| =>
        if left[i] != [] && left[i][0].lba == lba then left[i][1..] else left[i]);
    forall i | 0 <= i < |cs|
      ensures !cs[i].done ==> left[i] != [] && left[i][0] == cs[i].Head()
      ensures cs'[i].Ok() && left'[i] == cs'[i].Left()
    {
      if !cs[i].done {
        cs[i].MoveDropsHead();
        if cs[i].Head().lba == lba {
          cs[i].MovedLeft(cs'[i]);
        }
      }
    }
  }

  lemma {:induction false} AgreeMore(owners: seq<Slot>, job: Job, out: seq<Out>, out': seq<Out>)
    requires Agree(owners, job, out) && out <= out'
    ensures Agree(owners, job, out')
  {
    assert forall o :: o in out ==> o in out';
  }

  /** Emitting the smallest head when it passes its check. */
  lemma {:induction false} EmitStep(cs: seq<Cursor>, left: seq<seq<Item>>, owners: seq<Slot>, job: Job, out: seq<Out>,
                                    t: nat, cs': seq<Cursor>, out': seq<Out>)
    returns (left': seq<seq<Item>>)
    requires State(cs, left, owners, job, out) && Smallest(cs, t) && MovedPast(cs, cs', cs[t].Head().lba)
    requires cs[t].Head().lba < |owners| && PassesCheck(owners[cs[t].Head().lba], job.infos, cs[t].run, cs[t].Head())
    requires out' == out + [Out(t, cs[t].Head())]
    ensures State(cs', left', owners, job, out') && Remaining(left') < Remaining(left)
  {
    AgreeMore(owners, job, out, out');
    left' := PassedLeft(cs, cs', left, cs[t].Head().lba);
    EmitMerging(cs, left, left', owners, job, out, t, out');
    RemainingLess(left, left', t);
    MovedCursorsOk(cs, cs', job, cs[t].Head().lba);
  }

  lemma {:induction false} EmitMerging(cs: seq<Cursor>, left: seq<seq<Item>>, left': seq<seq<Item>>, owners: seq<Slot>,
                                       job: Job,
                                       out: seq<Out>, t: nat, out': seq<Out>)
    requires State(cs, left, owners, job, out) && Smallest(cs, t) && Passed(left, left', cs[t].Head().lba)
    requires cs[t].Head().lba < |owners| && PassesCheck(owners[cs[t].Head().lba], job.infos, cs[t].run, cs[t].Head())
    requires out' == out + [Out(t, cs[t].Head())]
    ensures Merging(job.Flats(), left', job.Live(), out')
  {
    HeadUnlinked(cs, left, owners, job, out, t);
    HeadsLeast(cs, left, t);
    Emit(job.Flats(), left, left', job.Live(), out, t, out');
  }

  lemma {:induction false} MovedCursorsOk(cs: seq<Cursor>, cs': seq<Cursor>, job: Job, lba: nat)
    requires CursorsOk(cs, job) && MovedPast(cs, cs', lba)
    ensures CursorsOk(cs', job)
  {
  }

  /** The smallest head seen through the undelivered items. */
  lemma {:induction false} HeadsLeast(cs: seq<Cursor>, left: seq<seq<Item>>, t: nat)
    requires LeftOf(cs, left) && Smallest(cs, t)
    ensures left[t] != [] && left[t][0] == cs[t].Head()
    ensures forall i :: 0 <= i < |left| && left[i] != [] ==> left[t][0].lba <= left[i][0].lba
    ensures forall i :: 0 <= i < t && left[i] != [] ==> left[t][0].lba < left[i][0].lba
  {
    cs[t].MoveDropsHead();
    forall i | 0 <= i < |left| && left[i] != [] ensures !cs[i].done && left[i][0] == cs[i].Head() {
      cs[i].MoveDropsHead();
    }
  }

  lemma {:induction false} RemainingLess(left: seq<seq<Item>>, left': seq<seq<Item>>, t: int)
    requires |left'| == |left| && forall i :: 0 <= i < |left| ==> |left'[i]| <= |left[i]|
    ensures Remaining(left') <= Remaining(left)
    ensures 0 <= t < |left| && |left'[t]| < |left[t]| ==> Remaining(left') < Remaining(left)
    decreases |left|
  {
    if left != [] {
      RemainingLess(left[1..], left'[1..], t - 1);
    }
  }

  /** The scan of __pick_smallest_pair over the heads; -1 when every cursor is done. */
  method MinHead(cs: array<Cursor>) returns (t: int)
    requires forall i :: 0 <= i < cs.Length ==> cs[i].Ok()
    ensures t == -1 ==> forall i :: 0 <= i < cs.Length ==> cs[i].done
    ensures t != -1 ==> t >= 0 && Smallest(cs[..], t)
  {
    t := -1;
    for i := 0 to cs.Length
      invariant t == -1 ==> forall j :: 0 <= j < i ==> cs[j].done
      invariant t != -1 ==> t >= 0 && Smallest(cs[..i], t)
    {
      if !cs[i].done && (t == -1 || cs[t].Head().lba > cs[i].Head().lba) {
        t := i;
      }
    }
    assert cs[..cs.Length] == cs[..];
  }

  /** The head of cursor t passes its check. */
  ghost predicate Passing(cs: seq<Cursor>, owners: seq<Slot>, job: Job, t: nat)
    requires CursorsOk(cs, job) && |owners| == |job.owners| && job.OwnersOk(owners)
  {
    && t < |cs| && !cs[t].done && cs[t].Head().lba < |owners|
    && PassesCheck(owners[cs[t].Head().lba], job.infos, cs[t].run, cs[t].Head())
  }

  /** Cursor t has the smallest head and it passes, or there is no head and t is -1. */
  ghost predicate Picked(cs: seq<Cursor>, owners: seq<Slot>, job: Job, t: int)
    requires CursorsOk(cs, job) && |owners| == |job.owners| && job.OwnersOk(owners)
  {
    && (t == -1 ==> AllDone(cs))
    && (t != -1 ==> t >= 0 && Passing(cs, owners, job, t) && Smallest(cs, t))
  }

  /** Cursors that moved on or stayed. */
  ghost predicate Onward(cs: seq<Cursor>, cs': seq<Cursor>) {
    |cs'| == |cs| && forall i :: 0 <= i < |cs| ==> (cs[i].done ==> cs'[i].done) && cs[i].proc <= cs'[i].proc
  }

  /** __pick_smallest_pair: heads that fail their check are dropped until the smallest one passes; -1 at the end. */
  method PickSmallest(cs: array<Cursor>, owners: array<Slot>, infos: seq<ShortcutMaster.Info>,
                      ghost left: seq<seq<Item>>, ghost job: Job, ghost out: seq<Out>)
    returns (t: int, ghost left': seq<seq<Item>>)
    requires cs as object != owners as object && State(cs[..], left, owners[..], job, out) && infos == job.infos
    modifies cs
    ensures State(cs[..], left', owners[..], job, out) && Remaining(left') <= Remaining(left)
    ensures Picked(cs[..], owners[..], job, t) && Onward(old(cs[..]), cs[..])
  {
    var again;
    t, again, left' := PickOnce(cs, owners, infos, left, job, out);
    while again
      invariant State(cs[..], left', owners[..], job, out) && Remaining(left') <= Remaining(left)
      invariant Onward(old(cs[..]), cs[..])
      invariant !again ==> Picked(cs[..], owners[..], job, t)
      decreases again, Remaining(left')
    {
      t, again, left' := PickOnce(cs, owners, infos, left', job, out);
    }
  }

  /** One scan over the heads and the check of the smallest. */
  method PickOnce(cs: array<Cursor>, owners: array<Slot>, infos: seq<ShortcutMaster.Info>,
                  ghost left: seq<seq<Item>>, ghost job: Job, ghost out: seq<Out>)
    returns (t: int, again: bool, ghost left': seq<seq<Item>>)
    requires cs as object != owners as object && State(cs[..], left, owners[..], job, out) && infos == job.infos
    modifies cs
    ensures State(cs[..], left', owners[..], job, out) && Remaining(left') <= Remaining(left)
    ensures again ==> Remaining(left') < Remaining(left)
    ensures !again ==> Picked(cs[..], owners[..], job, t)
    ensures Onward(old(cs[..]), cs[..])
  {
    t := MinHead(cs);
    if t == -1 {
      again, left' := false, left;
    } else {
      var passes;
      passes, left' := TryHead(cs, owners, infos, left, job, out, t);
      again := !passes;
    }
  }

  /** One validity check of __pick_smallest_pair: the head stays when it passes, and is dropped otherwise. */
  method TryHead(cs: array<Cursor>, owners: array<Slot>, infos: seq<ShortcutMaster.Info>,
                 ghost left: seq<seq<Item>>, ghost job: Job, ghost out: seq<Out>, t: nat)
    returns (passes: bool, ghost left': seq<seq<Item>>)
    requires cs as object != owners as object && State(cs[..], left, owners[..], job, out) && infos == job.infos
    requires t < cs.Length && !cs[t].done
    modifies cs
    ensures State(cs[..], left', owners[..], job, out)
    ensures passes ==> cs[..] == old(cs[..]) && left' == left && Passing(cs[..], owners[..], job, t)
    ensures !passes ==> Remaining(left') < Remaining(left)
    ensures Onward(old(cs[..]), cs[..])
  {
    HeadUnlinked(cs[..], left, owners[..], job, out, t);
    var head := cs[t].Head();
    passes := PassesCheck(owners[head.lba], infos, cs[t].run, head);
    left' := left;
    if !passes {
      ghost var before := cs[..];
      cs[t] := cs[t].Move();
      left' := DropStep(before, left, owners[..], job, out, t, cs[..]);
    }
  }

  // ----- rounds

  /** Every cursor is done or has reached the block where the round ends. */
  ghost predicate RoundDone(cs: seq<Cursor>, round: nat) {
    forall i :: 0 <= i < |cs| ==> cs[i].done || cs[i].proc >= round
  }

  ghost function Flags(cs: seq<Cursor>, round: nat): (bits: seq<bool>)
    ensures |bits| == |cs|
  {
    seq(|cs|, i requires 0 <= i < |cs| => cs[i].done || cs[i].proc >= round)
  }

  lemma {:induction false} FlagsAll(cs: seq<Cursor>, round: nat)
    ensures All(Flags(cs, round)) <==> RoundDone(cs, round)
  {
    if All(Flags(cs, round)) {
      forall i | 0 <= i < |cs| ensures cs[i].done || cs[i].proc >= round {
        assert Flags(cs, round)[i];
      }
    }
  }

  /** __set_read_flag */
  method SetReadFlag(cs: array<Cursor>, round: nat) returns (flag: Word)
    ensures flag == Encode(Flags(cs[..], round))
    ensures cs.Length < 32 ==> (flag == Mask(cs.Length) <==> RoundDone(cs[..], round))
  {
    flag := {};
    for i := 0 to cs.Length
      invariant flag == Encode(Flags(cs[..i], round))
    {
      EncodeNext(Flags(cs[..i], round), Flags(cs[..i + 1], round));
      if cs[i].done || cs[i].proc >= round {
        flag := flag + Bit(i);
      }
    }
    assert cs[..cs.Length] == cs[..];
    if cs.Length < 32 {
      EncodeIsMask(Flags(cs[..], round));
      FlagsAll(cs[..], round);
    }
  }

  /** When every cursor is done, the test sees it exactly with fewer than 32 runs: with more, sorting never ends. */
  lemma {:induction false} EndIsSeenIff(cs: seq<Cursor>, round: nat)
    requires AllDone(cs)
    ensures Encode(Flags(cs, round)) == Mask(|cs|) <==> |cs| < 32
  {
    FlagsAll(cs, round);
    if |cs| < 32 {
      EncodeIsMask(Flags(cs, round));
    } else {
      FullFlagIsNoMask(Flags(cs, round));
    }
  }

  /** A cursor that moves on keeps the bits that were set. */
  lemma {:induction false} FlagsGrow(cs: seq<Cursor>, i: nat, c: Cursor, round: nat)
    requires i < |cs| && (cs[i].done ==> c.done) && cs[i].proc <= c.proc
    ensures Encode(Flags(cs, round)) <= Encode(Flags(cs[i := c], round))
    ensures c.proc >= round ==> Bit(i) <= Encode(Flags(cs[i := c], round))
  {
    var was, now := Flags(cs, round), Flags(cs[i := c], round);
    assert forall k :: 0 <= k < |cs| && was[k] ==> now[k];
    assert c.proc >= round ==> now[i];
  }

  lemma {:induction false} FlagsOnward(cs: seq<Cursor>, cs': seq<Cursor>, round: nat)
    requires Onward(cs, cs')
    ensures Encode(Flags(cs, round)) <= Encode(Flags(cs', round))
  {
    var was, now := Flags(cs, round), Flags(cs', round);
    assert forall k :: 0 <= k < |cs| && was[k] ==> now[k];
  }

  /**
   * __move_iter: every cursor at the emitted lba moves on. The flag gains the bits of cursors that reached the end of
   * the round, but not of those that came to their own end.
   */
  method MoveIter(cs: array<Cursor>, lba: nat, flag: Word, round: nat) returns (flag': Word)
    requires (forall i :: 0 <= i < cs.Length ==> cs[i].Ok()) && cs.Length < 32 && flag <= Encode(Flags(cs[..], round))
    modifies cs
    ensures MovedPast(old(cs[..]), cs[..], lba)
    ensures flag' == Mask(cs.Length) ==> RoundDone(cs[..], round)
  {
    flag' := flag;
    for i := 0 to cs.Length
      invariant forall j :: 0 <= j < cs.Length ==>
                  cs[j] == if j < i && !old(cs[j]).done && old(cs[j]).Head().lba == lba
                           then old(cs[j]).Move() else old(cs[j])
      invariant flag' <= Encode(Flags(cs[..], round))
    {
      if !cs[i].done && cs[i].Head().lba == lba {
        var prev := cs[i].proc;
        FlagsGrow(cs[..], i, cs[i].Move(), round);
        ghost var before := cs[..];
        cs[i] := cs[i].Move();
        assert cs[..] == before[i := cs[i]];
        if cs[i].proc != prev && cs[i].proc >= round {
          flag' := flag' + Bit(i);
        }
      }
    }
    MaskInside(flag', Flags(cs[..], round));
    FlagsAll(cs[..], round);
  }

  /** sp_set_noncopy_check: the head starts the next block marked for a trivial move. */
  predicate AtNoncopy(c: Cursor)
    requires c.Ok() && !c.done
  {
    c.noncopyIdx < |c.noncopy| && c.noncopy[c.noncopyIdx] < |c.run.blocks|
    && c.run.blocks[c.noncopy[c.noncopyIdx]].Start() == c.Head().lba
  }

  /** Emits the smallest head. */
  method EmitHead(cs: array<Cursor>, owners: array<Slot>, round: nat, flag: Word, ghost left: seq<seq<Item>>,
                  ghost job: Job,
                  ghost out: seq<Out>, t: nat)
    returns (flag': Word, entry: seq<Out>, ghost left': seq<seq<Item>>, ghost out': seq<Out>)
    requires cs as object != owners as object && State(cs[..], left, owners[..], job, out) && Smallest(cs[..], t)
    requires Passing(cs[..], owners[..], job, t) && flag <= Encode(Flags(cs[..], round))
    modifies cs
    ensures State(cs[..], left', owners[..], job, out') && Remaining(left') < Remaining(left) && out' == out + entry
    ensures flag' == Mask(cs.Length) ==> RoundDone(cs[..], round)
  {
    ghost var before := cs[..];
    entry := [Out(t, cs[t].Head())];
    out' := out + entry;
    flag' := MoveIter(cs, cs[t].Head().lba, flag, round);
    left' := EmitStep(before, left, owners[..], job, out, t, cs[..], out');
  }

  /** The smallest head passes its check and starts a block to be moved whole. */
  ghost predicate MoveReady(cs: seq<Cursor>, owners: seq<Slot>, job: Job, t: int)
    requires CursorsOk(cs, job) && |owners| == |job.owners| && job.OwnersOk(owners)
  {
    t >= 0 && Passing(cs, owners, job, t) && Smallest(cs, t) && AtNoncopy(cs[t])
  }

  /** One emitted entry after what was sorted so far, and the flag afterwards. */
  method SortNext(cs: array<Cursor>, owners: array<Slot>, round: nat, flag: Word, t: nat, sorted: seq<Out>,
                  ghost left: seq<seq<Item>>, ghost job: Job, ghost out: seq<Out>, ghost out0: seq<Out>)
    returns (flag': Word, sorted': seq<Out>, ghost left': seq<seq<Item>>, ghost out': seq<Out>)
    requires cs as object != owners as object && State(cs[..], left, owners[..], job, out) && out == out0 + sorted
    requires Picked(cs[..], owners[..], job, t) && flag <= Encode(Flags(cs[..], round))
    modifies cs
    ensures State(cs[..], left', owners[..], job, out') && out' == out0 + sorted' && Remaining(left') < Remaining(left)
    ensures flag' == Mask(cs.Length) ==> RoundDone(cs[..], round)
  {
    var entry;
    flag', entry, left', out' := EmitHead(cs, owners, round, flag, left, job, out, t);
    sorted' := sorted + entry;
    Regroup(out0, sorted, entry);
  }

  /** One turn of the loop in __sorting_mm_set that did not break at its top. */
  method SortTurn(cs: array<Cursor>, owners: array<Slot>, infos: seq<ShortcutMaster.Info>, round: nat, trivial: bool,
                  flag: Word,
                  sorted: seq<Out>, ghost left: seq<seq<Item>>, ghost job: Job, ghost out: seq<Out>,
                  ghost out0: seq<Out>)
    returns (moved: int, flag': Word, sorted': seq<Out>, ghost left': seq<seq<Item>>, ghost out': seq<Out>)
    requires cs as object != owners as object && State(cs[..], left, owners[..], job, out) && infos == job.infos
    requires flag == Encode(Flags(cs[..], round)) && !RoundDone(cs[..], round) && out == out0 + sorted
    modifies cs
    ensures State(cs[..], left', owners[..], job, out') && out' == out0 + sorted'
    ensures moved == -1 ==> Remaining(left') < Remaining(left)
    ensures moved != -1 ==> Remaining(left') <= Remaining(left) && MoveReady(cs[..], owners[..], job, moved)
    ensures moved == -1 && flag' == Mask(cs.Length) ==> RoundDone(cs[..], round)
  {
    ghost var before := cs[..];
    SomethingLeft(before, left, round);
    moved, flag', sorted', out' := -1, flag, sorted, out;
    var t;
    t, left' := PickSmallest(cs, owners, infos, left, job, out);
    FlagsOnward(before, cs[..], round);
    if t == -1 {
      NothingRemains(cs[..], left');
      FlagsAll(before, round);
      EncodeIsMask(Flags(before, round));
    } else if trivial && AtNoncopy(cs[t]) {
      moved := t;
    } else {
      flag', sorted', left', out' := SortNext(cs, owners, round, flag, t, sorted, left', job, out, out0);
    }
  }

  /** A round that is not over has entries left. */
  lemma {:induction false} SomethingLeft(cs: seq<Cursor>, left: seq<seq<Item>>, round: nat)
    requires LeftOf(cs, left) && !RoundDone(cs, round)
    ensures Remaining(left) > 0
  {
    var i :| 0 <= i < |cs| && !cs[i].done;
    cs[i].MoveDropsHead();
    RemainingStore(left, i, []);
    assert Remaining(left[i := []]) >= 0;
  }

  lemma {:induction false} NothingRemains(cs: seq<Cursor>, left: seq<seq<Item>>)
    requires LeftOf(cs, left) && AllDone(cs)
    ensures Remaining(left) == 0
  {
    NothingLeft(cs, left);
    NoItems(left);
  }

  lemma {:induction false} NoItems(left: seq<seq<Item>>)
    requires forall i :: 0 <= i < |left| ==> left[i] == []
    ensures Remaining(left) == 0
  {
    if left != [] {
      NoItems(left[1..]);
    }
  }

  /**
   * __sorting_mm_set: sorts one round of entries, or stops at a block that can be moved whole and returns its cursor.
   */
  method SortRound(cs: array<Cursor>, owners: array<Slot>, infos: seq<ShortcutMaster.Info>, round: nat, trivial: bool,
                   ghost left: seq<seq<Item>>, ghost job: Job, ghost out: seq<Out>)
    returns (moved: int, sorted: seq<Out>, ghost left': seq<seq<Item>>, ghost out': seq<Out>)
    requires cs as object != owners as object && State(cs[..], left, owners[..], job, out) && infos == job.infos
    modifies cs
    ensures State(cs[..], left', owners[..], job, out') && out' == out + sorted && Remaining(left') <= Remaining(left)
    ensures moved == -1 ==> RoundDone(cs[..], round)
    ensures moved != -1 ==> MoveReady(cs[..], owners[..], job, moved)
    ensures RoundDone(old(cs[..]), round) ==> moved == -1 && sorted == [] && cs[..] == old(cs[..]) && left' == left
  {
    moved, sorted, left', out' := -1, [], left, out;
    var flag := SetReadFlag(cs, round);
    while flag != Mask(cs.Length)
      invariant State(cs[..], left', owners[..], job, out') && Remaining(left') <= Remaining(left)
      invariant out' == out + sorted && flag == Encode(Flags(cs[..], round))
      invariant flag == Mask(cs.Length) <==> RoundDone(cs[..], round)
      invariant RoundDone(old(cs[..]), round) ==> sorted == [] && cs[..] == old(cs[..]) && left' == left
      decreases Remaining(left')
    {
      moved, flag, sorted, left', out' :=
        SortTurn(cs, owners, infos, round, trivial, flag, sorted, left', job, out', out);
      if moved != -1 {
        return;
      }
      if flag == Mask(cs.Length) {
        break;
      }
      flag := SetReadFlag(cs, round);
    }
  }

  // ----- marking disjoint blocks

  /** The checks of __check_disjoint_spm for block j of run i against every other run, all of them normal runs. */
  method OverlapElsewhere(runs: seq<Run>, i: nat, j: nat) returns (k: int, m: int)
    requires forall r :: 0 <= r < |runs| ==> runs[r].Ok() && StrictlySorted(ItemsFrom(runs[r].blocks, 0))
    requires i < |runs| && j < |runs[i].blocks|
    ensures k == -1 ==> Apart(runs, i, j)
    ensures k != -1 ==> 0 <= k < |runs| && k != i && 0 <= m < |runs[k].blocks|
                        && Overlap(Ranges(runs[k])[m], Ranges(runs[i])[j])
  {
    RangesOrdered(runs[i]);
    k, m := 0, -1;
    while k < |runs|
      invariant 0 <= k <= |runs|
      invariant forall r, n :: 0 <= r < k && r != i && 0 <= n < |runs[r].blocks| ==>
                  !Overlap(Ranges(runs[r])[n], Ranges(runs[i])[j])
    {
      if k != i {
        RangesOrdered(runs[k]);
        m := JointCheck(Ranges(runs[k]), Ranges(runs[i])[j]);
        if m != -1 {
          return;
        }
      }
      k := k + 1;
    }
    return -1, -1;
  }

  /** disjoint_check: a cleared flag belongs to a block that overlaps another run. */
  ghost predicate FlagsSound(runs: seq<Run>, flags: seq<seq<bool>>) {
    && |flags| == |runs| && (forall i :: 0 <= i < |runs| ==> runs[i].Ok() && |flags[i]| == |runs[i].blocks|)
    && forall i, j :: 0 <= i < |runs| && 0 <= j < |runs[i].blocks| && !flags[i][j] ==>
         !Movable(runs[i].blocks[j]) || !Apart(runs, i, j)
  }

  /** Exactly the movable blocks apart from all other runs, in order, below block n. */
  ghost predicate MarksExact(runs: seq<Run>, i: nat, marks: seq<nat>, n: nat)
    requires (forall k :: 0 <= k < |runs| ==> runs[k].Ok()) && i < |runs| && n <= |runs[i].blocks|
  {
    && (forall a, b :: 0 <= a < b < |marks| ==> marks[a] < marks[b])
    && forall j :: j in marks <==> 0 <= j < n && Movable(runs[i].blocks[j]) && Apart(runs, i, j)
  }

  /** __check_disjoint_spm */
  method CheckDisjoint(runs: seq<Run>) returns (noncopy: seq<seq<nat>>)
    requires forall r :: 0 <= r < |runs| ==> runs[r].Ok() && StrictlySorted(ItemsFrom(runs[r].blocks, 0))
    ensures |noncopy| == |runs|
    ensures forall i :: 0 <= i < |runs| ==> MarksExact(runs, i, noncopy[i], |runs[i].blocks|)
  {
    var flags := seq(|runs|, i requires 0 <= i < |runs| => seq(|runs[i].blocks|, _ => true));
    noncopy := [];
    var i := 0;
    while i < |runs|
      invariant i <= |runs| == |flags| && |noncopy| == i && FlagsSound(runs, flags)
      invariant forall k :: 0 <= k < i ==> MarksExact(runs, k, noncopy[k], |runs[k].blocks|)
    {
      var marks;
      marks, flags := MarkRun(runs, i, flags);
      noncopy := noncopy + [marks];
      i := i + 1;
    }
  }

  /** The blocks of one run. */
  method MarkRun(runs: seq<Run>, i: nat, flags: seq<seq<bool>>) returns (marks: seq<nat>, flags': seq<seq<bool>>)
    requires forall r :: 0 <= r < |runs| ==> runs[r].Ok() && StrictlySorted(ItemsFrom(runs[r].blocks, 0))
    requires i < |runs| && FlagsSound(runs, flags)
    ensures FlagsSound(runs, flags') && MarksExact(runs, i, marks, |runs[i].blocks|)
  {
    marks, flags' := [], flags;
    var j := 0;
    while j < |runs[i].blocks|
      invariant j <= |runs[i].blocks| && FlagsSound(runs, flags') && MarksExact(runs, i, marks, j)
    {
      MarksStep(runs, i, marks, j);
      if Movable(runs[i].blocks[j]) && flags'[i][j] {
        var k, m := OverlapElsewhere(runs, i, j);
        if k == -1 {
          marks := marks + [j];
        } else {
          OverlapSpoilsBoth(runs, i, j, k, m);
          ClearFlag(runs, flags', i, j);
          flags' := flags'[i := flags'[i][j := false]];
          ClearFlag(runs, flags', k, m);
          flags' := flags'[k := flags'[k][m := false]];
        }
      }
      j := j + 1;
    }
  }

  /** Clearing the flag of a block that is not apart. */
  lemma {:induction false} ClearFlag(runs: seq<Run>, flags: seq<seq<bool>>, i: nat, j: nat)
    requires FlagsSound(runs, flags) && i < |runs| && j < |runs[i].blocks| && !Apart(runs, i, j)
    ensures FlagsSound(runs, flags[i := flags[i][j := false]])
  {
  }

  lemma {:induction false} MarksStep(runs: seq<Run>, i: nat, marks: seq<nat>, j: nat)
    requires (forall k :: 0 <= k < |runs| ==> runs[k].Ok()) && i < |runs| && j < |runs[i].blocks|
    requires MarksExact(runs, i, marks, j)
    ensures Movable(runs[i].blocks[j]) && Apart(runs, i, j) ==> MarksExact(runs, i, marks + [j], j + 1)
    ensures !(Movable(runs[i].blocks[j]) && Apart(runs, i, j)) ==> MarksExact(runs, i, marks, j + 1)
  {
    forall a | 0 <= a < |marks| ensures marks[a] < j {
      assert marks[a] in marks;
    }
    assert forall n :: n in marks + [j] <==> n in marks || n == j;
  }

  lemma {:induction false} OverlapSpoilsBoth(runs: seq<Run>, i: nat, j: nat, k: nat, m: nat)
    requires (forall r :: 0 <= r < |runs| ==> runs[r].Ok()) && i < |runs| && j < |runs[i].blocks|
    requires k < |runs| && k != i && m < |runs[k].blocks| && Overlap(Ranges(runs[k])[m], Ranges(runs[i])[j])
    ensures !Apart(runs, i, j) && !Apart(runs, k, m)
  {
  }

  // ----- trivial move

  /** A block being moved, k of its pairs handled: the others wait beyond its end. */
  ghost predicate Moving(cs: seq<Cursor>, job: Job, t: nat, b: nat, end: nat, k: nat) {
    && CursorsOk(cs, job) && t < |cs| && !cs[t].done && cs[t].now == b < |cs[t].run.blocks| && cs[t].ptr == k
    && Movable(cs[t].run.blocks[b]) && end == cs[t].run.blocks[b].End()
    && forall i :: 0 <= i < |cs| && i != t && !cs[i].done ==> end < cs[i].Head().lba
  }

  /** A cursor whose head is the first lba of a block stands at the start of that block. */
  lemma {:induction false} HeadStartsBlock(c: Cursor, nb: nat)
    requires c.Ok() && !c.done && StrictlySorted(ItemsFrom(c.run.blocks, 0))
    requires nb < |c.run.blocks| && c.run.blocks[nb].Start() == c.Head().lba
    ensures nb == c.now && c.ptr == 0
  {
    BlocksOrdered(c.run, 0);
    InsideBlock(c.run, c.now, c.ptr);
    InsideBlock(c.run, nb, 0);
  }

  /** A head beyond the start of a block that its own block does not overlap is beyond its end. */
  lemma {:induction false} HeadBeyond(c: Cursor, r: Range)
    requires c.Ok() && !c.done && StrictlySorted(ItemsFrom(c.run.blocks, 0))
    requires r.start <= c.Head().lba && !Overlap(Ranges(c.run)[c.now], r)
    ensures r.end < c.Head().lba
  {
    BlocksOrdered(c.run, 0);
    InsideBlock(c.run, c.now, c.ptr);
  }

  /** The block a merge is about to move whole: the head starts it, and every other cursor lies beyond its end. */
  lemma {:induction false} MoveIsAlone(cs: seq<Cursor>, left: seq<seq<Item>>, owners: seq<Slot>, job: Job,
                                       out: seq<Out>, t: nat)
    requires State(cs, left, owners, job, out) && MoveReady(cs, owners, job, t)
    ensures Moving(cs, job, t, cs[t].now, cs[t].run.blocks[cs[t].now].End(), 0)
  {
    var c := cs[t];
    var nb := c.noncopy[c.noncopyIdx];
    assert nb in job.noncopy[t] && Apart(job.runs, t, nb);
    HeadStartsBlock(c, nb);
    forall i | 0 <= i < |cs| && i != t && !cs[i].done
      ensures c.run.blocks[c.now].End() < cs[i].Head().lba
    {
      assert !Overlap(Ranges(job.runs[i])[cs[i].now], Ranges(job.runs[t])[nb]);
      HeadBeyond(cs[i], Ranges(job.runs[t])[nb]);
    }
  }

  /** The next pair of the block, and past its last one the next block. */
  lemma {:induction false} MovingIsSmallest(cs: seq<Cursor>, job: Job, t: nat, b: nat, end: nat, k: nat,
                                            cs': seq<Cursor>)
    requires Moving(cs, job, t, b, end, k) && |cs'| == |cs| && cs' == cs[t := cs'[t]] && cs[t].Moved(cs'[t])
    ensures Smallest(cs, t) && MovedPast(cs, cs', cs[t].Head().lba)
    ensures cs[t].Head() == cs[t].run.blocks[b].Items(b)[k]
    ensures cs[t].Head().lba == end <==> k + 1 == |cs[t].run.blocks[b].pairs|
    ensures cs[t].Head().lba != end ==> Moving(cs', job, t, b, end, k + 1)
  {
    BlocksOrdered(cs[t].run, 0);
    InsideBlock(cs[t].run, b, cs[t].ptr);
  }

  /** The cursor goes on inside the block, or steps over its end. */
  method StepInBlock(cs: array<Cursor>, t: nat, end: nat, ghost job: Job, ghost b: nat,
                     ghost k: nat) returns (last: bool)
    requires Moving(cs[..], job, t, b, end, k)
    modifies cs
    ensures cs[..] == old(cs[..])[t := cs[t]] && old(cs[t]).Moved(cs[t]) && last == (old(cs[t]).Head().lba == end)
  {
    BlocksOrdered(cs[t].run, 0);
    InsideBlock(cs[t].run, b, cs[t].ptr);
    last := cs[t].Head().lba == end;
    cs[t] := if last then cs[t].MoveSte() else cs[t].Move();
  }

  /** One entry of the block: linked when no newer run owns its lba. */
  method MoveEntry(cs: array<Cursor>, owners: array<Slot>, infos: seq<ShortcutMaster.Info>, t: nat, ghost b: nat,
                   end: nat, ghost k: nat,
                   ghost left: seq<seq<Item>>, ghost job: Job, ghost out: seq<Out>)
    returns (last: bool, entry: seq<Out>, ghost left': seq<seq<Item>>, ghost out': seq<Out>)
    requires cs as object != owners as object && State(cs[..], left, owners[..], job, out) && infos == job.infos
    requires Moving(cs[..], job, t, b, end, k)
    modifies cs
    ensures State(cs[..], left', owners[..], job, out') && out' == out + entry && Remaining(left') < Remaining(left)
    ensures !last ==> Moving(cs[..], job, t, b, end, k + 1)
    ensures b < |job.runs[t].blocks| && k < |job.runs[t].blocks[b].pairs|
    ensures last <==> k + 1 == |job.runs[t].blocks[b].pairs|
    ensures var x := job.runs[t].blocks[b].Items(b)[k]; entry == if job.Alive(t, x) then [Out(t, x)] else []
  {
    ghost var before := cs[..];
    HeadUnlinked(before, left, owners[..], job, out, t);
    var x := cs[t].Head();
    var valid := ShortcutMaster.OwnerNotNewer(owners[x.lba], infos, cs[t].run.slot);
    last := StepInBlock(cs, t, end, job, b, k);
    entry := if valid then [Out(t, x)] else [];
    out' := out + entry;
    left' := EntryMoved(before, left, owners[..], job, out, t, b, end, k, cs[..], out');
  }

  lemma {:induction false} EntryMoved(cs: seq<Cursor>, left: seq<seq<Item>>, owners: seq<Slot>, job: Job,
                                      out: seq<Out>, t: nat, b: nat,
                                      end: nat, k: nat, cs': seq<Cursor>, out': seq<Out>)
    returns (left': seq<seq<Item>>)
    requires State(cs, left, owners, job, out) && Moving(cs, job, t, b, end, k)
    requires |cs'| == |cs| && cs' == cs[t := cs'[t]] && cs[t].Moved(cs'[t])
    requires cs[t].Head().lba < |owners|
    requires out' == out + if ShortcutMaster.OwnerNotNewer(owners[cs[t].Head().lba], job.infos, cs[t].run.slot)
                           then [Out(t, cs[t].Head())] else []
    ensures State(cs', left', owners, job, out') && Remaining(left') < Remaining(left)
    ensures cs[t].Head().lba != end ==> Moving(cs', job, t, b, end, k + 1)
    ensures b < |job.runs[t].blocks| && k < |job.runs[t].blocks[b].pairs|
    ensures cs[t].Head().lba == end <==> k + 1 == |job.runs[t].blocks[b].pairs|
    ensures cs[t].Head() == job.runs[t].blocks[b].Items(b)[k]
    ensures job.Alive(t, cs[t].Head())
        == ShortcutMaster.OwnerNotNewer(owners[cs[t].Head().lba], job.infos, cs[t].run.slot)
  {
    HeadUnlinked(cs, left, owners, job, out, t);
    MovingIsSmallest(cs, job, t, b, end, k, cs');
    if job.Alive(t, cs[t].Head()) {
      left' := EmitStep(cs, left, owners, job, out, t, cs', out');
    } else {
      assert out' == out;
      left' := DropStep(cs, left, owners, job, out, t, cs');
    }
  }

  /** The block of the head, found by its lba, and that block's last lba. */
  method TargetBlock(c: Cursor) returns (ste: nat, end: nat)
    requires c.Ok() && !c.done && StrictlySorted(ItemsFrom(c.run.blocks, 0))
    ensures ste == c.now && end == c.run.blocks[c.now].End()
  {
    var spm := Ranges(c.run);
    RangesOrdered(c.run);
    BlocksOrdered(c.run, 0);
    InsideBlock(c.run, c.now, c.ptr);
    var idx := FindTargetIdx(spm, c.Head().lba);
    assert spm[c.now].start <= c.Head().lba <= spm[c.now].end;
    return idx, spm[idx].end;
  }

  /** A block being moved: n of its entries are passed, and those of them that are live are linked. */
  ghost predicate Stage(cs: seq<Cursor>, left: seq<seq<Item>>, owners: seq<Slot>, job: Job, t: nat, b: nat, end: nat,
                        n: nat, last: bool, linked: seq<Out>, start: seq<Out>, out: seq<Out>)
  {
    && State(cs, left, owners, job, out) && t < |job.runs| && b < |job.runs[t].blocks|
    && Halfway(job, t, job.runs[t].blocks[b].Items(b), n, last, linked, start, out)
    && (!last ==> Moving(cs, job, t, b, end, n))
  }

  lemma {:induction false} StageStarts(cs: seq<Cursor>, left: seq<seq<Item>>, owners: seq<Slot>, job: Job, t: nat,
                                       b: nat, end: nat, out: seq<Out>)
    requires State(cs, left, owners, job, out) && Moving(cs, job, t, b, end, 0)
    ensures Stage(cs, left, owners, job, t, b, end, 0, false, [], out, out)
  {
  }

  lemma {:induction false} StageEnds(cs: seq<Cursor>, left: seq<seq<Item>>, owners: seq<Slot>, job: Job, t: nat,
                                     b: nat, end: nat, n: nat, linked: seq<Out>, start: seq<Out>, out: seq<Out>)
    requires Stage(cs, left, owners, job, t, b, end, n, true, linked, start, out)
    ensures State(cs, left, owners, job, out) && out == start + linked
    ensures b < |job.runs[t].blocks| && n == |job.runs[t].blocks[b].pairs|
    ensures linked == LiveOf(job.runs[t].blocks[b].Items(b), t, job.Live())
  {
    var items := job.runs[t].blocks[b].Items(b);
    assert items[..n] == items;
  }

  /** One entry more of those linked so far. */
  method MoveOn(cs: array<Cursor>, owners: array<Slot>, infos: seq<ShortcutMaster.Info>, t: nat, ghost b: nat,
                end: nat, ghost n: nat, linked: seq<Out>,
                ghost left: seq<seq<Item>>, ghost job: Job, ghost start: seq<Out>, ghost out: seq<Out>)
    returns (last: bool, linked': seq<Out>, ghost left': seq<seq<Item>>, ghost out': seq<Out>)
    requires cs as object != owners as object && infos == job.infos && t < cs.Length
    requires Stage(cs[..], left, owners[..], job, t, b, end, n, false, linked, start, out)
    modifies cs
    ensures Stage(cs[..], left', owners[..], job, t, b, end, n + 1, last, linked', start, out')
    ensures Remaining(left') < Remaining(left)
  {
    var entry;
    last, entry, left', out' := MoveEntry(cs, owners, infos, t, b, end, n, left, job, out);
    HalfwayNext(job, t, job.runs[t].blocks[b].Items(b), n, last, entry, linked, start, out);
    linked' := linked + entry;
  }

  /** Entry by entry to the end of the block. */
  method MoveEntries(cs: array<Cursor>, owners: array<Slot>, infos: seq<ShortcutMaster.Info>, t: nat, ghost b: nat,
                     end: nat,
                     ghost left: seq<seq<Item>>, ghost job: Job, ghost out: seq<Out>)
    returns (linked: seq<Out>, n: nat, ghost left': seq<seq<Item>>, ghost out': seq<Out>)
    requires cs as object != owners as object && State(cs[..], left, owners[..], job, out) && infos == job.infos
    requires Moving(cs[..], job, t, b, end, 0)
    modifies cs
    ensures State(cs[..], left', owners[..], job, out') && out' == out + linked && Remaining(left') < Remaining(left)
    ensures b < |job.runs[t].blocks| && n == |job.runs[t].blocks[b].pairs|
    ensures linked == LiveOf(job.runs[t].blocks[b].Items(b), t, job.Live())
  {
    var last := false;
    n, linked, left', out' := 0, [], left, out;
    StageStarts(cs[..], left, owners[..], job, t, b, end, out);
    while !last
      invariant Stage(cs[..], left', owners[..], job, t, b, end, n, last, linked, out, out')
      invariant Remaining(left') <= Remaining(left) && (last ==> Remaining(left') < Remaining(left))
      decreases Remaining(left')
    {
      last, linked, left', out' := MoveOn(cs, owners, infos, t, b, end, n, linked, left', job, out, out');
      n := n + 1;
    }
    StageEnds(cs[..], left', owners[..], job, t, b, end, n, linked, out, out');
  }

  /** Of the first n entries of the block exactly the live ones are linked, and last tells whether these are all. */
  ghost predicate Halfway(job: Job, t: nat, items: seq<Item>, n: nat, last: bool, linked: seq<Out>, out: seq<Out>,
                          out': seq<Out>)
  {
    && job.Ok() && n <= |items| && (last ==> n == |items| > 0)
    && linked == LiveOf(items[..n], t, job.Live()) && out' == out + linked
  }

  lemma {:induction false} HalfwayNext(job: Job, t: nat, items: seq<Item>, n: nat, last: bool, entry: seq<Out>,
                                       linked: seq<Out>, out: seq<Out>, out': seq<Out>)
    requires Halfway(job, t, items, n, false, linked, out, out') && n < |items|
    requires (last <==> n + 1 == |items|) && entry == if job.Alive(t, items[n]) then [Out(t, items[n])] else []
    ensures Halfway(job, t, items, n + 1, last, linked + entry, out, out' + entry)
  {
    LiveOfNext(items, t, job.Live(), n);
    Regroup(out, linked, entry);
  }

  /** The cursor is put on the marked block and the mark is consumed. */
  method StartMove(cs: array<Cursor>, owners: array<Slot>, t: nat,
                   ghost left: seq<seq<Item>>, ghost job: Job, ghost out: seq<Out>)
    returns (ste: nat, end: nat)
    requires cs as object != owners as object && State(cs[..], left, owners[..], job, out)
    requires MoveReady(cs[..], owners[..], job, t)
    modifies cs
    ensures ste == old(cs[t]).now
    ensures State(cs[..], left, owners[..], job, out) && Moving(cs[..], job, t, ste, end, 0)
  {
    MoveIsAlone(cs[..], left, owners[..], job, out, t);
    ste, end := TargetBlock(cs[t]);
    Consume(cs, owners, t, ste, end, left, job, out);
  }

  /** The mark of the block is used up. */
  method Consume(cs: array<Cursor>, owners: array<Slot>, t: nat, ghost ste: nat, ghost end: nat,
                 ghost left: seq<seq<Item>>, ghost job: Job, ghost out: seq<Out>)
    requires cs as object != owners as object && State(cs[..], left, owners[..], job, out)
    requires Moving(cs[..], job, t, ste, end, 0)
    modifies cs
    ensures State(cs[..], left, owners[..], job, out) && Moving(cs[..], job, t, ste, end, 0)
  {
    ghost var was, own := cs[..], owners[..];
    UseMark(cs, t);
    assert owners[..] == own;
    MarkUsed(was, cs[..], left, owners[..], job, out, t, ste, end);
  }

  method UseMark(cs: array<Cursor>, t: nat)
    requires t < cs.Length
    modifies cs
    ensures cs[..] == old(cs[..])[t := old(cs[t]).(noncopyIdx := old(cs[t]).noncopyIdx + 1)]
  {
    cs[t] := cs[t].(noncopyIdx := cs[t].noncopyIdx + 1);
  }

  /** Block index of run source, as it is handed over. */
  datatype MovedBlock = MovedBlock(source: nat, index: nat, block: Block)

  /**
   * Copied entries are never none. A block handed over whole keeps all its pairs; exactly those that pass their check
   * are linked, the first among them; it is flagged exactly when some do not pass, and it remembers the level and
   * recency of the run it came from.
   */
  ghost predicate PartOk(p: Part<MovedBlock>, job: Job)
    requires job.Ok()
  {
    && (p.Copied? ==> p.entries != [])
    && (p.Whole? ==>
          var m := p.moved;
          && m.source < |job.runs| && m.index < |job.runs[m.source].blocks|
          && Movable(job.runs[m.source].blocks[m.index])
          && Apart(job.runs, m.source, m.index)
          && var items := job.runs[m.source].blocks[m.index].Items(m.index);
             var info := job.infos[job.runs[m.source].slot];
             && items != [] && job.Alive(m.source, items[0]) && p.linked == LiveOf(items, m.source, job.Live())
             && m.block == job.runs[m.source].blocks[m.index].(unlinkedCopy := |p.linked| < |m.block.pairs|,
                                                               level := info.level, recency := info.recency))
  }

  ghost predicate PartsOk(parts: seq<Part<MovedBlock>>, job: Job)
    requires job.Ok()
  {
    forall p :: p in parts ==> PartOk(p, job)
  }

  /**
   * trivial_move: the block changes hands as it is; its entries are linked as copying them would have linked them,
   * in the same order.
   */
  method TrivialMove(cs: array<Cursor>, owners: array<Slot>, infos: seq<ShortcutMaster.Info>, t: nat,
                     ghost left: seq<seq<Item>>, ghost job: Job, ghost out: seq<Out>)
    returns (part: Part<MovedBlock>, ghost left': seq<seq<Item>>, ghost out': seq<Out>)
    requires cs as object != owners as object && State(cs[..], left, owners[..], job, out) && infos == job.infos
    requires MoveReady(cs[..], owners[..], job, t)
    modifies cs
    ensures State(cs[..], left', owners[..], job, out') && Remaining(left') < Remaining(left)
    ensures part.Whole? && PartOk(part, job) && part.moved.source == t && out' == out + part.linked
  {
    MarkedIsApart(cs[..], left, owners[..], job, out, t);
    var ste, end := StartMove(cs, owners, t, left, job, out);
    var run, info := cs[t].run, infos[cs[t].run.slot];
    var linked, n;
    linked, n, left', out' := MoveEntries(cs, owners, infos, t, ste, end, left, job, out);
    var block := run.blocks[ste].(unlinkedCopy := |linked| < n, level := info.level, recency := info.recency);
    part := Whole(MovedBlock(t, ste, block), linked);
  }

  lemma {:induction false} MarkedIsApart(cs: seq<Cursor>, left: seq<seq<Item>>, owners: seq<Slot>, job: Job,
                                         out: seq<Out>, t: nat)
    requires State(cs, left, owners, job, out) && MoveReady(cs, owners, job, t)
    ensures cs[t].now < |job.runs[t].blocks| && Apart(job.runs, t, cs[t].now)
  {
    var c := cs[t];
    var nb := c.noncopy[c.noncopyIdx];
    assert nb in job.noncopy[t] && Apart(job.runs, t, nb);
    HeadStartsBlock(c, nb);
  }

  /** The index of the next marked block does not matter to the merge. */
  lemma {:induction false} MarkUsed(cs: seq<Cursor>, cs': seq<Cursor>, left: seq<seq<Item>>, owners: seq<Slot>,
                                    job: Job, out: seq<Out>, t: nat, b: nat, end: nat)
    requires State(cs, left, owners, job, out) && Moving(cs, job, t, b, end, 0)
    requires cs' == cs[t := cs[t].(noncopyIdx := cs[t].noncopyIdx + 1)]
    ensures State(cs', left, owners, job, out) && Moving(cs', job, t, b, end, 0)
  {
    assert cs'[t].Left() == cs[t].Left();
  }

  // ----- the whole merge

  /** Ownership after linking: the emitted lbas belong to the target run, the others are as before the merge. */
  ghost predicate LinkedOwners(owners: seq<Slot>, job: Job, out: seq<Out>, slot: Slot) {
    && |owners| == |job.owners|
    && forall l :: 0 <= l < |owners| ==> owners[l] == if l in Lbas(out) then slot else job.owners[l]
  }

  lemma {:induction false} LinkMore(owners: seq<Slot>, owners': seq<Slot>, job: Job, out: seq<Out>, more: seq<Out>,
                                    out': seq<Out>, slot: Slot)
    requires LinkedOwners(owners, job, out, slot) && out' == out + more && |owners'| == |owners|
    requires job.OwnersOk(job.owners) && slot < |job.infos|
    requires forall l :: 0 <= l < |owners| ==> owners'[l] == if l in Lbas(more) then slot else owners[l]
    ensures LinkedOwners(owners', job, out', slot) && Agree(owners', job, out')
  {
    assert Lbas(out') == Lbas(out) + Lbas(more);
  }

  /** Emitted entries have lbas of the range. */
  lemma {:induction false} EmittedInRange(cs: seq<Cursor>, left: seq<seq<Item>>, owners: seq<Slot>, job: Job,
                                          out: seq<Out>, more: seq<Out>, out': seq<Out>)
    requires State(cs, left, owners, job, out') && out' == out + more
    ensures forall o :: o in more ==> o.item.lba < |owners|
  {
    forall o | o in more ensures o.item.lba < |owners| {
      assert o in out' && Chosen(job.Flats(), job.Live(), o);
    }
  }

  /** Links the entries of a round, or of a moved block, to the target run. */
  method Flush(cs: array<Cursor>, owners: array<Slot>, entries: seq<Out>, slot: Slot, ghost left: seq<seq<Item>>,
               ghost job: Job, ghost out: seq<Out>, ghost out': seq<Out>)
    requires cs as object != owners as object && State(cs[..], left, owners[..], job, out') && out' == out + entries
    requires LinkedOwners(owners[..], job, out, slot) && slot < |job.infos|
    modifies owners
    ensures State(cs[..], left, owners[..], job, out') && LinkedOwners(owners[..], job, out', slot)
  {
    EmittedInRange(cs[..], left, owners[..], job, out, entries, out');
    ghost var before := owners[..];
    Link(owners, entries, slot);
    LinkMore(before, owners[..], job, out, entries, out', slot);
  }

  /** One pass of the loop in run_merge: a sorted round, then at most one whole block. */
  method Pass(cs: array<Cursor>, owners: array<Slot>, infos: seq<ShortcutMaster.Info>, slot: Slot, round: nat,
              trivial: bool,
              ghost left: seq<seq<Item>>, ghost job: Job, ghost out: seq<Out>)
    returns (parts: seq<Part<MovedBlock>>, ghost left': seq<seq<Item>>, ghost out': seq<Out>)
    requires cs as object != owners as object && State(cs[..], left, owners[..], job, out) && infos == job.infos
    requires LinkedOwners(owners[..], job, out, slot) && slot < |infos|
    modifies cs, owners
    ensures State(cs[..], left', owners[..], job, out') && LinkedOwners(owners[..], job, out', slot)
    ensures out' == out + AllEntries(parts) && PartsOk(parts, job) && Remaining(left') <= Remaining(left)
    ensures Remaining(left') < Remaining(left) || RoundDone(cs[..], round)
    ensures RoundDone(old(cs[..]), round) ==>
        parts == [] && cs[..] == old(cs[..]) && owners[..] == old(owners[..]) && left' == left
  {
    var moved;
    moved, parts, left', out' := CopyRound(cs, owners, infos, slot, round, trivial, left, job, out);
    if moved != -1 {
      ghost var before, out1 := parts, out';
      var part;
      part, left', out' := MoveBlock(cs, owners, infos, slot, moved, left', job, out');
      parts := parts + [part];
      JoinPart(out, before, part, job);
    }
  }

  lemma {:induction false} JoinPart(out: seq<Out>, parts: seq<Part<MovedBlock>>, part: Part<MovedBlock>, job: Job)
    requires job.Ok() && PartsOk(parts, job) && PartOk(part, job) && part.Whole?
    ensures PartsOk(parts + [part], job)
    ensures out + AllEntries(parts + [part]) == out + AllEntries(parts) + part.linked
  {
    OnePart(part);
    AllEntriesConcat(parts, [part]);
    Regroup(out, AllEntries(parts), part.linked);
  }

  /** A sorted round, flushed and linked when it has any entries. */
  method CopyRound(cs: array<Cursor>, owners: array<Slot>, infos: seq<ShortcutMaster.Info>, slot: Slot, round: nat,
                   trivial: bool,
                   ghost left: seq<seq<Item>>, ghost job: Job, ghost out: seq<Out>)
    returns (moved: int, parts: seq<Part<MovedBlock>>, ghost left': seq<seq<Item>>, ghost out': seq<Out>)
    requires cs as object != owners as object && State(cs[..], left, owners[..], job, out) && infos == job.infos
    requires LinkedOwners(owners[..], job, out, slot) && slot < |infos|
    modifies cs, owners
    ensures State(cs[..], left', owners[..], job, out') && LinkedOwners(owners[..], job, out', slot)
    ensures out' == out + AllEntries(parts) && PartsOk(parts, job) && Remaining(left') <= Remaining(left)
    ensures moved == -1 ==> RoundDone(cs[..], round)
    ensures moved != -1 ==> MoveReady(cs[..], owners[..], job, moved)
    ensures RoundDone(old(cs[..]), round) ==>
              moved == -1 && parts == [] && cs[..] == old(cs[..]) && owners[..] == old(owners[..]) && left' == left
  {
    var sorted;
    moved, sorted, left', out' := SortRound(cs, owners, infos, round, trivial, left, job, out);
    parts := FlushRound(cs, owners, sorted, slot, moved, left', job, out, out');
  }

  method FlushRound(cs: array<Cursor>, owners: array<Slot>, sorted: seq<Out>, slot: Slot, ghost moved: int,
                    ghost left: seq<seq<Item>>,
                    ghost job: Job, ghost out: seq<Out>, ghost out': seq<Out>)
    returns (parts: seq<Part<MovedBlock>>)
    requires cs as object != owners as object && State(cs[..], left, owners[..], job, out') && out' == out + sorted
    requires LinkedOwners(owners[..], job, out, slot) && slot < |job.infos|
    requires moved != -1 ==> MoveReady(cs[..], owners[..], job, moved)
    modifies owners
    ensures State(cs[..], left, owners[..], job, out') && LinkedOwners(owners[..], job, out', slot)
    ensures AllEntries(parts) == sorted && PartsOk(parts, job)
    ensures (sorted == [] ==> parts == [] && owners[..] == old(owners[..]))
    ensures moved != -1 ==> MoveReady(cs[..], owners[..], job, moved)
  {
    parts := [];
    if |sorted| > 0 {
      ghost var owners0 := owners[..];
      Flush(cs, owners, sorted, slot, left, job, out, out');
      parts := [Copied(sorted)];
      OnePart(parts[0]);
      if moved != -1 {
        StillReady(cs[..], owners0, owners[..], left, job, out', moved);
      }
    } else {
      assert out' == out;
    }
  }

  /** A whole block, handed over and linked. */
  method MoveBlock(cs: array<Cursor>, owners: array<Slot>, infos: seq<ShortcutMaster.Info>, slot: Slot, t: nat,
                   ghost left: seq<seq<Item>>, ghost job: Job, ghost out: seq<Out>)
    returns (part: Part<MovedBlock>, ghost left': seq<seq<Item>>, ghost out': seq<Out>)
    requires cs as object != owners as object && State(cs[..], left, owners[..], job, out) && infos == job.infos
    requires LinkedOwners(owners[..], job, out, slot) && slot < |infos| && MoveReady(cs[..], owners[..], job, t)
    modifies cs, owners
    ensures State(cs[..], left', owners[..], job, out') && LinkedOwners(owners[..], job, out', slot)
    ensures part.Whole? && PartOk(part, job) && out' == out + part.linked && Remaining(left') < Remaining(left)
  {
    part, left', out' := TrivialMove(cs, owners, infos, t, left, job, out);
    Flush(cs, owners, part.linked, slot, left', job, out, out');
  }

  /** Linking what was emitted changes nothing for a head not yet emitted. */
  lemma {:induction false} StillReady(cs: seq<Cursor>, owners: seq<Slot>, owners': seq<Slot>, left: seq<seq<Item>>,
                                      job: Job, out: seq<Out>, t: nat)
    requires State(cs, left, owners, job, out) && State(cs, left, owners', job, out) && MoveReady(cs, owners, job, t)
    ensures MoveReady(cs, owners', job, t)
  {
    HeadUnlinked(cs, left, owners, job, out, t);
    HeadUnlinked(cs, left, owners', job, out, t);
  }

  ghost predicate AllDone(cs: seq<Cursor>) {
    forall i :: 0 <= i < |cs| ==> cs[i].done
  }

  lemma {:induction false} NothingLeft(cs: seq<Cursor>, left: seq<seq<Item>>)
    requires LeftOf(cs, left) && AllDone(cs)
    ensures forall i :: 0 <= i < |left| ==> left[i] == []
  {
  }

  /** More blocks than any run has. */
  function MostBlocks(runs: seq<Run>): (n: nat)
    ensures forall i :: 0 <= i < |runs| ==> |runs[i].blocks| <= n
  {
    if runs == [] then 0
    else
      var m := MostBlocks(runs[1..]);
      assert forall i :: 1 <= i < |runs| ==> runs[i] == runs[1..][i - 1];
      if m < |runs[0].blocks| then |runs[0].blocks| else m
  }

  /** __make_mmset */
  method MakeCursors(runs: seq<Run>, noncopy: seq<seq<nat>>) returns (cs: array<Cursor>)
    requires (forall i :: 0 <= i < |runs| ==> runs[i].Ok()) && |noncopy| == |runs|
    ensures fresh(cs) && cs.Length == |runs|
    ensures forall i :: 0 <= i < |runs| ==>
              cs[i] == Cursor(runs[i], 0, 0, false, 0, noncopy[i], 0) && cs[i].Ok() &&
                  cs[i].Left() == ItemsFrom(runs[i].blocks, 0)
  {
    cs := new Cursor[|runs|](i requires 0 <= i < |runs| => Cursor(runs[i], 0, 0, false, 0, noncopy[i], 0));
    forall i | 0 <= i < |runs| ensures cs[i].Left() == ItemsFrom(runs[i].blocks, 0) {
      assert runs[i].blocks[0].Items(0)[0..] == runs[i].blocks[0].Items(0);
    }
  }

  lemma {:induction false} MergeStartState(cs: seq<Cursor>, owners: seq<Slot>, job: Job)
    requires job.Ok() && owners == job.owners && |cs| == |job.runs|
    requires forall i :: 0 <= i < |cs| ==>
               cs[i].Ok() && cs[i].run == job.runs[i] && cs[i].noncopy == job.noncopy[i] &&
                   cs[i].Left() == job.Flats()[i]
    ensures State(cs, job.Flats(), owners, job, [])
  {
    MergeStarts(job.Flats(), job.Live());
  }

  /** An unfinished cursor that met the goal of its round has at least that many blocks. */
  lemma {:induction false} RoundsBounded(cs: seq<Cursor>, job: Job, round: nat)
    requires CursorsOk(cs, job) && RoundDone(cs, round) && !AllDone(cs)
    ensures round < MostBlocks(job.runs)
  {
  }

  /** The loop of run_merge. */
  method RunRounds(cs: array<Cursor>, owners: array<Slot>, infos: seq<ShortcutMaster.Info>, slot: Slot, step: nat,
                   trivial: bool, ghost job: Job)
    returns (parts: seq<Part<MovedBlock>>)
    requires cs as object != owners as object && State(cs[..], job.Flats(), owners[..], job, []) && infos == job.infos
    requires LinkedOwners(owners[..], job, [], slot) && step > 0 && slot < |infos|
    modifies cs, owners
    ensures Merged(job.Flats(), job.Live(), AllEntries(parts)) && LinkedOwners(owners[..], job, AllEntries(parts), slot)
    ensures PartsOk(parts, job)
  {
    ghost var left := job.Flats();
    ghost var all: seq<Out> := [];
    parts := [];
    var round, done := 0, false;
    while !done
      invariant State(cs[..], left, owners[..], job, all) && LinkedOwners(owners[..], job, all, slot)
      invariant all == AllEntries(parts) && PartsOk(parts, job) && (done ==> AllDone(cs[..]))
      decreases !done, Remaining(left), MostBlocks(job.runs) - round
    {
      round := round + step;
      var more;
      more, left, all := Pass(cs, owners, infos, slot, round, trivial, left, job, all);
      AllEntriesConcat(parts, more);
      parts := parts + more;
      done := CheckAllDone(cs);
      if !done && RoundDone(cs[..], round) {
        RoundsBounded(cs[..], job, round);
      }
    }
    NothingLeft(cs[..], left);
    MergeComplete(job.Flats(), left, job.Live(), all);
  }

  /** How many blocks a round goes on for: all of the first run's when forced, a share of four segments otherwise. */
  function Step(runs: seq<Run>, bps: nat, force: bool): nat
    requires runs != []
  {
    if force then |runs[0].blocks| else 4 * bps / |runs|
  }

  /** A round has no blocks exactly when more runs than blocks of four segments are merged without force. */
  lemma {:induction false} StepIsZeroIff(runs: seq<Run>, bps: nat, force: bool)
    requires runs != [] && runs[0].Ok()
    ensures Step(runs, bps, force) == 0 <==> !force && 4 * bps < |runs|
  {
    var n := |runs|;
    if 4 * bps >= n {
      assert 4 * bps / n >= 1;
    }
  }

  /** Every cursor is at the first entry of its run. */
  ghost predicate AtStart(cs: seq<Cursor>, runs: seq<Run>) {
    |cs| == |runs| && forall i :: 0 <= i < |cs| ==> cs[i].run == runs[i] && cs[i].now == cs[i].ptr == 0 && !cs[i].done
  }

  /** run_merge on normal runs, newest first: the marks and the cursors. */
  method SetUp(runs: seq<Run>, owners: array<Slot>, infos: seq<ShortcutMaster.Info>, force: bool)
    returns (cs: array<Cursor>, ghost job: Job)
    requires Mergeable(runs, owners[..], infos)
    ensures fresh(cs) && job.Ok() && job.runs == runs && job.owners == owners[..] && job.infos == infos
    ensures State(cs[..], job.Flats(), owners[..], job, []) && !AllDone(cs[..]) && RoundDone(cs[..], 0)
    ensures AtStart(cs[..], runs)
  {
    var noncopy := Marks(runs, force);
    job := Job(runs, owners[..], infos, noncopy);
    cs := MakeCursors(runs, noncopy);
    JobOk(job);
    MergeStartState(cs[..], owners[..], job);
    assert !cs[..][0].done;
  }

  lemma {:induction false} JobOk(job: Job)
    requires Mergeable(job.runs, job.owners, job.infos) && |job.noncopy| == |job.runs|
    requires forall i, j :: 0 <= i < |job.runs| && j in job.noncopy[i] ==>
               j < |job.runs[i].blocks| && Movable(job.runs[i].blocks[j]) && Apart(job.runs, i, j)
    ensures job.Ok()
  {
  }

  /** The marks, unless the merge is forced. */
  method Marks(runs: seq<Run>, force: bool) returns (noncopy: seq<seq<nat>>)
    requires forall r :: 0 <= r < |runs| ==> runs[r].Ok() && StrictlySorted(ItemsFrom(runs[r].blocks, 0))
    ensures |noncopy| == |runs|
    ensures forall i, j :: 0 <= i < |runs| && j in noncopy[i] ==>
              j < |runs[i].blocks| && Movable(runs[i].blocks[j]) && Apart(runs, i, j)
  {
    noncopy := seq(|runs|, _ => []);
    if !force {
      noncopy := CheckDisjoint(runs);
    }
  }

  /** What run_merge relies on: at least one run, sorted, registered, and fewer runs than the read flag has bits. */
  ghost predicate Mergeable(runs: seq<Run>, owners: seq<Slot>, infos: seq<ShortcutMaster.Info>) {
    && 0 < |runs| < 32 && |infos| <= NOT_ASSIGNED
    && (forall i :: 0 <= i < |runs| ==>
          runs[i].Ok() && runs[i].slot < |infos| && StrictlySorted(ItemsFrom(runs[i].blocks, 0)))
    && (forall i, x :: 0 <= i < |runs| && x in ItemsFrom(runs[i].blocks, 0) ==> x.lba < |owners|)
    && forall l :: 0 <= l < |owners| ==> owners[l] < |infos| || owners[l] == NOT_ASSIGNED
  }

  /**
   * run_merge: rounds until every cursor is done. The entries linked to the target run are exactly Merged, with or
   * without moving whole blocks, and the shortcut gives their lbas, and no others, to the target.
   */
  method RunMerge(runs: seq<Run>, owners: array<Slot>, infos: seq<ShortcutMaster.Info>, slot: Slot, bps: nat,
                  force: bool)
    returns (parts: seq<Part<MovedBlock>>, ghost job: Job)
    requires Mergeable(runs, owners[..], infos) && slot < |infos| && (force || |runs| <= 4 * bps)
    modifies owners
    ensures job.Ok() && job.runs == runs && job.owners == old(owners[..]) && job.infos == infos
    ensures Merged(job.Flats(), job.Live(), AllEntries(parts)) && PartsOk(parts, job)
    ensures LinkedOwners(owners[..], job, AllEntries(parts), slot)
  {
    var cs;
    cs, job := SetUp(runs, owners, infos, force);
    StepIsZeroIff(runs, bps, force);
    parts := RunRounds(cs, owners, infos, slot, Step(runs, bps, force), !force, job);
  }

  // ----- what a later merge makes of a block that was moved whole

  /** An item of a run lies in the range of its block. */
  lemma {:induction false} ItemInBlock(run: Run, b0: nat, x: Item) returns (b: nat)
    requires run.Ok() && b0 <= |run.blocks| && StrictlySorted(ItemsFrom(run.blocks, b0))
    requires x in ItemsFrom(run.blocks, b0)
    ensures b < |run.blocks| && run.blocks[b].Start() <= x.lba <= run.blocks[b].End()
    decreases |run.blocks| - b0
  {
    var here, rest := run.blocks[b0].Items(b0), ItemsFrom(run.blocks, b0 + 1);
    SortedParts(here, rest);
    if x in here {
      var k :| 0 <= k < |here| && here[k] == x;
      b := b0;
      InsideBlock(run, b0, k);
    } else {
      b := ItemInBlock(run, b0 + 1, x);
    }
  }

  /** The items of a block are items of its run. */
  lemma {:induction false} BlockInRun(run: Run, b0: nat, b: nat, x: Item)
    requires run.Ok() && b0 <= b < |run.blocks| && x in run.blocks[b].Items(b)
    ensures x in ItemsFrom(run.blocks, b0)
    decreases b - b0
  {
    if b0 < b {
      BlockInRun(run, b0 + 1, b, x);
    }
  }

  /** An entry of a block apart from the other runs has an lba of its own. */
  lemma {:induction false} ApartDiffers(runs: seq<Run>, i: nat, j: nat, k: nat, r: nat, x: Item)
    requires forall n :: 0 <= n < |runs| ==> runs[n].Ok() && StrictlySorted(ItemsFrom(runs[n].blocks, 0))
    requires i < |runs| && j < |runs[i].blocks| && Apart(runs, i, j) && k < |runs[i].blocks[j].pairs|
    requires r < |runs| && r != i && x in ItemsFrom(runs[r].blocks, 0)
    ensures x.lba != runs[i].blocks[j].pairs[k].lba
  {
    var b := ItemInBlock(runs[r], 0, x);
    BlocksOrdered(runs[i], 0);
    InsideBlock(runs[i], j, k);
    assert !Overlap(Ranges(runs[r])[b], Ranges(runs[i])[j]);
  }

  /** An entry left behind in a whole block: no run of the merge had a copy to emit for its lba. */
  lemma {:induction false} StaleIsNotEmitted(job: Job, out: seq<Out>, p: Part<MovedBlock>, k: nat)
    requires job.Ok() && Merged(job.Flats(), job.Live(), out) && p.Whole? && PartOk(p, job) && k < |p.moved.block.pairs|
    requires var x := job.runs[p.moved.source].blocks[p.moved.index].Items(p.moved.index)[k];
        !job.Alive(p.moved.source, x)
    ensures p.moved.block.pairs[k].lba !in Lbas(out)
  {
    var run := job.runs[p.moved.source];
    var x := run.blocks[p.moved.index].Items(p.moved.index)[k];
    BlockInRun(run, 0, p.moved.index, x);
    if x.lba in Lbas(out) {
      var o :| o in out && o.item.lba == x.lba;
      assert Chosen(job.Flats(), job.Live(), o);
      if o.run == p.moved.source {
        SameLbaSameItem(ItemsFrom(run.blocks, 0), x, o.item);
      } else {
        ApartDiffers(job.runs, p.moved.source, p.moved.index, k, o.run, o.item);
      }
    }
  }

  lemma {:induction false} SameLbaSameItem(s: seq<Item>, x: Item, y: Item)
    requires StrictlySorted(s) && x in s && y in s && x.lba == y.lba
    ensures x == y
  {
    var i :| 0 <= i < |s| && s[i] == x;
    var j :| 0 <= j < |s| && s[j] == y;
    assert i == j;
  }

  /** Who owns an lba later: whoever did when the merge was over, or a run that is newer than the target. */
  ghost predicate OwnsLater(owner: Slot, now: Slot, infos: seq<ShortcutMaster.Info>, slot: Slot)
    requires slot < |infos|
  {
    now == owner || (now < |infos| && now != slot && ShortcutMaster.RecencyCmp(infos[now], infos[slot]) > 0)
  }

  /**
   * A later merge of the target run, after any links to newer runs: an entry of a block that was moved whole passes
   * both checks exactly when it was linked and the target run still owns its lba, although the target run is newer
   * than the run the block came from. An owner from before the merge has kept its level and recency.
   */
  lemma {:induction false} LaterCheckIff(job: Job, owners: seq<Slot>, parts: seq<Part<MovedBlock>>, slot: Slot,
                                         p: Part<MovedBlock>, k: nat, infos: seq<ShortcutMaster.Info>, now: Slot,
                                         later: Run, y: Item)
    requires job.Ok() && Merged(job.Flats(), job.Live(), AllEntries(parts))
    requires LinkedOwners(owners, job, AllEntries(parts), slot)
    requires p in parts && p.Whole? && PartOk(p, job) && k < |p.moved.block.pairs|
    requires slot < |infos| <= NOT_ASSIGNED && slot !in job.owners
    requires later.slot == slot && y.block < |later.blocks| && later.blocks[y.block] == p.moved.block
    requires y.lba == p.moved.block.pairs[k].lba && y.lba < |owners| && OwnsLater(owners[y.lba], now, infos, slot)
    requires now == owners[y.lba] && now != slot && now != NOT_ASSIGNED ==>
               now < |infos| && now < |job.infos|
               && infos[now].level == job.infos[now].level && infos[now].recency == job.infos[now].recency
    ensures now < |infos| || now == NOT_ASSIGNED
    ensures PassesCheck(now, infos, later, y) <==>
              now == slot
              && Out(p.moved.source, job.runs[p.moved.source].blocks[p.moved.index].Items(p.moved.index)[k]) in p.linked
  {
    var run := job.runs[p.moved.source];
    var items := run.blocks[p.moved.index].Items(p.moved.index);
    var x := items[k];
    BlockInRun(run, 0, p.moved.index, x);
    LiveOfExact(items, p.moved.source, job.Live());
    if job.Alive(p.moved.source, x) {
      PartInside(parts, p, Out(p.moved.source, x));
    } else {
      StaleIsNotEmitted(job, AllEntries(parts), p, k);
      assert job.owners[x.lba] in job.owners;
    }
  }

  /**
   * run_merge when a round has no blocks, with as many passes as one likes: nothing is handed over and every cursor is
   * still at its first entry, so its loop does not end. With one block to a segment, five runs are enough.
   */
  method Spin(runs: seq<Run>, owners: array<Slot>, infos: seq<ShortcutMaster.Info>, slot: Slot, bps: nat, passes: nat)
    returns (cs: array<Cursor>, parts: seq<Part<MovedBlock>>, n: nat)
    requires Mergeable(runs, owners[..], infos) && slot < |infos| && |runs| > 4 * bps
    modifies owners
    ensures n == passes && parts == [] && owners[..] == old(owners[..]) && AtStart(cs[..], runs)
  {
    ghost var job;
    cs, job := SetUp(runs, owners, infos, false);
    StepIsZeroIff(runs, bps, false);
    parts, n := EmptyRounds(cs, owners, infos, slot, Step(runs, bps, false), passes, job);
  }

  method EmptyRounds(cs: array<Cursor>, owners: array<Slot>, infos: seq<ShortcutMaster.Info>, slot: Slot, step: nat,
                     passes: nat, ghost job: Job)
    returns (parts: seq<Part<MovedBlock>>, n: nat)
    requires cs as object != owners as object && State(cs[..], job.Flats(), owners[..], job, []) && infos == job.infos
    requires LinkedOwners(owners[..], job, [], slot) && step == 0 && slot < |infos| && !AllDone(cs[..])
    modifies cs, owners
    ensures n == passes && parts == [] && owners[..] == old(owners[..]) && cs[..] == old(cs[..])
  {
    ghost var left, all := job.Flats(), [];
    var round, done := 0, false;
    parts, n := [], 0;
    while n < passes && !done
      invariant State(cs[..], left, owners[..], job, all) && LinkedOwners(owners[..], job, all, slot)
      invariant n <= passes && round == 0 && parts == [] && !done
      invariant cs[..] == old(cs[..]) && owners[..] == old(owners[..])
    {
      round := round + step;
      var more;
      more, done, left, all := EmptyPass(cs, owners, infos, slot, left, job, all);
      parts, n := parts + more, n + 1;
    }
  }

  /** A pass of a round without blocks. */
  method EmptyPass(cs: array<Cursor>, owners: array<Slot>, infos: seq<ShortcutMaster.Info>, slot: Slot,
                   ghost left: seq<seq<Item>>, ghost job: Job, ghost out: seq<Out>)
    returns (parts: seq<Part<MovedBlock>>, done: bool, ghost left': seq<seq<Item>>, ghost out': seq<Out>)
    requires cs as object != owners as object && State(cs[..], left, owners[..], job, out) && infos == job.infos
    requires LinkedOwners(owners[..], job, out, slot) && slot < |infos|
    modifies cs, owners
    ensures State(cs[..], left', owners[..], job, out') && LinkedOwners(owners[..], job, out', slot)
    ensures parts == [] && cs[..] == old(cs[..]) && owners[..] == old(owners[..]) && (done <==> AllDone(cs[..]))
  {
    parts, left', out' := Pass(cs, owners, infos, slot, 0, true, left, job, out);
    done := CheckAllDone(cs);
  }

  /** done_flag of run_merge */
  method CheckAllDone(cs: array<Cursor>) returns (done: bool)
    ensures done <==> AllDone(cs[..])
  {
    for i := 0 to cs.Length
      invariant forall j :: 0 <= j < i ==> cs[j].done
    {
      if !cs[i].done {
        return false;
      }
    }
    return true;
  }
}
