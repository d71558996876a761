/**
 * Filling a run: the page buffer, the write pointers, block allocation, padding and summary writes
 * (algorithm/layeredLSM/run_insert.cpp, sorted_table.cpp, page_aligner.cpp). Blocks and map pages come from the block
 * manager, which hands out pages that were not written before.
 */
module SortedTable {
  import opened Layout
  import opened SummarySearch
  import opened TableSpec

  /** L2PGAP, _PPB, MAX_SECTOR_IN_BLOCK and max_STE_num. */
  datatype Geometry = Geometry(gap: nat, ppb: nat, m: nat, maxSte: nat)
  {
    ghost predicate Ok() {
      gap > 0 && ppb > 0 && m == Base(ppb, gap) && m > 0
    }
  }

  /**
   * st_array: the closed blocks (entries below now_STE_num of pba_array and sp_meta), the entry at now_STE_num once
   * something was written to it, the three write pointers, summary_write_alert, and mp_manager.
   */
  datatype Table = Table(blocks: seq<Ste>, cur: Ste, begun: bool, inblock: nat, global: nat, ghostPtr: nat, alert: bool,
                         mapPage: nat, pending: seq<seq<Pair>>)

  /** Data pages, map pages and valid bits. */
  datatype Device = Device(flash: Flash, maps: Maps, valid: set<Slot>)

  const EMPTY: Ste := Ste(0, 0, [], NO_LBA, 0, true, false, Slot(0, 0))

  // ----- what holds while a run is filled

  /** Everything in closed blocks is readable, and their summaries are kept. */
  ghost predicate ClosedOk(g: Geometry, t: Table, d: Device, log: seq<Datum>) {
    && AllWhole(t.blocks, log, d.flash, g.gap, g.m) && AllNoted(t.blocks, d.maps, t.mapPage, t.pending, g.gap)
    && |t.pending| < g.gap && (t.pending != [] ==> t.mapPage !in d.maps)
    && Chained(t.blocks, if t.begun then t.cur.start else t.global) && t.global <= |log|
  }

  ghost predicate Unwritten(flash: Flash, from: nat, to: nat) {
    forall q :: from <= q < to ==> q !in flash
  }

  /** The open block: its first pages are readable, the others were never written. */
  ghost predicate OpenOk(g: Geometry, t: Table, d: Device, log: seq<Datum>, page: nat, i: nat) {
    t.begun ==>
      && Whole(t.cur, Base(page, g.gap), log, d.flash, g.gap, g.m) && |t.cur.pairs| == Base(page, g.gap) + i
      && t.global == t.cur.start + |t.cur.pairs| && Unwritten(d.flash, t.cur.pba + page, t.cur.pba + g.ppb)
  }

  /** Valid bits are set on pieces of written pages and on the first i pieces of the page being filled. */
  ghost predicate BitsOk(valid: set<Slot>, flash: Flash, gap: nat, begun: bool, page: nat, i: nat) {
    gap > 0 && forall x :: x in valid ==> x.page in flash || (begun && x.page == page && x.idx < i)
  }

  /** The page buffer is the end of the log, and its first i entries have been given addresses. */
  ghost predicate BufferOk(g: Geometry, t: Table, pp: seq<Datum>, log: seq<Datum>, i: nat) {
    && i <= |pp| <= g.gap && i <= t.global && t.global + (|pp| - i) == |log| && pp == log[|log| - |pp|..]
    && forall k :: 0 <= k < |pp| ==> pp[k].lba < NO_LBA
  }

  ghost predicate PointersOk(g: Geometry, t: Table, page: nat, i: nat) {
    && page < g.ppb && (t.begun <==> page > 0 || i > 0)
    && t.inblock == t.ghostPtr == Base(page, g.gap) + i && (t.alert <==> t.inblock == g.m)
  }

  ghost predicate Filling(g: Geometry, t: Table, d: Device, pp: seq<Datum>, log: seq<Datum>, page: nat, i: nat) {
    && g.Ok() && ClosedOk(g, t, d, log) && OpenOk(g, t, d, log, page, i) && BufferOk(g, t, pp, log, i)
    && PointersOk(g, t, page, i) && BitsOk(d.valid, d.flash, g.gap, t.begun, t.cur.pba + page, i)
  }

  // ----- one entry of a flush

  lemma {:induction false} FullIff(x: nat, m: nat)
    requires 0 < x <= m
    ensures x % m == 0 <==> x == m
  {
    Split(m, x, if x == m then 1 else 0);
  }

  /** Room for one more entry: a block is full only after the last entry of its last page. */
  lemma {:induction false} Room(page: nat, ppb: nat, gap: nat, i: nat, m: nat)
    requires page < ppb && i < gap && m == Base(ppb, gap) && m > 0
    ensures Base(page, gap) + i < m
    ensures (Base(page, gap) + i) % m == 0 <==> page == 0 && i == 0
    ensures (Base(page, gap) + i + 1) % m == 0 <==> Base(page, gap) + i + 1 == m
  {
    BaseOrder(page, ppb, gap);
    FullIff(Base(page, gap) + i + 1, m);
    if Base(page, gap) + i > 0 {
      FullIff(Base(page, gap) + i, m);
    }
  }

  /** st_array_write_translation, its effect: a block is taken for the first entry. */
  function Begin(g: Geometry, t: Table, pick: nat): Table
    requires g.m > 0
  {
    if t.inblock % g.m == 0 then t.(cur := EMPTY.(pba := pick, start := t.global), begun := true) else t
  }

  /** __st_array_insert_pair, its effect. */
  function Push(g: Geometry, t: Table, p: Pair): Table
    requires g.m > 0
  {
    t.(cur := Add(t.cur, p), global := t.global + 1, inblock := t.inblock + 1, ghostPtr := t.ghostPtr + 1,
       alert := t.alert || (t.ghostPtr + 1) % g.m == 0)
  }

  lemma {:induction false} BeginStep(g: Geometry, t: Table, d: Device, pp: seq<Datum>, log: seq<Datum>, page: nat,
                                     i: nat, pick: nat)
    requires Filling(g, t, d, pp, log, page, i) && i < |pp|
    requires !t.begun ==> Unwritten(d.flash, pick, pick + g.ppb)
    ensures var t' := Begin(g, t, pick);
            && t'.begun && ClosedOk(g, t', d, log) && OpenOk(g, t', d, log, page, i)
            && BitsOk(d.valid, d.flash, g.gap, true, t'.cur.pba + page, i)
            && (t.begun ==> t' == t)
            && (!t.begun ==> t' == t.(cur := EMPTY.(pba := pick, start := t.global), begun := true))
            && !t.alert && t.inblock < g.m
  {
    Room(page, g.ppb, g.gap, i, g.m);
  }

  /** A piece of the page being filled is given its address: it is a new one, so its bit was not set. */
  lemma {:induction false} BitStep(valid: set<Slot>, flash: Flash, gap: nat, page: nat, i: nat)
    requires BitsOk(valid, flash, gap, true, page, i) && page !in flash
    ensures Slot(page, i) !in valid && BitsOk(valid + {Slot(page, i)}, flash, gap, true, page, i + 1)
  {
  }

  lemma {:induction false} PushStep(g: Geometry, t: Table, d: Device, log: seq<Datum>, page: nat, i: nat, p: Pair)
    requires g.Ok() && t.begun && ClosedOk(g, t, d, log) && OpenOk(g, t, d, log, page, i) && t.global < |log|
    requires t.inblock == t.ghostPtr == Base(page, g.gap) + i && t.inblock < g.m
    requires p == Pair(log[t.global].lba, ReadTranslation(t.cur, t.inblock, g.gap)) && p.lba < NO_LBA
    ensures ClosedOk(g, Push(g, t, p), d, log) && OpenOk(g, Push(g, t, p), d, log, page, i + 1)
  {
    OpenPlusOne(t.cur, p, Base(page, g.gap), log, d.flash, g.gap, g.m);
  }

  /** The pointers after one more entry. */
  lemma {:induction false} PointerStep(g: Geometry, t: Table, page: nat, i: nat, pick: nat, p: Pair)
    requires g.Ok() && PointersOk(g, t, page, i) && i < g.gap
    ensures PointersOk(g, Push(g, Begin(g, t, pick), p), page, i + 1)
  {
    Room(page, g.ppb, g.gap, i, g.m);
  }

  /** One entry of a flush: address, valid bit, summary and pointers. */
  lemma {:induction false} EntryStep(g: Geometry, t: Table, d: Device, pp: seq<Datum>, log: seq<Datum>, page: nat,
                                     i: nat, pick: nat,
                  t1: Table, psa: nat, t2: Table, d2: Device)
    requires Filling(g, t, d, pp, log, page, i) && i < |pp|
    requires !t.begun ==> Unwritten(d.flash, pick, pick + g.ppb)
    requires t1 == Begin(g, t, pick) && psa == ReadTranslation(t1.cur, t.inblock, g.gap)
    requires t2 == Push(g, t1, Pair(pp[i].lba, psa)) && d2 == d.(valid := d.valid + {Slot(t1.cur.pba + page, i)})
    ensures !t.alert && Slot(t1.cur.pba + page, i) !in d.valid && psa == Base(t1.cur.pba, g.gap) + Base(page, g.gap) + i
    ensures Filling(g, t2, d2, pp, log, page, i + 1) && t2.begun && t2.cur.pba == t1.cur.pba
  {
    BeginStep(g, t, d, pp, log, page, i, pick);
    BitStep(d.valid, d.flash, g.gap, t1.cur.pba + page, i);
    assert pp[i] == log[t.global];
    PushStep(g, t1, d, log, page, i, Pair(pp[i].lba, psa));
    PointerStep(g, t, page, i, pick, Pair(pp[i].lba, psa));
  }

  // ----- the end of a flush

  /** Everything inserted is readable. */
  ghost predicate Flushed(g: Geometry, t: Table, d: Device, log: seq<Datum>) {
    && g.Ok() && ClosedOk(g, t, d, log) && t.begun && Whole(t.cur, |t.cur.pairs|, log, d.flash, g.gap, g.m)
    && t.global == t.cur.start + |t.cur.pairs| == |log|
    && BitsOk(d.valid, d.flash, g.gap, false, 0, 0)
  }

  lemma {:induction false} BitsProgram(valid: set<Slot>, flash: Flash, flash': Flash, gap: nat, page: nat, i: nat,
                                       pp: seq<Datum>)
    requires BitsOk(valid, flash, gap, true, page, i) && flash' == flash[page := pp]
    ensures BitsOk(valid, flash', gap, false, 0, 0)
  {
  }

  lemma {:induction false} ClosedProgram(g: Geometry, t: Table, d: Device, d2: Device, log: seq<Datum>)
    requires ClosedOk(g, t, d, log) && MoreWritten(d.flash, d2.flash) && d2.maps == d.maps
    ensures ClosedOk(g, t, d2, log)
  {
    AllWholeKept(t.blocks, log, d.flash, d2.flash, g.gap, g.m);
  }

  /** The page is programmed: the open block. */
  lemma {:induction false} ProgramOpen(g: Geometry, t: Table, flash: Flash, flash': Flash, pp: seq<Datum>,
                                       log: seq<Datum>, page: nat)
    requires Whole(t.cur, Base(page, g.gap), log, flash, g.gap, g.m) && |t.cur.pairs| == Base(page, g.gap) + |pp|
    requires t.global == t.cur.start + |t.cur.pairs| == |log| && |pp| <= g.gap && |pp| <= |log|
    requires pp == log[|log| - |pp|..]
    requires Unwritten(flash, t.cur.pba + page, t.cur.pba + g.ppb) && page < g.ppb
    requires flash' == flash[t.cur.pba + page := pp]
    ensures Whole(t.cur, |t.cur.pairs|, log, flash', g.gap, g.m)
    ensures Unwritten(flash', t.cur.pba + page + 1, t.cur.pba + g.ppb) && MoreWritten(flash, flash')
  {
    assert t.cur.pba + page !in flash;
    assert pp == log[t.cur.start + Base(page, g.gap)..t.cur.start + |t.cur.pairs|];
    OpenPage(t.cur, page, pp, log, flash, flash', g.gap, g.m);
  }

  /** The page is programmed: everything inserted is readable. */
  lemma {:induction false} ProgramStep(g: Geometry, t: Table, d: Device, pp: seq<Datum>, log: seq<Datum>, page: nat,
                                       d2: Device)
    requires Filling(g, t, d, pp, log, page, |pp|) && t.begun
    requires d2.flash == d.flash[t.cur.pba + page := pp] && d2.maps == d.maps && d2.valid == d.valid
    ensures Flushed(g, t, d2, log) && Unwritten(d2.flash, t.cur.pba + page + 1, t.cur.pba + g.ppb)
    ensures MoreWritten(d.flash, d2.flash)
  {
    ProgramOpen(g, t, d.flash, d2.flash, pp, log, page);
    ClosedProgram(g, t, d, d2, log);
    BitsProgram(d2.valid, d.flash, d2.flash, g.gap, t.cur.pba + page, |pp|, pp);
  }

  /** A full page inside a block: the next page follows. */
  lemma {:induction false} NextPage(g: Geometry, t: Table, d: Device, log: seq<Datum>, page: nat)
    requires Flushed(g, t, d, log) && page + 1 < g.ppb && |t.cur.pairs| == Base(page + 1, g.gap)
    requires t.inblock == t.ghostPtr == |t.cur.pairs| && !t.alert && t.inblock != g.m
    requires Unwritten(d.flash, t.cur.pba + page + 1, t.cur.pba + g.ppb)
    ensures Filling(g, t, d, [], log, page + 1, 0)
  {
  }

  // ----- closing a block

  /** st_array_summary_translation, st_array_get_summary_param and st_array_finish_now_PBA, their effect. */
  function Close(g: Geometry, t: Table, mapPick: nat, padded: bool): Table {
    var mapPage := if t.pending == [] then mapPick else t.mapPage;
    var blk := t.cur.(piece := Slot(mapPage, |t.pending|), padded := padded);
    Table(t.blocks + [blk], EMPTY, false, 0, t.global, 0, false, mapPage, t.pending + [blk.Summary()])
  }

  /** st_swp_write: the map page is programmed when it is full or when forced. */
  function SwpWrite(g: Geometry, t: Table, d: Device, force: bool): (Table, Device) {
    if force || |t.pending| == g.gap then
      (t.(pending := []), d.(maps := d.maps[t.mapPage := t.pending]))
    else (t, d)
  }

  /** The blocks with the closed one, and the map page with its summary. */
  lemma {:induction false} CloseBlocks(g: Geometry, t: Table, d: Device, log: seq<Datum>, mapPick: nat, padded: bool)
    requires Flushed(g, t, d, log) && (t.pending == [] ==> mapPick !in d.maps)
    ensures var t' := Close(g, t, mapPick, padded);
            && AllWhole(t'.blocks, log, d.flash, g.gap, g.m) && Chained(t'.blocks, t'.global)
            && AllNoted(t'.blocks, d.maps, t'.mapPage, t'.pending, g.gap)
            && AllNoted(t'.blocks, d.maps[t'.mapPage := t'.pending], t'.mapPage, [], g.gap)
            && |t'.pending| <= g.gap && t'.mapPage !in d.maps
  {
    var t' := Close(g, t, mapPick, padded);
    var blk := t'.blocks[|t.blocks|];
    CloseWhole(t.cur, blk.piece, padded, log, d.flash, g.gap, g.m);
    ChainAdd(t.blocks, t.cur.start, blk);
    NoteKept(t.blocks, d.maps, t.mapPage, t.pending, g.gap, t'.mapPage, t'.pending, t'.mapPage);
    NoteNew(blk, d.maps, t'.mapPage, t'.pending, g.gap, t'.mapPage);
    AllWholeAdd(t.blocks, blk, log, d.flash, g.gap, g.m);
    AllNotedAdd(t.blocks, blk, d.maps, t'.mapPage, t'.pending, g.gap);
    AllNotedAdd(t.blocks, blk, d.maps[t'.mapPage := t'.pending], t'.mapPage, [], g.gap);
  }

  lemma {:induction false} CloseStep(g: Geometry, t: Table, d: Device, log: seq<Datum>, mapPick: nat, padded: bool,
                                     force: bool)
    requires Flushed(g, t, d, log) && (t.pending == [] ==> mapPick !in d.maps)
    ensures var r := SwpWrite(g, Close(g, t, mapPick, padded), d, force);
            && Filling(g, r.0, r.1, [], log, 0, 0) && (force ==> r.0.pending == [])
            && !r.0.alert && !r.0.begun && |r.0.blocks| == |t.blocks| + 1 && t.blocks <= r.0.blocks
  {
    CloseBlocks(g, t, d, log, mapPick, padded);
    var t' := Close(g, t, mapPick, padded);
    var r := SwpWrite(g, t', d, force);
    assert r.0.blocks == t'.blocks && r.1.flash == d.flash && r.1.valid == d.valid;
    assert ClosedOk(g, r.0, r.1, log);
  }

  /** Between flushes everything in the open block is readable. */
  lemma {:induction false} IdleFlushed(g: Geometry, t: Table, d: Device, log: seq<Datum>, page: nat)
    requires Filling(g, t, d, [], log, page, 0) && t.begun
    ensures Flushed(g, t, d, log)
  {
    BitsIdle(d.valid, d.flash, g.gap, t.cur.pba + page);
  }

  lemma {:induction false} BitsIdle(valid: set<Slot>, flash: Flash, gap: nat, page: nat)
    requires BitsOk(valid, flash, gap, true, page, 0)
    ensures BitsOk(valid, flash, gap, false, 0, 0)
  {
  }

  /** pp_insert_value: one more entry in the log and in the page buffer. */
  lemma {:induction false} BufferStep(g: Geometry, t: Table, d: Device, pp: seq<Datum>, log: seq<Datum>, page: nat,
                                      x: Datum)
    requires Filling(g, t, d, pp, log, page, 0) && |pp| < g.gap && x.lba < NO_LBA
    ensures Filling(g, t, d, pp + [x], log + [x], page, 0)
  {
    AllWholeLonger(t.blocks, log, x, d.flash, g.gap, g.m);
    if t.begun {
      WholeLonger(t.cur, Base(page, g.gap), log, x, d.flash, g.gap, g.m);
    }
  }

  /** Page and place of a piece. */
  method SlotOf(psa: nat, gap: nat, ghost pba: nat, ghost page: nat, ghost i: nat) returns (slot: Slot)
    requires i < gap && psa == Base(pba, gap) + Base(page, gap) + i
    ensures slot == Slot(pba + page, i) == Slot(psa / gap, psa % gap)
  {
    PieceOf(pba, page, i, gap);
    return Slot(psa / gap, psa % gap);
  }

  /** st_array_write_translation, validate_piece_ppa and st_array_insert_pair for one buffered entry. */
  method Enter(g: Geometry, t: Table, d: Device, pp: seq<Datum>, i: nat, pick: nat, ghost log: seq<Datum>,
               ghost page: nat)
    returns (psa: nat, t': Table, d': Device)
    requires Filling(g, t, d, pp, log, page, i) && i < |pp| && (!t.begun ==> Unwritten(d.flash, pick, pick + g.ppb))
    requires |t.blocks| < g.maxSte
    ensures Filling(g, t', d', pp, log, page, i + 1) && t'.begun && d'.flash == d.flash && d'.maps == d.maps
    ensures t'.blocks == t.blocks && t'.pending == t.pending && t'.mapPage == t.mapPage
    ensures t'.cur.pba == (if t.begun then t.cur.pba else pick)
    ensures t'.cur.start == (if t.begun then t.cur.start else t.global)
    ensures psa == Base(t'.cur.pba, g.gap) + Base(page, g.gap) + i
    ensures |t'.cur.pairs| > 0 && t'.cur.pairs[|t'.cur.pairs| - 1] == Pair(pp[i].lba, psa)
  {
    var t1 := Begin(g, t, pick);
    BeginStep(g, t, d, pp, log, page, i, pick);
    psa := Base(t1.cur.pba, g.gap) + t1.inblock;
    var slot := SlotOf(psa, g.gap, t1.cur.pba, page, i);
    t' := Push(g, t1, Pair(pp[i].lba, psa));
    d' := d.(valid := d.valid + {slot});
    EntryStep(g, t, d, pp, log, page, i, pick, t1, psa, t', d');
    assert !t.alert && slot !in d.valid;
  }

  /** The loop of __run_write_buffer: all buffered entries get pieces of the same page, in order. */
  method EnterAll(g: Geometry, t: Table, d: Device, pp: seq<Datum>, pick: nat, ghost log: seq<Datum>, ghost page: nat)
    returns (target: nat, t': Table, d': Device)
    requires Filling(g, t, d, pp, log, page, 0) && pp != [] && (!t.begun ==> Unwritten(d.flash, pick, pick + g.ppb))
    requires |t.blocks| < g.maxSte
    ensures Filling(g, t', d', pp, log, page, |pp|) && t'.begun && target == t'.cur.pba + page
    ensures d'.flash == d.flash && t'.blocks == t.blocks && d'.maps == d.maps && t'.pending == t.pending
    ensures t'.mapPage == t.mapPage
    ensures t'.cur.pba == (if t.begun then t.cur.pba else pick)
    ensures t'.cur.start == (if t.begun then t.cur.start else t.global)
  {
    var psa;
    psa, t', d' := Enter(g, t, d, pp, 0, pick, log, page);
    var slot := SlotOf(psa, g.gap, t'.cur.pba, page, 0);
    target := slot.page;
    var i := 1;
    while i < |pp|
      invariant 1 <= i <= |pp| && Filling(g, t', d', pp, log, page, i) && t'.begun && target == t'.cur.pba + page
      invariant d'.flash == d.flash && t'.blocks == t.blocks && d'.maps == d.maps && t'.pending == t.pending
      invariant t'.mapPage == t.mapPage
      invariant t'.cur.pba == (if t.begun then t.cur.pba else pick)
      invariant t'.cur.start == (if t.begun then t.cur.start else t.global)
    {
      psa, t', d' := Enter(g, t', d', pp, i, pick, log, page);
      i := i + 1;
    }
  }

  /** The buffer went to page ppa, never written before, which is the next one of the open block. */
  ghost predicate PageFlushed(g: Geometry, t: Table, d: Device, pp: seq<Datum>, log: seq<Datum>, page: nat, pick: nat,
                              t': Table, d': Device,
                              ppa: nat)
  {
    && Flushed(g, t', d', log) && Unwritten(d'.flash, t'.cur.pba + page + 1, t'.cur.pba + g.ppb) && page < g.ppb
    && t'.inblock == t'.ghostPtr == |t'.cur.pairs| == Base(page, g.gap) + |pp| && (t'.alert <==> t'.inblock == g.m)
    && t'.blocks == t.blocks && d'.maps == d.maps && t'.pending == t.pending && t'.mapPage == t.mapPage
    && t'.cur.pba == (if t.begun then t.cur.pba else pick)
    && t'.cur.start == (if t.begun then t.cur.start else t.global)
    && ppa == t'.cur.pba + page && ppa !in d.flash && d'.flash == d.flash[ppa := pp]
  }

  /** The addresses of a flush and its page. */
  method FlushPage(g: Geometry, t: Table, d: Device, pp: seq<Datum>, pick: nat, ghost log: seq<Datum>, ghost page: nat)
    returns (t': Table, d': Device, ghost ppa: nat)
    requires Filling(g, t, d, pp, log, page, 0) && pp != [] && (!t.begun ==> Unwritten(d.flash, pick, pick + g.ppb))
    requires |t.blocks| < g.maxSte
    ensures PageFlushed(g, t, d, pp, log, page, pick, t', d', ppa)
  {
    var target;
    target, t', d' := EnterAll(g, t, d, pp, pick, log, page);
    ghost var d1 := d';
    d' := d'.(flash := d'.flash[target := pp]);
    ppa := target;
    ProgramStep(g, t', d1, pp, log, page, d');
  }

  // ----- the block manager

  /** The counters behind L2PBm_pick_empty_PBA and L2PBm_get_map_ppa: pages are handed out once, in order. */
  class Allocator {
    var next: nat
    var nextMap: nat

    constructor ()
      ensures next == 0 && nextMap == 0
    {
      next, nextMap := 0, 0;
    }

    method PickBlock(ppb: nat) returns (pba: nat)
      modifies this`next
      ensures pba == old(next) && next == pba + ppb
    {
      pba := next;
      next := next + ppb;
    }

    method PickMap() returns (page: nat)
      modifies this`nextMap
      ensures page == old(nextMap) && nextMap == page + 1
    {
      page := nextMap;
      nextMap := nextMap + 1;
    }
  }

  /** Whatever was written or is being filled was handed out before. */
  ghost predicate HandedOut(g: Geometry, t: Table, d: Device, next: nat, nextMap: nat) {
    && (forall p :: p in d.flash ==> p < next) && (t.begun ==> t.cur.pba + g.ppb <= next)
    && (forall p :: p in d.maps ==> p < nextMap) && (t.pending != [] ==> t.mapPage < nextMap)
  }

  /** Programming a page of the open block. */
  lemma {:induction false} StillHandedOut(g: Geometry, t: Table, d: Device, t': Table, d': Device, page: nat,
                                          pp: seq<Datum>,
                                          next: nat, nextMap: nat)
    requires HandedOut(g, t, d, next, nextMap) && page < g.ppb
    requires t'.begun && ((t.begun && t'.cur.pba == t.cur.pba) || t'.cur.pba + g.ppb <= next)
    requires t'.pending == t.pending && t'.mapPage == t.mapPage && d'.maps == d.maps
    requires d'.flash == d.flash[t'.cur.pba + page := pp]
    ensures HandedOut(g, t', d', next, nextMap)
  {
  }

  // ----- how the table grows

  /** The closed block is the open one. */
  ghost predicate Closed(cur: Ste, blk: Ste) {
    blk.pba == cur.pba && blk.start == cur.start && blk.pairs == cur.pairs
  }

  /** Blocks stay where they are, and the open one is still open or the next closed one. */
  ghost predicate Extends(t: Table, t': Table) {
    && t.blocks <= t'.blocks
    && (t.begun ==> || (t'.begun && |t'.blocks| == |t.blocks| && t'.cur.pba == t.cur.pba && t'.cur.start == t.cur.start)
                    || (|t'.blocks| > |t.blocks| && t'.blocks[|t.blocks|].pba == t.cur.pba &&
                        t'.blocks[|t.blocks|].start == t.cur.start))
  }

  /** No block was closed before it was full. */
  ghost predicate Aligned(t: Table, m: nat) {
    && (forall b :: 0 <= b < |t.blocks| ==> t.blocks[b].start == Base(b, m))
    && (t.begun ==> t.cur.start == Base(|t.blocks|, m)) && (!t.begun ==> t.global == Base(|t.blocks|, m))
  }

  /** A flush in between: entries from..|log| are on page ppa of the block that was open. */
  ghost predicate FlushedTo(t: Table, flash: Flash, from: nat, n: nat, t': Table, ppa: nat, gap: nat) {
    && ppa !in flash && t'.global == from + n && |t'.blocks| <= |t.blocks| + 1
    && (|t'.blocks| > |t.blocks| ==> !t'.begun)
    && var b := |t.blocks|;
       var blk := if |t'.blocks| > b then t'.blocks[b] else t'.cur;
       (|t'.blocks| > b || t'.begun) && blk.start <= from && Base(blk.pba, gap) + (from - blk.start) == Base(ppa, gap)
  }

  /** One flush of a full buffer. */
  ghost predicate Grown(g: Geometry, t: Table, flash: Flash, t': Table, flash': Flash, ppa: nat) {
    && Extends(t, t') && MoreWritten(flash, flash') && FlushedTo(t, flash, t.global, g.gap, t', ppa, g.gap)
    && (Aligned(t, g.m) ==> Aligned(t', g.m))
  }

  // ----- the run

  /** What a caller asks for. */
  datatype Op = Put(x: Datum) | Skip

  /** The blocks of a run by count: closed ones, and entries in the open one, buffered ones included. */
  datatype Stand = Stand(closed: int, open: int)
  {
    /** A block is closed by the entry that fills it, and by padding unless it is empty. */
    function After(op: Op, m: nat): Stand {
      if op.Put? then (if open + 1 == m then Stand(closed + 1, 0) else Stand(closed, open + 1))
      else if open > 0 then Stand(closed + 1, 0)
      else this
    }
  }

  function StandOf(ops: seq<Op>, m: nat): Stand {
    if ops == [] then Stand(0, 0) else StandOf(ops[..|ops| - 1], m).After(ops[|ops| - 1], m)
  }

  /** The open block has its written pages and the buffer; there is room for the page being filled. */
  lemma {:induction false} OpenIs(g: Geometry, t: Table, d: Device, pp: seq<Datum>, log: seq<Datum>, page: nat)
    requires Filling(g, t, d, pp, log, page, 0)
    ensures |log| - (if t.begun then t.cur.start else t.global) == Base(page, g.gap) + |pp|
    ensures Base(page, g.gap) + g.gap <= g.m && (t.begun <==> Base(page, g.gap) > 0)
  {
    BaseOrder(page, g.ppb, g.gap);
    BaseGrows(page, g.gap);
  }

  class Run {
    const g: Geometry
    var t: Table
    var d: Device
    /** pp_buffer */
    var pp: seq<Datum>
    /** Every entry in the order it was inserted. */
    ghost var log: seq<Datum>
    /** Pages of the open block that were written. */
    ghost var page: nat

    ghost predicate Valid()
      reads this
    {
      Filling(g, t, d, pp, log, page, 0) && !t.alert && |pp| < g.gap
    }

    /** The run uses pages of this block manager only. */
    ghost predicate Uses(bm: Allocator)
      reads this, bm
    {
      HandedOut(g, t, d, bm.next, bm.nextMap)
    }

    /** How many blocks are closed, and how many entries came after them. */
    ghost function Standing(): Stand
      reads this
    {
      Stand(|t.blocks|, |log| - if t.begun then t.cur.start else t.global)
    }

    /** st_array_init and pp_init */
    constructor (gap: nat, ppb: nat, maxSte: nat)
      requires gap > 0 && ppb > 0
      ensures Valid() && log == [] && t.blocks == [] && g == Geometry(gap, ppb, Base(ppb, gap), maxSte)
      ensures d == Device(map[], map[], {})
      ensures !t.begun && t.pending == []
    {
      g := Geometry(gap, ppb, Base(ppb, gap), maxSte);
      t := Table([], EMPTY, false, 0, 0, 0, false, 0, []);
      d := Device(map[], map[], {});
      pp, log, page := [], [], 0;
    }

    /**
     * __run_write_buffer: the buffered entries get the pieces of one page, in order, and the page is programmed. The
     * double-insert abort and the summary-order aborts are not reached.
     */
    method WriteBuffer(bm: Allocator) returns (ghost ppa: nat, ghost pick0: nat)
      requires Filling(g, t, d, pp, log, page, 0) && pp != [] && Uses(bm) && |t.blocks| < g.maxSte
      modifies this`t, this`d, bm`next
      ensures PageFlushed(g, old(t), old(d), pp, log, page, pick0, t, d, ppa) && Uses(bm)
    {
      var pick := PickIfNeeded(bm);
      pick0 := pick;
      ghost var t0, d0 := t, d;
      t, d, ppa := FlushPage(g, t, d, pp, pick, log, page);
      StillHandedOut(g, t0, d0, t, d, page, pp, bm.next, bm.nextMap);
    }

    /** The block that st_array_write_translation takes for the first entry of a block. */
    method PickIfNeeded(bm: Allocator) returns (pick: nat)
      requires Filling(g, t, d, pp, log, page, 0) && pp != [] && Uses(bm)
      modifies bm`next
      ensures Uses(bm) && (!t.begun ==> Unwritten(d.flash, pick, pick + g.ppb) && pick + g.ppb <= bm.next)
    {
      Room(page, g.ppb, g.gap, 0, g.m);
      pick := 0;
      if t.inblock % g.m == 0 {
        pick := bm.PickBlock(g.ppb);
      }
    }

    /** __run_write_meta of a block with entries. */
    method WriteMeta(bm: Allocator, padded: bool, force: bool)
      requires Flushed(g, t, d, log) && (t.alert || force) && Uses(bm)
      modifies this, bm`nextMap
      ensures Valid() && log == old(log) && pp == [] && !t.begun && Uses(bm)
      ensures |t.blocks| == |old(t.blocks)| + 1 && old(t.blocks) <= t.blocks
      ensures Closed(old(t.cur), t.blocks[|old(t.blocks)|]) && t.global == old(t.global) && d.flash == old(d.flash)
      ensures force ==> t.pending == []
    {
      var mapPick := t.mapPage;
      if t.pending == [] {
        mapPick := bm.PickMap();
      }
      CloseStep(g, t, d, log, mapPick, padded, force);
      var r := SwpWrite(g, Close(g, t, mapPick, padded), d, force);
      t, d := r.0, r.1;
      pp, page := [], 0;
    }

    /** run_insert of a normal run */
    method Insert(x: Datum, bm: Allocator) returns (ghost ppa: nat)
      requires Valid() && Uses(bm) && x.lba < NO_LBA && |t.blocks| < g.maxSte
      modifies this, bm
      ensures Valid() && Uses(bm) && log == old(log) + [x]
      ensures |old(pp)| + 1 < g.gap ==> pp == old(pp) + [x] && t == old(t) && d == old(d)
      ensures |old(pp)| + 1 == g.gap ==> pp == [] && Grown(g, old(t), old(d.flash), t, d.flash, ppa)
      ensures Standing() == old(Standing()).After(Put(x), g.m)
    {
      ppa := 0;
      OpenIs(g, t, d, pp, log, page);
      BufferStep(g, t, d, pp, log, page, x);
      pp := pp + [x];
      log := log + [x];
      if |pp| == g.gap {
        ppa := Flush(bm);
      }
    }

    /** A full page buffer is flushed, and a full block closed. */
    method Flush(bm: Allocator) returns (ghost ppa: nat)
      requires Filling(g, t, d, pp, log, page, 0) && |pp| == g.gap && |t.blocks| < g.maxSte && Uses(bm)
      modifies this, bm
      ensures Valid() && Uses(bm) && log == old(log) && pp == []
      ensures Grown(g, old(t), old(d.flash), t, d.flash, ppa)
      ensures var n := Base(old(page), g.gap) + g.gap;
              Standing() == if n == g.m then Stand(|old(t.blocks)| + 1, 0) else Stand(|old(t.blocks)|, n)
    {
      ghost var t0, d0, pick := t, d, 0;
      ppa, pick := WriteBuffer(bm);
      FlushGrows(g, t0, d0, pp, log, page, pick, t, d, ppa);
      pp := [];
      FinishPage(bm, t0, d0.flash, ppa);
    }

    /** A written page is the last one of its block, which is closed then, or the next one follows. */
    method FinishPage(bm: Allocator, ghost t0: Table, ghost flash0: Flash, ghost ppa: nat)
      requires Flushed(g, t, d, log) && Uses(bm) && pp == [] && page < g.ppb
      requires Grown(g, t0, flash0, t, d.flash, ppa) && |t.blocks| == |t0.blocks|
      requires t.inblock == t.ghostPtr == |t.cur.pairs| == Base(page, g.gap) + g.gap && (t.alert <==> t.inblock == g.m)
      requires Unwritten(d.flash, t.cur.pba + page + 1, t.cur.pba + g.ppb)
      modifies this, bm
      ensures Valid() && Uses(bm) && log == old(log) && pp == []
      ensures Grown(g, t0, flash0, t, d.flash, ppa)
      ensures var n := Base(old(page), g.gap) + g.gap;
              Standing() == if n == g.m then Stand(|t0.blocks| + 1, 0) else Stand(|t0.blocks|, n)
    {
      ghost var t1 := t;
      if t.alert {
        WriteMeta(bm, false, false);
        CloseGrows(g, t0, flash0, t1, d.flash, t, ppa);
      } else {
        LastPage(g, t, page);
        NextPage(g, t, d, log, page);
        page := page + 1;
        OpenIs(g, t, d, pp, log, page);
      }
    }

    /** run_padding_current_block: whatever was inserted is in closed blocks afterwards. */
    method Pad(bm: Allocator)
      requires Valid() && Uses(bm) && |t.blocks| < g.maxSte
      modifies this, bm
      ensures Valid() && Uses(bm) && log == old(log) && pp == [] && !t.begun && t.global == |log|
      ensures Standing() == old(Standing()).After(Skip, g.m)
    {
      OpenIs(g, t, d, pp, log, page);
      if pp != [] {
        ghost var _, _ := WriteBuffer(bm);
        pp := [];
      } else if !t.begun {
        return;
      } else {
        IdleFlushed(g, t, d, log, page);
      }
      t := t.(alert := true);
      WriteMeta(bm, true, false);
    }

    /** run_insert_done: all entries and all summaries are on flash. */
    method Done(bm: Allocator)
      requires Valid() && Uses(bm) && |t.blocks| < g.maxSte
      modifies this, bm
      ensures Valid() && Uses(bm) && log == old(log) && pp == [] && !t.begun && t.global == |log| && t.pending == []
    {
      if pp != [] {
        ghost var _, _ := WriteBuffer(bm);
        pp := [];
        WriteMeta(bm, false, true);
      } else if t.begun {
        IdleFlushed(g, t, d, log, page);
        WriteMeta(bm, false, true);
      } else {
        WriteRemain(bm);
      }
    }

    /** st_get_remain: the map page in progress is programmed. */
    method WriteRemain(bm: Allocator)
      requires Valid() && Uses(bm) && pp == [] && !t.begun
      modifies this`t, this`d
      ensures Valid() && Uses(bm) && t.pending == [] && !t.begun && t.global == old(t.global)
    {
      if t.pending != [] {
        NoteKept(t.blocks, d.maps, t.mapPage, t.pending, g.gap, t.mapPage, t.pending, t.mapPage);
        d := d.(maps := d.maps[t.mapPage := t.pending]);
        t := t.(pending := []);
      }
    }
  }

  /** After the buffer was written. */
  lemma {:induction false} FlushGrows(g: Geometry, t: Table, d: Device, pp: seq<Datum>, log: seq<Datum>, page: nat,
                                      pick: nat, t': Table,
                                      d': Device, ppa: nat)
    requires Filling(g, t, d, pp, log, page, 0) && PageFlushed(g, t, d, pp, log, page, pick, t', d', ppa)
    requires |pp| == g.gap
    ensures Grown(g, t, d.flash, t', d'.flash, ppa) && t'.begun && (t.begun ==> |t'.blocks| == |t.blocks|)
    ensures t'.alert ==> |t'.cur.pairs| == g.m && t'.global == t'.cur.start + g.m
    ensures |t'.blocks| == |t.blocks|
  {
    BaseSum(t'.cur.pba, page, g.gap);
  }

  /** And its block was closed because it is full. */
  lemma {:induction false} CloseGrows(g: Geometry, t: Table, flash: Flash, t': Table, flash': Flash, t'': Table,
                                      ppa: nat)
    requires Grown(g, t, flash, t', flash', ppa) && t'.begun && |t'.blocks| == |t.blocks|
    requires ClosedTo(t', t'') && t'.global == t'.cur.start + g.m
    ensures Grown(g, t, flash, t'', flash', ppa)
  {
  }

  /** The open block was closed. */
  ghost predicate ClosedTo(t: Table, t': Table) {
    |t'.blocks| == |t.blocks| + 1 && t.blocks <= t'.blocks && Closed(t.cur, t'.blocks[|t.blocks|]) &&
        t'.global == t.global && !t'.begun
  }

  lemma {:induction false} LastPage(g: Geometry, t: Table, page: nat)
    requires g.Ok() && page < g.ppb && t.inblock == Base(page, g.gap) + g.gap && t.inblock != g.m
    ensures page + 1 < g.ppb && t.inblock == Base(page + 1, g.gap)
  {
  }

  /** Every flushed entry is found by block and offset, at the address it was written to. */
  lemma {:induction false} EveryEntryReadable(r: Run, i: nat) returns (blk: Ste, o: nat)
    requires r.Valid() && i < |r.log| - |r.pp|
    ensures (blk in r.t.blocks || (r.t.begun && blk == r.t.cur)) && o < |blk.pairs| && i == blk.start + o
    ensures blk.pairs[o] == Pair(r.log[i].lba, ReadTranslation(blk, o, r.g.gap))
    ensures Stored(r.d.flash, r.g.gap, ReadTranslation(blk, o, r.g.gap), r.log[i])
  {
    var t := r.t;
    if t.begun && t.cur.start <= i {
      blk, o := t.cur, i - t.cur.start;
    } else {
      var b;
      b, o := Find(t.blocks, if t.begun then t.cur.start else t.global, i);
      blk := t.blocks[b];
    }
    if blk != t.cur {
      assert Whole(blk, |blk.pairs|, r.log, r.d.flash, r.g.gap, r.g.m);
    }
    ReadBack(blk, |blk.pairs|, r.log, r.d.flash, r.g.gap, o);
  }

  // ----- whole runs

  ghost function Puts(ops: seq<Op>): seq<Datum> {
    if ops == [] then []
    else
      var n := |ops| - 1;
      Puts(ops[..n]) + if ops[n].Put? then [ops[n].x] else []
  }

  /** The operations are done up to the one that closes the last of max blocks, or all of them. */
  ghost predicate FillsAt(ops: seq<Op>, m: nat, max: nat, n: nat) {
    && n <= |ops| && (n < |ops| ==> StandOf(ops[..n], m).closed >= max)
    && forall k :: 0 <= k < n ==> StandOf(ops[..k], m).closed < max
  }

  /** Inserts and paddings, until the table is full. */
  method Perform(r: Run, bm: Allocator, ops: seq<Op>) returns (n: nat)
    requires r.Valid() && r.Uses(bm) && r.log == [] && r.t.blocks == [] && !r.t.begun
    requires forall k :: 0 <= k < |ops| && ops[k].Put? ==> ops[k].x.lba < NO_LBA
    modifies r, bm
    ensures r.Valid() && r.Uses(bm) && FillsAt(ops, r.g.m, r.g.maxSte, n)
    ensures r.log == Puts(ops[..n]) && |r.t.blocks| == StandOf(ops[..n], r.g.m).closed
  {
    n := 0;
    while n < |ops| && |r.t.blocks| < r.g.maxSte
      invariant n <= |ops| && r.Valid() && r.Uses(bm) && r.log == Puts(ops[..n])
      invariant r.Standing() == StandOf(ops[..n], r.g.m)
      invariant forall k :: 0 <= k < n ==> StandOf(ops[..k], r.g.m).closed < r.g.maxSte
    {
      assert ops[..n + 1][..n] == ops[..n];
      match ops[n] {
        case Put(x) =>
          ghost var _ := r.Insert(x, bm);
        case Skip => r.Pad(bm);
      }
      n := n + 1;
    }
  }

  /**
   * A run filled from empty by any inserts and paddings and finished, unless the table fills up first: every flushed
   * entry is found by block and offset at the address it was written to, and a finished run has flushed all of them.
   */
  method Fill(gap: nat, ppb: nat, maxSte: nat, ops: seq<Op>) returns (r: Run, n: nat, full: bool)
    requires gap > 0 && ppb > 0 && forall k :: 0 <= k < |ops| && ops[k].Put? ==> ops[k].x.lba < NO_LBA
    ensures r.Valid() && r.g == Geometry(gap, ppb, Base(ppb, gap), maxSte)
    ensures FillsAt(ops, Base(ppb, gap), maxSte, n) && r.log == Puts(ops[..n])
    ensures (full <==> StandOf(ops[..n], Base(ppb, gap)).closed >= maxSte)
    ensures !full ==> n == |ops| && r.pp == [] && r.t.pending == []
    ensures forall i: nat :: i < |r.log| - |r.pp| ==> Kept(r.t, r.d, r.g.gap, i, r.log[i])
  {
    r := new Run(gap, ppb, maxSte);
    var bm := new Allocator();
    n := Perform(r, bm, ops);
    full := |r.t.blocks| >= maxSte;
    if !full {
      r.Done(bm);
    }
    forall i: nat | i < |r.log| - |r.pp| ensures Kept(r.t, r.d, r.g.gap, i, r.log[i]) {
      var blk, o := EveryEntryReadable(r, i);
    }
  }

  /** Log entry i lies in some block of the table, at the address its offset translates to. */
  ghost predicate Kept(t: Table, d: Device, gap: nat, i: nat, x: Datum)
    requires gap > 0
  {
    exists blk, o ::
      && (blk in t.blocks || (t.begun && blk == t.cur)) && 0 <= o < |blk.pairs| && i == blk.start + o
      && blk.pairs[o] == Pair(x.lba, ReadTranslation(blk, o, gap))
      && Stored(d.flash, gap, ReadTranslation(blk, o, gap), x)
  }
}
