/**
 * The log run that takes the writes (algorithm/layeredLSM/run_insert.cpp:67-149, run_query.cpp:127-171): filled like
 * a normal run, with a map from every lba to the global offset of its last entry. Entries that are written again lose
 * their valid bit.
 */
module LogTable {
  import opened Layout
  import opened TableSpec
  import opened SortedTable

  /** st_array_convert_global_offset_to_psa and run_translate_intra_offset: global offset i in blocks of m entries. */
  function AddressAt(t: Table, m: nat, gap: nat, i: nat): nat
    requires m > 0
  {
    ReadTranslation(if i / m < |t.blocks| then t.blocks[i / m] else t.cur, i % m, gap)
  }

  function Place(t: Table, m: nat, gap: nat, i: nat): Slot
    requires m > 0 && gap > 0
  {
    Slot(AddressAt(t, m, gap, i) / gap, AddressAt(t, m, gap, i) % gap)
  }

  /** The blocks hold every offset below n: those before the last are full, the open one is not more than full. */
  ghost predicate Reaches(t: Table, m: nat, n: nat) {
    Aligned(t, m) && n <= t.global && (t.begun ==> t.global <= t.cur.start + m)
  }

  lemma {:induction false} BlockOf(t: Table, m: nat, i: nat)
    requires m > 0 && Reaches(t, m, i + 1)
    ensures i / m < |t.blocks| || (i / m == |t.blocks| && t.begun)
  {
    var b := i / m;
    Split(m, i, b);
    if b > |t.blocks| {
      BaseOrder(|t.blocks|, b, m);
    }
  }

  /** An offset keeps its address while the table grows. */
  lemma {:induction false} AddressStays(t: Table, t': Table, m: nat, gap: nat, i: nat)
    requires m > 0 && Reaches(t, m, i + 1) && Extends(t, t')
    ensures AddressAt(t', m, gap, i) == AddressAt(t, m, gap, i)
  {
    BlockOf(t, m, i);
  }

  /** The entries of a flush are the pieces of its page, in order. */
  lemma {:induction false} NewAddress(t: Table, flash: Flash, t': Table, m: nat, gap: nat, ppa: nat, n: nat, k: nat)
    requires m > 0 && gap > 0 && k < n && FlushedTo(t, flash, t.global, n, t', ppa, gap) && Reaches(t', m, t.global + n)
    requires t.blocks <= t'.blocks
    ensures AddressAt(t', m, gap, t.global + k) == Base(ppa, gap) + k
  {
    var b, i := |t.blocks|, t.global + k;
    var blk := if |t'.blocks| > b then t'.blocks[b] else t'.cur;
    assert blk.start == Base(b, m) && i < Base(b, m) + m;
    Split(m, i, b);
  }

  lemma {:induction false} NewPlace(t: Table, flash: Flash, t': Table, m: nat, gap: nat, ppa: nat, n: nat, k: nat)
    requires m > 0 && k < n <= gap && FlushedTo(t, flash, t.global, n, t', ppa, gap) && Reaches(t', m, t.global + n)
    requires t.blocks <= t'.blocks
    ensures Place(t', m, gap, t.global + k) == Slot(ppa, k)
  {
    NewAddress(t, flash, t', m, gap, ppa, n, k);
    Split(gap, Base(ppa, gap) + k, ppa);
  }

  /** Every flushed entry is at its address. */
  lemma {:induction false} AddressHolds(r: Run, i: nat)
    requires r.Valid() && Aligned(r.t, r.g.m) && i < r.t.global
    ensures r.g.m > 0 && r.g.gap > 0 && Reaches(r.t, r.g.m, i + 1)
    ensures Stored(r.d.flash, r.g.gap, AddressAt(r.t, r.g.m, r.g.gap, i), r.log[i])
  {
    var blk, o := EveryEntryReadable(r, i);
    if blk in r.t.blocks {
      var b :| 0 <= b < |r.t.blocks| && r.t.blocks[b] == blk;
      assert Whole(r.t.blocks[b], |blk.pairs|, r.log, r.d.flash, r.g.gap, r.g.m);
      Split(r.g.m, i, b);
    } else {
      Split(r.g.m, i, |r.t.blocks|);
    }
  }

  // ----- the map of the run

  /** The last of the first n entries with the lba, or -1. */
  function LastIndex(log: seq<Datum>, n: nat, lba: nat): (i: int)
    requires n <= |log|
    ensures -1 <= i < n && (i >= 0 ==> log[i].lba == lba) && forall j :: i < j < n ==> log[j].lba != lba
  {
    if n == 0 then -1 else if log[n - 1].lba == lba then n - 1 else LastIndex(log, n - 1, lba)
  }

  ghost predicate IndexOk(mf: map<nat, nat>, log: seq<Datum>, n: nat)
    requires n <= |log|
  {
    forall lba {:trigger lba in mf} :: 0 <= lba ==>
      (lba in mf <==> LastIndex(log, n, lba) >= 0) && (lba in mf ==> mf[lba] == LastIndex(log, n, lba))
  }

  lemma {:induction false} IndexStep(mf: map<nat, nat>, log: seq<Datum>, n: nat)
    requires n < |log| && IndexOk(mf, log, n)
    ensures IndexOk(mf[log[n].lba := n], log, n + 1)
  {
  }

  /** No two offsets share a piece. */
  ghost predicate Apart(t: Table, m: nat, gap: nat, n: nat)
    requires m > 0 && gap > 0
  {
    forall i, j :: 0 <= i < j < n ==> Place(t, m, gap, i) != Place(t, m, gap, j)
  }

  ghost function Places(mf: map<nat, nat>, t: Table, m: nat, gap: nat): set<Slot>
    requires m > 0 && gap > 0
  {
    set lba | lba in mf :: Place(t, m, gap, mf[lba])
  }

  /** A new entry for lba: its piece becomes valid and that of the former entry invalid. */
  lemma {:induction false} LiveStep(mf: map<nat, nat>, log: seq<Datum>, n: nat, t: Table, m: nat, gap: nat)
    requires m > 0 && gap > 0 && n < |log| && IndexOk(mf, log, n) && Apart(t, m, gap, n + 1)
    ensures var lba, here := log[n].lba, Place(t, m, gap, n);
            && here !in Places(mf, t, m, gap)
            && (lba in mf ==> Place(t, m, gap, mf[lba]) in Places(mf, t, m, gap) && Place(t, m, gap, mf[lba]) != here)
            && Places(mf[lba := n], t, m, gap)
               == Places(mf, t, m, gap) + {here} - (if lba in mf then {Place(t, m, gap, mf[lba])} else {})
  {
    var lba, here := log[n].lba, Place(t, m, gap, n);
    var mf' := mf[lba := n];
    forall l | l in mf ensures Place(t, m, gap, mf[l]) != here {
      assert mf[l] < n;
    }
    forall s ensures s in Places(mf', t, m, gap)
                     <==> s in Places(mf, t, m, gap) + {here} - (if lba in mf then {Place(t, m, gap, mf[lba])} else {})
    {
      LivePlace(mf, mf', log, n, t, m, gap, s);
    }
  }

  lemma {:induction false} LivePlace(mf: map<nat, nat>, mf': map<nat, nat>, log: seq<Datum>, n: nat, t: Table, m: nat,
                                     gap: nat, s: Slot)
    requires m > 0 && gap > 0 && n < |log| && IndexOk(mf, log, n) && Apart(t, m, gap, n + 1)
    requires mf' == mf[log[n].lba := n]
    ensures s in Places(mf', t, m, gap)
            <==> s in Places(mf, t, m, gap) + {Place(t, m, gap, n)} -
                      (if log[n].lba in mf then {Place(t, m, gap, mf[log[n].lba])} else {})
  {
    var lba := log[n].lba;
    if s in Places(mf', t, m, gap) {
      var l :| l in mf' && s == Place(t, m, gap, mf'[l]);
      if l == lba {
        if lba in mf {
          assert mf[lba] < n;
        }
      } else {
        assert s in Places(mf, t, m, gap);
        if lba in mf {
          PlacesDiffer(mf, log, n, t, m, gap, l, lba);
        }
      }
    } else if s in Places(mf, t, m, gap) {
      var l :| l in mf && s == Place(t, m, gap, mf[l]);
      OtherStays(mf, lba, n, t, m, gap, l);
    } else {
      assert mf'[lba] == n;
    }
  }

  lemma {:induction false} OtherStays(mf: map<nat, nat>, lba: nat, n: nat, t: Table, m: nat, gap: nat, l: nat)
    requires m > 0 && gap > 0 && l in mf
    ensures l == lba || Place(t, m, gap, mf[l]) in Places(mf[lba := n], t, m, gap)
  {
    if l != lba {
      assert mf[lba := n][l] == mf[l];
    }
  }

  lemma {:induction false} PlacesDiffer(mf: map<nat, nat>, log: seq<Datum>, n: nat, t: Table, m: nat, gap: nat, l: nat,
                                        k: nat)
    requires m > 0 && gap > 0 && n <= |log| && IndexOk(mf, log, n) && Apart(t, m, gap, n) && l in mf && k in mf
    requires l != k
    ensures Place(t, m, gap, mf[l]) != Place(t, m, gap, mf[k])
  {
    assert log[mf[l]].lba == l && log[mf[k]].lba == k;
    assert mf[l] < mf[k] || mf[k] < mf[l];
  }

  // ----- what a flush changes

  lemma {:induction false} LastIndexPrefix(log: seq<Datum>, log': seq<Datum>, n: nat, lba: nat)
    requires n <= |log| && log <= log'
    ensures LastIndex(log', n, lba) == LastIndex(log, n, lba)
  {
    if n > 0 {
      LastIndexPrefix(log, log', n - 1, lba);
    }
  }

  lemma {:induction false} IndexLonger(mf: map<nat, nat>, log: seq<Datum>, log': seq<Datum>, n: nat)
    requires n <= |log| && log <= log' && IndexOk(mf, log, n)
    ensures IndexOk(mf, log', n)
  {
    forall lba: nat ensures LastIndex(log', n, lba) == LastIndex(log, n, lba) {
      LastIndexPrefix(log, log', n, lba);
    }
  }

  lemma {:induction false} PlacesStay(mf: map<nat, nat>, log: seq<Datum>, n: nat, t: Table, t': Table, m: nat, gap: nat)
    requires m > 0 && gap > 0 && n <= |log| && IndexOk(mf, log, n) && Reaches(t, m, n) && Extends(t, t')
    ensures Places(mf, t', m, gap) == Places(mf, t, m, gap)
  {
    forall l | l in mf ensures Place(t', m, gap, mf[l]) == Place(t, m, gap, mf[l]) {
      assert mf[l] < n;
      AddressStays(t, t', m, gap, mf[l]);
    }
  }

  /** The pages of the first n entries have been written. */
  ghost predicate Written(t: Table, m: nat, gap: nat, n: nat, flash: Flash)
    requires m > 0 && gap > 0
  {
    forall i :: 0 <= i < n ==> Place(t, m, gap, i).page in flash
  }

  lemma {:induction false} AllWritten(r: Run)
    requires r.Valid() && Aligned(r.t, r.g.m)
    ensures r.g.m > 0 && r.g.gap > 0 && Reaches(r.t, r.g.m, r.t.global)
    ensures Written(r.t, r.g.m, r.g.gap, r.t.global, r.d.flash)
  {
    forall i | 0 <= i < r.t.global ensures Place(r.t, r.g.m, r.g.gap, i).page in r.d.flash {
      AddressHolds(r, i);
    }
  }

  /** The pieces of a page that was not written before are new ones. */
  lemma {:induction false} ApartGrows(t: Table, flash: Flash, t': Table, m: nat, gap: nat, ppa: nat)
    requires m > 0 && gap > 0 && Reaches(t, m, t.global) && Apart(t, m, gap, t.global)
    requires Written(t, m, gap, t.global, flash)
    requires Extends(t, t') && FlushedTo(t, flash, t.global, gap, t', ppa, gap) && Reaches(t', m, t.global + gap)
    ensures Apart(t', m, gap, t.global + gap)
  {
    forall i, j | 0 <= i < j < t.global + gap ensures Place(t', m, gap, i) != Place(t', m, gap, j) {
      PlaceAfter(t, flash, t', m, gap, ppa, i);
      PlaceAfter(t, flash, t', m, gap, ppa, j);
    }
  }

  /** An entry is where it was, on a written page, or on the new page. */
  lemma {:induction false} PlaceAfter(t: Table, flash: Flash, t': Table, m: nat, gap: nat, ppa: nat, i: nat)
    requires m > 0 && gap > 0 && Reaches(t, m, t.global) && Written(t, m, gap, t.global, flash) && i < t.global + gap
    requires Extends(t, t') && FlushedTo(t, flash, t.global, gap, t', ppa, gap) && Reaches(t', m, t.global + gap)
    ensures i < t.global ==> Place(t', m, gap, i) == Place(t, m, gap, i) && Place(t', m, gap, i).page in flash
    ensures i >= t.global ==> Place(t', m, gap, i) == Slot(ppa, i - t.global)
    ensures ppa !in flash
  {
    if i < t.global {
      AddressStays(t, t', m, gap, i);
    } else {
      NewPlace(t, flash, t', m, gap, ppa, gap, i - t.global);
    }
  }

  // ----- the run

  datatype Answer = NotFound | Found(data: int)

  /** What was inserted last for lba. */
  function Latest(log: seq<Datum>, lba: nat): Answer {
    var i := LastIndex(log, |log|, lba);
    if i == -1 then NotFound else Found(log[i].data)
  }

  class LogRun {
    const run: Run
    /** run_log_mf */
    var mf: map<nat, nat>
    /** The pieces whose valid bit is set. */
    var live: set<Slot>

    /** The map names the last flushed entry of every lba, and exactly those entries are valid. */
    ghost predicate Valid()
      reads this, run
    {
      && run.Valid() && Aligned(run.t, run.g.m) && Indexed(run.t.global)
      && Apart(run.t, run.g.m, run.g.gap, run.t.global)
    }

    ghost predicate Indexed(n: nat)
      requires run.Valid()
      reads this, run
    {
      && n <= |run.log| && IndexOk(mf, run.log, n) && live == Places(mf, run.t, run.g.m, run.g.gap)
    }

    constructor (gap: nat, ppb: nat, maxSte: nat)
      requires gap > 0 && ppb > 0
      ensures Valid() && run.log == [] && fresh(run) && run.g == Geometry(gap, ppb, Base(ppb, gap), maxSte)
      ensures run.d == Device(map[], map[], {})
      ensures !run.t.begun && run.t.pending == [] && run.t.blocks == [] && run.pp == []
    {
      run := new Run(gap, ppb, maxSte);
      mf, live := map[], {};
    }

    /** run_insert of a log run: the entries of a flushed page are entered in the map, in order. */
    method Insert(x: Datum, bm: Allocator)
      requires Valid() && run.Uses(bm) && x.lba < NO_LBA && |run.t.blocks| < run.g.maxSte
      modifies this, run, bm
      ensures Valid() && run.Uses(bm) && run.log == old(run.log) + [x]
      ensures run.pp == if |old(run.pp)| + 1 < run.g.gap then old(run.pp) + [x] else []
    {
      var buf, from := run.pp + [x], run.t.global;
      ghost var t0, flash0, log0 := run.t, run.d.flash, run.log;
      AllWritten(run);
      ghost var ppa := run.Insert(x, bm);
      IndexLonger(mf, log0, run.log, from);
      if |buf| == run.g.gap {
        Reindex(buf, from, t0, flash0, ppa);
      }
    }

    /** After a flush of buf: the former entries stay where they are, and those of the buffer are entered. */
    method Reindex(buf: seq<Datum>, from: nat, ghost t0: Table, ghost flash0: Flash, ghost ppa: nat)
      requires run.Valid() && run.pp == [] && Grown(run.g, t0, flash0, run.t, run.d.flash, ppa) && |buf| == run.g.gap
      requires from == t0.global && from + |buf| == |run.log| && buf == run.log[from..] && IndexOk(mf, run.log, from)
      requires Reaches(t0, run.g.m, from) && Apart(t0, run.g.m, run.g.gap, from)
      requires Written(t0, run.g.m, run.g.gap, from, flash0)
      requires live == Places(mf, t0, run.g.m, run.g.gap)
      modifies this
      ensures Valid()
    {
      AllWritten(run);
      PlacesStay(mf, run.log, from, t0, run.t, run.g.m, run.g.gap);
      ApartGrows(t0, flash0, run.t, run.g.m, run.g.gap, ppa);
      Enter(buf, from);
    }

    /** The map inserts of __run_write_buffer: neither the double-insert nor the double-delete abort is reached. */
    method Enter(buf: seq<Datum>, from: nat)
      requires run.Valid() && Indexed(from) && from + |buf| <= |run.log| && buf == run.log[from..from + |buf|]
      requires Apart(run.t, run.g.m, run.g.gap, from + |buf|)
      modifies this
      ensures Indexed(from + |buf|)
    {
      for k := 0 to |buf|
        invariant Indexed(from + k)
      {
        assert buf[k] == run.log[from + k];
        EnterOne(buf[k].lba, from + k);
      }
    }

    method EnterOne(lba: nat, offset: nat)
      requires run.Valid() && Indexed(offset) && offset < |run.log| && lba == run.log[offset].lba
      requires Apart(run.t, run.g.m, run.g.gap, offset + 1)
      modifies this
      ensures Indexed(offset + 1)
    {
      IndexStep(mf, run.log, offset);
      LiveStep(mf, run.log, offset, run.t, run.g.m, run.g.gap);
      var slot := Place(run.t, run.g.m, run.g.gap, offset);
      assert slot !in live;
      live := live + {slot};
      if lba in mf {
        var former := Place(run.t, run.g.m, run.g.gap, mf[lba]);
        assert former in live;
        live := live - {former};
      }
      mf := mf[lba := offset];
    }

    /**
     * run_query: the page buffer first, from its oldest entry on, then the map. The answer is the value inserted last
     * exactly when the buffer does not hold an older value of the lba before another one.
     */
    method Query(lba: nat) returns (r: Answer)
      requires Valid()
      ensures var i := FirstIndex(run.pp, lba); r == if i >= 0 then Found(run.pp[i].data) else Latest(run.log, lba)
      ensures r == Latest(run.log, lba) <==> !Shadowed(run.pp, lba)
    {
      for i := 0 to |run.pp|
        invariant forall j :: 0 <= j < i ==> run.pp[j].lba != lba
      {
        if run.pp[i].lba == lba {
          FirstIs(run.pp, lba, i);
          BufferAnswer(run.pp, run.log, lba, i);
          return Found(run.pp[i].data);
        }
      }
      NotBuffered(run.pp, run.log, run.t.global, lba);
      if lba !in mf {
        return NotFound;
      }
      AddressHolds(run, mf[lba]);
      var psa := AddressAt(run.t, run.g.m, run.g.gap, mf[lba]);
      r := Found(run.d.flash[psa / run.g.gap][psa % run.g.gap].data);
    }
  }

  /** pp_find_value: the first buffered entry of lba, or -1. */
  function FirstIndex(pp: seq<Datum>, lba: nat): (i: int)
    ensures -1 <= i < |pp| && (i >= 0 ==> pp[i].lba == lba)
  {
    if pp == [] then -1
    else if pp[0].lba == lba then 0
    else
      var i := FirstIndex(pp[1..], lba);
      if i == -1 then -1 else i + 1
  }

  lemma {:induction false} FirstIs(pp: seq<Datum>, lba: nat, i: nat)
    requires i < |pp| && pp[i].lba == lba && forall j :: 0 <= j < i ==> pp[j].lba != lba
    ensures FirstIndex(pp, lba) == i
  {
    if i > 0 {
      FirstIs(pp[1..], lba, i - 1);
    }
  }

  lemma {:induction false} NoFirst(pp: seq<Datum>, lba: nat)
    requires forall j :: 0 <= j < |pp| ==> pp[j].lba != lba
    ensures FirstIndex(pp, lba) == -1
  {
    if pp != [] {
      NoFirst(pp[1..], lba);
    }
  }

  /** The first buffered entry of lba is not the last one, and has other data. */
  predicate Shadowed(pp: seq<Datum>, lba: nat) {
    FirstIndex(pp, lba) >= 0 && LastIndex(pp, |pp|, lba) >= 0
    && pp[LastIndex(pp, |pp|, lba)].data != pp[FirstIndex(pp, lba)].data
  }

  lemma {:induction false} LastInSuffix(log: seq<Datum>, from: nat, n: nat, lba: nat)
    requires from + n <= |log|
    ensures var pp := log[from..];
            LastIndex(log, from + n, lba)
            == if LastIndex(pp, n, lba) >= 0 then from + LastIndex(pp, n, lba) else LastIndex(log, from, lba)
  {
    if n > 0 {
      LastInSuffix(log, from, n - 1, lba);
    }
  }

  lemma {:induction false} BufferAnswer(pp: seq<Datum>, log: seq<Datum>, lba: nat, i: nat)
    requires |pp| <= |log| && pp == log[|log| - |pp|..] && i < |pp| && pp[i].lba == lba
    requires forall j :: 0 <= j < i ==> pp[j].lba != lba
    ensures Found(pp[i].data) == Latest(log, lba) <==> !Shadowed(pp, lba)
  {
    FirstIs(pp, lba, i);
    LastInSuffix(log, |log| - |pp|, |pp|, lba);
    var k := LastIndex(pp, |pp|, lba);
    assert k >= i;
  }

  lemma {:induction false} NotBuffered(pp: seq<Datum>, log: seq<Datum>, n: nat, lba: nat)
    requires n + |pp| == |log| && pp == log[n..] && forall j :: 0 <= j < |pp| ==> pp[j].lba != lba
    ensures LastIndex(log, |log|, lba) == LastIndex(log, n, lba) && !Shadowed(pp, lba) && FirstIndex(pp, lba) == -1
  {
    NoFirst(pp, lba);
    LastInSuffix(log, n, |pp|, lba);
  }

  lemma {:induction false} TwiceIsShadowed(pp: seq<Datum>, log: seq<Datum>)
    requires pp == log == [Datum(0, 1), Datum(0, 2)]
    ensures Shadowed(pp, 0) && Latest(log, 0) == Found(2) && FirstIndex(pp, 0) == 0
  {
    assert pp[0].lba == 0 && pp[1].lba == 0;
    FirstIs(pp, 0, 0);
  }

  /** Two values of one lba in a page buffer of three: the older one is read. */
  method OlderValueRead() returns (r: Answer)
    ensures r == Found(1)
  {
    var lr := new LogRun(3, 1, 1);
    var bm := new Allocator();
    lr.Insert(Datum(0, 1), bm);
    lr.Insert(Datum(0, 2), bm);
    TwiceIsShadowed(lr.run.pp, lr.run.log);
    r := lr.Query(0);
  }

  /** The page being filled has k of the n entries. */
  ghost predicate InPage(k: nat, n: nat, gap: nat) {
    gap > 0 && k == n % gap
  }

  /** The run holds the first n entries, those of the unfinished page in its buffer. */
  ghost predicate Filled(lr: LogRun, xs: seq<Datum>, n: nat)
    reads lr, lr.run
  {
    && lr.Valid() && n <= |xs| && lr.run.log == xs[..n] && n <= Base(lr.run.g.maxSte, lr.run.g.m)
    && InPage(|lr.run.pp|, n, lr.run.g.gap)
  }

  method InsertNext(lr: LogRun, bm: Allocator, xs: seq<Datum>, n: nat)
    requires Filled(lr, xs, n) && lr.run.Uses(bm) && n < |xs| && xs[n].lba < NO_LBA
    requires |lr.run.t.blocks| < lr.run.g.maxSte
    modifies lr, lr.run, bm
    ensures Filled(lr, xs, n + 1) && lr.run.Uses(bm)
  {
    assert xs[..n + 1] == xs[..n] + [xs[n]];
    RoomForOne(lr.run);
    NextInPage(|lr.run.pp|, n, lr.run.g.gap);
    lr.Insert(xs[n], bm);
  }

  /** Inserts one after the other, until the table is full. */
  method InsertAll(lr: LogRun, bm: Allocator, xs: seq<Datum>) returns (n: nat)
    requires lr.Valid() && lr.run.Uses(bm) && lr.run.log == [] && forall k :: 0 <= k < |xs| ==> xs[k].lba < NO_LBA
    modifies lr, lr.run, bm
    ensures Filled(lr, xs, n) && n == Least(|xs|, Base(lr.run.g.maxSte, lr.run.g.m))
  {
    n := 0;
    EmptyLog(lr.run);
    while n < |xs| && |lr.run.t.blocks| < lr.run.g.maxSte
      invariant Filled(lr, xs, n) && lr.run.Uses(bm)
    {
      InsertNext(lr, bm, xs, n);
      n := n + 1;
    }
    if n < |xs| {
      AllFull(lr.run);
    }
  }

  function Least(a: nat, b: nat): nat {
    if a <= b then a else b
  }

  lemma {:induction false} EmptyLog(r: Run)
    requires r.Valid() && r.log == []
    ensures InPage(|r.pp|, 0, r.g.gap)
  {
    assert r.pp == [];
  }

  lemma {:induction false} NextInPage(k: nat, n: nat, gap: nat)
    requires InPage(k, n, gap)
    ensures InPage(if k + 1 < gap then k + 1 else 0, n + 1, gap)
  {
    var q := n / gap;
    Split(gap, n, q);
    Split(gap, n + 1, if n % gap + 1 < gap then q else q + 1);
  }

  lemma {:induction false} Buffered(lr: LogRun, xs: seq<Datum>, n: nat)
    requires Filled(lr, xs, n)
    ensures lr.run.g.gap > 0 && n % lr.run.g.gap <= n && lr.run.pp == xs[n - n % lr.run.g.gap..n]
  {
    assert xs[..n][n - |lr.run.pp|..] == xs[n - |lr.run.pp|..n];
  }

  /** While a block is missing, the entries do not fill the table. */
  lemma {:induction false} RoomForOne(r: Run)
    requires r.Valid() && Aligned(r.t, r.g.m) && |r.t.blocks| < r.g.maxSte
    ensures |r.log| < Base(r.g.maxSte, r.g.m)
  {
    BaseOrder(|r.t.blocks|, r.g.maxSte, r.g.m);
    BaseOrder(r.page, r.g.ppb, r.g.gap);
  }

  /** Blocks are closed only when they are full. */
  lemma {:induction false} AllFull(r: Run)
    requires r.Valid() && Aligned(r.t, r.g.m) && |r.t.blocks| >= r.g.maxSte
    ensures |r.log| >= Base(r.g.maxSte, r.g.m)
  {
    if |r.t.blocks| > r.g.maxSte {
      BaseOrder(r.g.maxSte, |r.t.blocks|, r.g.m);
    }
  }

  /**
   * A log run filled from empty, with everything or until its blocks are full: the entries of the last, unfinished page
   * are in the buffer, and every lba without a shadowed value there reads as it was inserted last.
   */
  method FillAndQuery(gap: nat, ppb: nat, maxSte: nat, xs: seq<Datum>, lba: nat)
    returns (n: nat, pp: seq<Datum>, r: Answer)
    requires gap > 0 && ppb > 0 && forall k :: 0 <= k < |xs| ==> xs[k].lba < NO_LBA
    ensures n == Least(|xs|, Base(maxSte, Base(ppb, gap))) && pp == xs[n - n % gap..n]
    ensures r == Latest(xs[..n], lba) <==> !Shadowed(pp, lba)
    ensures Shadowed(pp, lba) ==> r == Found(pp[FirstIndex(pp, lba)].data)
  {
    var lr := new LogRun(gap, ppb, maxSte);
    var bm := new Allocator();
    n := InsertAll(lr, bm, xs);
    pp := lr.run.pp;
    Buffered(lr, xs, n);
    r := lr.Query(lba);
  }
}
