/**
 * The page-level FTL: align buffer, mapping table, valid bits, out-of-band reverse map, and garbage collection into
 * a reserve segment (algorithm/Page_ftl/page.c, map.c, gc.c) over the sequential block manager. A physical page is
 * named here by its first piece (ppa * L2PGAP), so that ppa * L2PGAP + i is that number plus i.
 */
module PageFtl {
  import opened Layout
  import opened FlashMap
  import opened FlashSegments

  class Ftl {
    const pages: nat
    const gap: nat
    const mapping: array<Addr>
    const bits: array<bool>
    const oob: array<nat>
    const flash: array<Value>
    const segs: array<Seg>
    var freeQ: seq<nat>
    /** max_heap: the segments that garbage collection may choose. */
    var heap: set<nat>
    var active: nat
    var reserve: nat
    /** a_buffer */
    var keys: seq<nat>
    var vals: seq<Value>

    ghost function N(): Nand
      reads mapping, bits, oob, flash
    {
      Nand(mapping[..], bits[..], oob[..], flash[..])
    }

    /** Pieces of a segment. */
    function Size(): nat {
      Base(pages, gap)
    }

    ghost predicate Shape() {
      && gap > 0 && pages > 0
      && bits.Length == oob.Length == flash.Length == Base(segs.Length, Size())
      && mapping as object != bits as object && mapping as object != oob as object
      && mapping as object != flash as object
      && mapping as object != segs as object && bits as object != oob as object && bits as object != flash as object
      && bits as object != segs as object && oob as object != flash as object && oob as object != segs as object
      && flash as object != segs as object
    }

    ghost predicate Counted()
      reads bits, segs
    {
      SegsOk(segs[..], bits[..], pages, gap)
    }

    /** page_map_create on an empty device: segment 0 is the reserve, segment 1 active, the rest free. */
    constructor (range: nat, segments: nat, pages: nat, gap: nat)
      requires segments >= 2 && pages > 0 && gap > 0
      ensures Valid() && mapping.Length == range && segs.Length == segments && this.pages == pages && this.gap == gap
      ensures fresh(mapping) && fresh(bits) && fresh(oob) && fresh(flash) && fresh(segs)
      ensures forall l :: 0 <= l < range ==> View(l) == NotFound
      ensures keys == [] && active < segments && segs[active].used == 0
    {
      this.pages, this.gap := pages, gap;
      mapping := new Addr[range](_ => Unmapped);
      bits := new bool[Base(segments, Base(pages, gap))](_ => false);
      oob := new nat[Base(segments, Base(pages, gap))](_ => 0);
      flash := new Value[Base(segments, Base(pages, gap))](_ => Value(0));
      segs := new Seg[segments](_ => Seg(0, 0, 0));
      freeQ := seq(segments - 2, i => i + 2);
      heap, reserve, active := {1}, 0, 1;
      keys, vals := [], [];
      new;
      EmptyDevice(segs[..], bits[..], freeQ, segments, pages, gap);
    }

    // ----- block manager

    /** The segment of a piece, and the piece's place in it. */
    lemma {:induction false} Where(s: nat, o: nat)
      requires Shape() && s < segs.Length && o < Size()
      ensures Base(s, Size()) + o < bits.Length && (Base(s, Size()) + o) / Size() == s
    {
      BaseOrder(s, segs.Length, Size());
      Split(Size(), Base(s, Size()) + o, s);
    }

    /** sbm_bit_set */
    method BitSet(p: nat, ghost s: nat, ghost o: nat)
      requires Shape() && Counted() && s < segs.Length && o < Size() && p == Base(s, Size()) + o
      requires o < Base(segs[s].used, gap) && p < bits.Length && !bits[p]
      modifies bits, segs
      ensures Counted() && bits[..] == old(bits[..])[p := true]
      ensures segs[..] == old(segs[..])[s := old(segs[s]).(valid := old(segs[s]).valid + 1)]
    {
      Where(s, o);
      var sid := p / Size();
      assert WindowOk(segs[..], bits[..], s, pages, gap);
      SegsStore(segs[..], bits[..], pages, gap, s, o, true, segs[s].(valid := segs[s].valid + 1));
      bits[p] := true;
      segs[sid] := segs[sid].(valid := segs[sid].valid + 1);
    }

    /** sbm_bit_unset of a valid piece */
    method BitUnset(p: nat)
      requires Shape() && Counted() && p < bits.Length && bits[p]
      modifies bits, segs
      ensures Counted() && bits[..] == old(bits[..])[p := false]
      ensures forall s :: 0 <= s < segs.Length ==>
          segs[s].used == old(segs[s]).used && segs[s].valid == old(segs[s]).valid
      ensures forall s :: 0 <= s < segs.Length && old(segs[s]) == Seg(0, 0, 0) ==> segs[s] == Seg(0, 0, 0)
    {
      var sid := p / Size();
      BasePositive(pages, gap);
      Locate(p, Size(), segs.Length);
      assert WindowOk(segs[..], bits[..], sid, pages, gap);
      assert Slice(bits[..], Base(sid, Size()), Size())[p % Size()];
      SegsStore(segs[..], bits[..], pages, gap, sid, p % Size(), false, segs[sid].(invalid := segs[sid].invalid + 1));
      bits[p] := false;
      segs[sid] := segs[sid].(invalid := segs[sid].invalid + 1);
    }

    /** sbm_get_page_addr: the next page of the segment, or -1 when it is full. */
    method GetPage(s: nat) returns (base: int)
      requires Shape() && Counted() && s < segs.Length
      modifies segs
      ensures Counted()
      ensures old(segs[s]).used == pages ==> base == -1 && segs[..] == old(segs[..])
      ensures old(segs[s]).used < pages ==>
                base == Base(s, Size()) + Base(old(segs[s]).used, gap)
                && segs[..] == old(segs[..])[s := old(segs[s]).(used := old(segs[s]).used + 1)]
    {
      assert WindowOk(segs[..], bits[..], s, pages, gap);
      if segs[s].used == pages {
        return -1;
      }
      SegsUse(segs[..], bits[..], pages, gap, s);
      base := Base(s, Size()) + Base(segs[s].used, gap);
      segs[s] := segs[s].(used := segs[s].used + 1);
    }

    /** validate_ppa */
    method Validate(base: nat, lbas: seq<nat>, ghost s: nat, ghost o: nat)
      requires Shape() && Counted() && s < segs.Length && base == Base(s, Size()) + o
      requires o + |lbas| <= Base(segs[s].used, gap) && o + |lbas| <= Size() && base + |lbas| <= bits.Length
      requires forall p :: base <= p < base + |lbas| ==> !bits[p]
      modifies bits, segs, oob
      ensures Counted() && Validated(old(N()), N(), base, lbas)
      ensures segs[..] == old(segs[..])[s := old(segs[s]).(valid := old(segs[s]).valid + |lbas|)]
    {
      ghost var bits0 := bits[..];
      var i := 0;
      while i < |lbas|
        invariant i <= |lbas| && Counted()
        invariant forall p :: 0 <= p < bits.Length ==> bits[p] == (base <= p < base + i || bits0[p])
        invariant segs[..] == old(segs[..])[s := old(segs[s]).(valid := old(segs[s]).valid + i)]
        modifies bits, segs
      {
        BitSet(base + i, s, o + i);
        i := i + 1;
      }
      i := 0;
      while i < |lbas|
        invariant i <= |lbas|
        invariant forall p :: 0 <= p < oob.Length ==>
                    oob[p] == if base <= p < base + i then lbas[p - base] else old(oob[p])
        modifies oob
      {
        oob[base + i] := lbas[i];
        i := i + 1;
      }
    }

    /** The device write of a page. */
    method Program(base: nat, data: seq<Value>)
      requires Shape() && base + |data| <= flash.Length
      modifies flash
      ensures Programmed(old(N()), N(), base, data)
    {
      var i := 0;
      while i < |data|
        invariant i <= |data|
        invariant forall p :: 0 <= p < flash.Length ==>
                    flash[p] == if base <= p < base + i then data[p - base] else old(flash[p])
      {
        flash[base + i] := data[i];
        i := i + 1;
      }
    }

    // ----- allocation

    /** The flash side between operations. */
    ghost predicate Core()
      reads this, mapping, bits, oob, flash, segs
    {
      && Shape() && N().Consistent() && Counted()
      && Allocated(segs[..], freeQ, heap, active, reserve, pages, gap)
    }

    ghost predicate Valid()
      reads this, mapping, bits, oob, flash, segs
    {
      && Core()
      && |keys| == |vals| < gap && DistinctKeys(keys, mapping.Length)
    }

    /** No valid piece beyond the handed-out pages of a segment. */
    lemma {:induction false} BeyondUsed(s: nat)
      requires Shape() && Counted() && s < segs.Length && segs[s].used < pages
      ensures var base := Base(s, Size()) + Base(segs[s].used, gap);
              Base(segs[s].used, gap) + gap <= Size() && base + gap <= bits.Length &&
              forall p :: base <= p < base + gap ==> !bits[p]
    {
      BaseOrder(segs[s].used, pages, gap);
      BaseOrder(s, segs.Length, Size());
      assert WindowOk(segs[..], bits[..], s, pages, gap);
      var base := Base(s, Size()) + Base(segs[s].used, gap);
      forall p | base <= p < base + gap ensures !bits[p] {
        assert !Slice(bits[..], Base(s, Size()), Size())[p - Base(s, Size())];
      }
    }

    // ----- garbage collection

    /** The mapping loop of page_map_gc_update. */
    method MapAll(lbas: seq<nat>, res: nat)
      requires DistinctKeys(lbas, mapping.Length)
      modifies mapping
      ensures mapping[..] == Remap(old(mapping[..]), lbas, res)
    {
      var i := 0;
      while i < |lbas|
        invariant i <= |lbas| && mapping[..] == Remap(old(mapping[..]), lbas[..i], res)
      {
        assert lbas[..i + 1][..i] == lbas[..i];
        mapping[lbas[i]] := At(res + i);
        i := i + 1;
      }
      assert lbas[..i] == lbas;
    }

    /** page_map_gc_update with its validate_ppa and device write: one page of gathered pieces goes to the reserve. */
    method Flush(lbas: seq<nat>, data: seq<Value>) returns (ghost base: nat)
      requires Shape() && Counted() && reserve < segs.Length && segs[reserve].used < pages
      requires DistinctKeys(lbas, mapping.Length) && |data| == |lbas| <= gap
      modifies mapping, bits, oob, flash, segs
      ensures Counted() && old(segs[reserve]).used < pages
      ensures base == Base(reserve, Size()) + Base(old(segs[reserve]).used, gap)
      ensures PageWritten(old(N()), N(), base, lbas, data)
      ensures segs[..] == old(segs[..])[reserve := Seg(old(segs[reserve]).used + 1, old(segs[reserve]).valid + |lbas|,
                                                       old(segs[reserve]).invalid)]
    {
      ghost var n0 := N();
      ghost var o := Base(segs[reserve].used, gap);
      BeyondUsed(reserve);
      var res := GetPage(reserve);
      base := res;
      MapAll(lbas, res);
      ghost var n1 := N();
      Validate(res, lbas, reserve, o);
      ghost var n2 := N();
      Program(res, data);
      PageWrittenInSteps(n0, n1, n2, N(), res, lbas, data);
    }

    /** Collection in progress: moved pieces of src are in the reserve, the others in the gather buffer. */
    ghost predicate Gathering(job: Job, src: seq<nat>, moved: nat, gk: seq<nat>, gv: seq<Value>)
      reads this`reserve, mapping, bits, oob, flash, segs
    {
      && Shape() && Counted() && Fits(job) && |gk| < gap
      && job.Gathering(N(), segs[..], src, moved, gk, gv)
    }

    ghost predicate Fits(job: Job)
      reads this`reserve
    {
      && job.reserve == reserve && reserve < segs.Length && job.to == Base(reserve, Size())
      && job.size == Size() && job.pages == pages && job.gap == gap
    }

    /** Writes the gather buffer out. */
    method FlushGathered(gk: seq<nat>, gv: seq<Value>, ghost job: Job, ghost src: seq<nat>, ghost moved: nat)
      requires Shape() && Counted() && Fits(job) && job.Gathering(N(), segs[..], src, moved, gk, gv) && 0 < |gk| <= gap
      modifies mapping, bits, oob, flash, segs
      ensures Counted() && job.Flushed(N(), segs[..], src, old(segs[reserve]).used)
    {
      ghost var n, sg := N(), segs[..];
      job.ReserveHasRoom(n, sg, src, moved, gk, gv);
      ghost var base := Flush(gk, gv);
      job.FlushBuffer(n, sg, N(), segs[..], src, moved, gk, gv, base);
    }

    /** data_copy of one valid piece into the gather buffer, which is written out when it holds a page. */
    method GatherPiece(p: nat, gk: seq<nat>, gv: seq<Value>, ghost job: Job, ghost src: seq<nat>, ghost moved: nat)
      returns (gk': seq<nat>, gv': seq<Value>, ghost moved': nat)
      requires Gathering(job, src, moved, gk, gv)
      requires job.from <= p < job.from + Size() && p < bits.Length && bits[p] && p !in src
      modifies mapping, bits, oob, flash, segs
      ensures Gathering(job, src + [p], moved', gk', gv')
    {
      job.Gather(N(), segs[..], src, moved, gk, gv, p);
      gk', gv', moved' := gk + [oob[p]], gv + [flash[p]], moved;
      if |gk'| == gap {
        ghost var used := segs[reserve].used;
        FlushGathered(gk', gv', job, src + [p], moved);
        job.StartEmpty(N(), segs[..], src + [p], used);
        moved' := |src + [p]|;
        gk', gv' := [], [];
      }
    }

    /** The valid pieces of a page that was read back, in order. */
    method GatherPage(base: nat, gk: seq<nat>, gv: seq<Value>, ghost job: Job, ghost src: seq<nat>, ghost moved: nat)
      returns (gk': seq<nat>, gv': seq<Value>, ghost src': seq<nat>, ghost moved': nat)
      requires Gathering(job, src, moved, gk, gv)
      requires job.from <= base && base + gap <= job.from + Size()
      requires forall j :: 0 <= j < |src| ==> !(base <= src[j] < base + gap)
      modifies mapping, bits, oob, flash, segs
      ensures Gathering(job, src', moved', gk', gv') && job.PageDone(src, src', base, gap)
    {
      gk', gv', src', moved' := gk, gv, src, moved;
      var i := 0;
      while i < gap
        invariant i <= gap && Gathering(job, src', moved', gk', gv') && job.PageDone(src, src', base, i)
      {
        gk', gv', src', moved' := GatherNext(base, i, gk', gv', job, src, src', moved');
        i := i + 1;
      }
    }

    /** One round of the piece loop: invalid pieces are passed over. */
    method GatherNext(base: nat, i: nat, gk: seq<nat>, gv: seq<Value>,
                      ghost job: Job, ghost src0: seq<nat>, ghost src: seq<nat>, ghost moved: nat)
      returns (gk': seq<nat>, gv': seq<Value>, ghost src': seq<nat>, ghost moved': nat)
      requires Gathering(job, src, moved, gk, gv) && job.PageDone(src0, src, base, i)
      requires job.from <= base && base + i < job.from + Size()
      requires forall j :: 0 <= j < |src0| ==> src0[j] != base + i
      modifies mapping, bits, oob, flash, segs
      ensures Gathering(job, src', moved', gk', gv') && job.PageDone(src0, src', base, i + 1)
    {
      gk', gv', src', moved' := gk, gv, src, moved;
      job.PageDoneStep(src0, src, base, i);
      if bits[base + i] {
        gk', gv', moved' := GatherPiece(base + i, gk, gv, job, src, moved);
        src' := src + [base + i];
      }
    }

    ghost predicate NoneValid(base: nat)
      reads bits
    {
      base + gap <= bits.Length && forall p :: base <= p < base + gap ==> !bits[p]
    }

    /** should_read of do_gc */
    method ShouldRead(base: nat) returns (shouldRead: bool)
      requires base + gap <= bits.Length
      ensures shouldRead <==> !NoneValid(base)
    {
      for i := 0 to gap
        invariant forall p :: base <= p < base + i ==> !bits[p]
      {
        if bits[base + i] {
          return true;
        }
      }
      return false;
    }

    /** The pages of the victim that hold a valid piece: those that are read back. */
    method PagesToRead(ghost job: Job, v: nat) returns (pending: set<nat>)
      requires Shape() && job.Ok() && job.n0 == N() && job.pages == pages && job.gap == gap
      requires v < segs.Length && job.from == Base(v, Size())
      ensures job.PagesLeft([], pending)
    {
      pending := {};
      var page := 0;
      while page < pages
        invariant page <= pages && (forall u :: u in pending ==> u < page)
        invariant forall u :: 0 <= u < page && u !in pending ==> NoneValid(job.PageBase(u))
      {
        BaseOrder(page, pages, gap);
        BaseOrder(v, segs.Length, Size());
        var shouldRead := ShouldRead(Base(v, Size()) + Base(page, gap));
        if shouldRead {
          pending := pending + {page};
        }
        page := page + 1;
      }
    }

    /** trim_segment, up to the queue. */
    method Erase(v: nat)
      requires Shape() && Counted() && v < segs.Length
      modifies bits, oob, segs
      ensures Counted() && Erased(old(N()), N(), Base(v, Size()), Size())
      ensures segs[..] == old(segs[..])[v := Seg(0, 0, 0)]
    {
      ghost var n0, segs0 := N(), segs[..];
      BaseOrder(v, segs.Length, Size());
      var base, i := Base(v, Size()), 0;
      while i < Size()
        invariant i <= Size()
        invariant forall p :: 0 <= p < bits.Length ==> bits[p] == (n0.bits[p] && !(base <= p < base + i))
        invariant forall p :: 0 <= p < oob.Length && !(base <= p < base + i) ==> oob[p] == n0.oob[p]
        modifies bits, oob
      {
        bits[base + i] := false;
        oob[base + i] := 0;
        i := i + 1;
      }
      segs[v] := Seg(0, 0, 0);
      assert segs[..] == segs0[v := Seg(0, 0, 0)];
      SegsErase(segs0, n0, N(), pages, gap, v);
    }

    lemma {:induction false} EmptySegment(s: nat)
      requires Shape() && Counted() && s < segs.Length && segs[s].used == 0
      ensures Base(s, Size()) + Size() <= bits.Length
      ensures forall p :: Base(s, Size()) <= p < Base(s, Size()) + Size() ==> !bits[p]
    {
      assert WindowOk(segs[..], bits[..], s, pages, gap);
      forall p | Base(s, Size()) <= p < Base(s, Size()) + Size() ensures !bits[p] {
        assert !Slice(bits[..], Base(s, Size()), Size())[p - Base(s, Size())];
      }
    }

    ghost function JobOf(v: nat): Job
      reads this`reserve, mapping, bits, oob, flash, segs
    {
      Job(N(), segs[..], reserve, Base(v, Size()), Base(reserve, Size()), Size(), pages, gap)
    }

    lemma {:induction false} JobStarts(v: nat)
      requires Shape() && N().Consistent() && Counted() && v < segs.Length && reserve < segs.Length && v != reserve
      requires segs[reserve] == Seg(0, 0, 0)
      ensures JobOf(v).Ok() && Gathering(JobOf(v), [], 0, [], [])
    {
      EmptySegment(reserve);
      BaseOrder(v, segs.Length, Size());
      if v < reserve {
        BaseOrder(v, reserve, Size());
      } else {
        BaseOrder(reserve, v, Size());
      }
      assert segs[..] == segs[..][reserve := Seg(0, 0, 0)];
    }

    /** One completed read-back of do_gc. */
    method CopyPage(v: nat, page: nat, gk: seq<nat>, gv: seq<Value>,
                    ghost job: Job, ghost src: seq<nat>, ghost moved: nat, ghost pending: set<nat>)
      returns (gk': seq<nat>, gv': seq<Value>, ghost src': seq<nat>, ghost moved': nat)
      requires Gathering(job, src, moved, gk, gv) && job.PagesLeft(src, pending) && page in pending
      requires job.from == Base(v, Size())
      modifies mapping, bits, oob, flash, segs
      ensures Gathering(job, src', moved', gk', gv') && job.PagesLeft(src', pending - {page})
    {
      BaseOrder(page, pages, gap);
      gk', gv', src', moved' := GatherPage(Base(v, Size()) + Base(page, gap), gk, gv, job, src, moved);
      job.PagesLeftStep(src, src', page, pending);
    }

    /** The last, possibly partial, page of do_gc. */
    method WriteRemainder(gk: seq<nat>, gv: seq<Value>, ghost job: Job, ghost src: seq<nat>, ghost moved: nat)
      requires Gathering(job, src, moved, gk, gv) && job.PagesLeft(src, {})
      modifies mapping, bits, oob, flash, segs
      ensures Counted() && job.Done(N(), src, segs[reserve]) && segs[..] == job.segs0[reserve := segs[reserve]]
    {
      if |gk| != 0 {
        ghost var used := segs[reserve].used;
        FlushGathered(gk, gv, job, src, moved);
        job.DoneAfterFlush(N(), segs[..], src, used);
      } else {
        job.DoneWhenEmpty(N(), segs[..], src, moved, gk, gv);
      }
    }

    /** The reading and copying part of do_gc; read-backs complete in any order. */
    method CopyLive(v: nat, ghost job: Job) returns (ghost src: seq<nat>)
      requires Shape() && v < segs.Length && job == JobOf(v) && Gathering(job, [], 0, [], [])
      modifies mapping, bits, oob, flash, segs
      ensures Counted() && job.Done(N(), src, segs[reserve]) && segs[..] == job.segs0[reserve := segs[reserve]]
    {
      var pending := PagesToRead(job, v);
      var gk, gv := [], [];
      ghost var moved := 0;
      src := [];
      while pending != {}
        invariant Gathering(job, src, moved, gk, gv) && job.PagesLeft(src, pending)
        decreases |pending|
      {
        var page :| page in pending;
        gk, gv, src, moved := CopyPage(v, page, gk, gv, job, src, moved, pending);
        pending := pending - {page};
      }
      WriteRemainder(gk, gv, job, src, moved);
    }

    /** get_gc_target: the candidate with the most invalid pieces. */
    method PickVictim() returns (v: nat)
      requires active in heap && forall s :: s in heap ==> s < segs.Length
      ensures v in heap && forall s :: s in heap ==> segs[s].invalid <= segs[v].invalid
    {
      v := active;
      var rest := heap;
      while rest != {}
        invariant rest <= heap && v in heap
        invariant forall s :: s in heap - rest ==> segs[s].invalid <= segs[v].invalid
        decreases |rest|
      {
        var s :| s in rest;
        if segs[s].invalid > segs[v].invalid {
          v := s;
        }
        rest := rest - {s};
      }
    }

    /** Copies the victim's live pieces to the reserve and erases it: every lba reads as before. */
    method Reclaim(v: nat) returns (ghost job: Job, ghost src: seq<nat>, ghost copied: Nand)
      requires Shape() && N().Consistent() && Counted() && v < segs.Length && reserve < segs.Length && v != reserve
      requires segs[reserve] == Seg(0, 0, 0)
      modifies mapping, bits, oob, flash, segs
      ensures N().Consistent() && Counted() && job == old(JobOf(v)) && job.Done(copied, src, segs[reserve])
      ensures forall l :: 0 <= l < mapping.Length ==> N().Lookup(l) == old(N()).Lookup(l)
      ensures Erased(copied, N(), job.from, job.size)
      ensures segs[..] == old(segs[..])[reserve := segs[reserve]][v := Seg(0, 0, 0)]
    {
      JobStarts(v);
      job := JobOf(v);
      src := CopyLive(v, job);
      copied := N();
      EraseVictim(v, job, src);
    }

    /** The victim's pieces are all elsewhere: erasing it changes no value. */
    method EraseVictim(v: nat, ghost job: Job, ghost src: seq<nat>)
      requires Shape() && Counted() && v < segs.Length && reserve < segs.Length && v != reserve
      requires job.Done(N(), src, segs[reserve]) && job.from == Base(v, Size()) && job.size == Size()
      requires |job.n0.mapping| == mapping.Length
      modifies bits, oob, segs
      ensures N().Consistent() && Counted() && Erased(old(N()), N(), job.from, job.size)
      ensures forall l :: 0 <= l < mapping.Length ==> N().Lookup(l) == job.n0.Lookup(l)
      ensures segs[..] == old(segs[..])[v := Seg(0, 0, 0)]
    {
      ghost var copied, target := N(), segs[reserve];
      Erase(v);
      job.EraseKeeps(copied, N(), src, target);
    }

    /** do_gc, up to the exchange of the segments. */
    method Collect() returns (v: nat, ghost job: Job, ghost src: seq<nat>, ghost copied: Nand)
      requires Core() && segs[active].used == pages && freeQ == []
      modifies mapping, bits, oob, flash, segs
      ensures N().Consistent() && Counted() && Allocated(segs[..], [], heap - {v} + {reserve}, reserve, v, pages, gap)
      ensures forall l :: 0 <= l < mapping.Length ==> N().Lookup(l) == old(N()).Lookup(l)
      ensures v < segs.Length && job == old(JobOf(v)) && job.Done(copied, src, segs[reserve])
      ensures Erased(copied, N(), job.from, job.size)
      ensures Roomy(mapping.Length, segs.Length, pages, gap) ==> segs[reserve].used < pages
      ensures old(MostInvalid(v)) && (segs[reserve].used == pages <==> old(Live(v)) > Base(pages - 1, gap))
      ensures segs[..] == old(segs[..])[reserve := segs[reserve]][v := Seg(0, 0, 0)]
    {
      v := PickVictim();
      ghost var sg := segs[..];
      assert forall s :: 0 <= s < segs.Length && s != reserve ==> sg[s].used == pages && Filled(sg[s], gap);
      assert MostInvalid(v) && Live(v) == sg[v].valid - sg[v].invalid;
      job, src, copied := Reclaim(v);
      VictimRoom(job, sg, v, src, segs[reserve]);
      AllocatedAfterGc(sg, segs[..], heap, active, reserve, pages, gap, v);
    }

    /** A candidate with the most invalid pieces, one of which get_gc_target returns. */
    ghost predicate MostInvalid(v: nat)
      reads this, segs
    {
      v in heap && v < segs.Length && forall s :: s in heap && s < segs.Length ==> segs[s].invalid <= segs[v].invalid
    }

    /** Valid pieces of a segment, by its counters. */
    function Live(v: nat): int
      requires v < segs.Length
      reads segs
    {
      segs[v].valid - segs[v].invalid
    }

    /** No page is to be had without a collection, and the victim's live pieces fill the reserve to its last page. */
    ghost predicate Stuck(v: nat)
      requires active < segs.Length && v < segs.Length
      reads this, segs
    {
      segs[active].used == pages && freeQ == [] && pages > 0 && Live(v) > Base(pages - 1, gap)
    }

    /** do_gc. The reserve becomes active and the erased victim becomes the reserve. */
    method Gc() returns (ghost victim: nat)
      requires Core() && segs[active].used == pages && freeQ == []
      modifies this`heap, this`active, this`reserve, this`freeQ, mapping, bits, oob, flash, segs
      ensures Core() && freeQ == []
      ensures forall l :: 0 <= l < mapping.Length ==> N().Lookup(l) == old(N()).Lookup(l)
      ensures Roomy(mapping.Length, segs.Length, pages, gap) ==> segs[active].used < pages
      ensures old(MostInvalid(victim)) && (segs[active].used == pages <==> old(Live(victim)) > Base(pages - 1, gap))
      ensures old(Snap()).Collected(Snap(), victim)
    {
      ghost var job, src, copied;
      var v;
      v, job, src, copied := Collect();
      victim := v;
      heap := heap - {v} + {reserve};
      active := reserve;
      freeQ := freeQ + [v];
      reserve := freeQ[0];
      freeQ := freeQ[1..];
      assert freeQ == [];
    }

    /** The room the copies of the victim leave in the former reserve. */
    lemma {:induction false} VictimRoom(job: Job, sg: seq<Seg>, v: nat, src: seq<nat>, target: Seg)
      requires job.Ok() && sg == job.segs0 && SegsOk(sg, job.n0.bits, pages, gap) && v < |sg| && v != job.reserve
      requires job.pages == pages && job.gap == gap && job.from == Base(v, Size())
      requires |src| == Ones(Slice(job.n0.bits, job.from, job.size)) && pages > 0
      requires target.used <= pages && target.valid == |src| && Filled(target, gap)
      requires forall s :: 0 <= s < |sg| && s != job.reserve ==> sg[s].used == pages && Filled(sg[s], gap)
      requires forall s :: 0 <= s < |sg| && s != job.reserve ==> sg[s].invalid <= sg[v].invalid
      ensures Roomy(|job.n0.mapping|, |sg|, pages, gap) ==> target.used < pages
      ensures target.used == pages <==> sg[v].valid - sg[v].invalid > Base(pages - 1, gap)
    {
      assert WindowOk(sg, job.n0.bits, v, pages, gap);
      if target.used < pages {
        BaseOrder(target.used, pages, gap);
      }
      if Roomy(|job.n0.mapping|, |sg|, pages, gap) {
        VictimLeavesAPage(job.n0, sg, pages, gap, job.reserve, v);
      }
    }

    // ----- writing

    /** What a read of l returns: the write buffer first, then the flash. */
    ghost function View(l: nat): Found
      requires Valid() && l < mapping.Length
      reads this, mapping, bits, oob, flash, segs
    {
      if l in keys then Buffer(keys, vals, l) else N().Lookup(l)
    }

    /** base is a page of unset bits, the last one handed out by the active segment; all but its validation is done. */
    ghost predicate FreshPage(base: int)
      reads this, bits, segs
    {
      && Shape() && Counted() && active < segs.Length && segs[active].used > 0
      && base == Base(active, Size()) + Base(segs[active].used - 1, gap)
      && base + gap <= bits.Length && Base(segs[active].used, gap) <= Size()
      && (forall p :: base <= p < base + gap ==> !bits[p])
      && Allocated(segs[..][active := segs[active].(valid := segs[active].valid + gap)],
                   freeQ, heap, active, reserve, pages, gap)
    }

    /** get_page_addr on an active segment that is not full. */
    method NextPage() returns (base: int)
      requires Shape() && Counted() && Allocated(segs[..], freeQ, heap, active, reserve, pages, gap)
      requires segs[active].used < pages
      modifies segs
      ensures FreshPage(base)
    {
      BeyondUsed(active);
      AllocatedPage(segs[..], freeQ, heap, active, reserve, pages, gap);
      ghost var sg := segs[..];
      base := GetPage(active);
      assert segs[..][active := segs[active].(valid := segs[active].valid + gap)]
          == sg[active := sg[active].(used := sg[active].used + 1, valid := sg[active].valid + gap)];
    }

    /**
     * The page that get_ppa takes, collecting first when the active segment is full and no segment is free. The
     * result -1 stands for the null segment that the source would then dereference: it is met exactly when the victim,
     * one with the most invalid pieces, has so many live ones that the collection ends with a full segment.
     */
    method TakePage() returns (base: int, ghost victim: nat)
      requires Core()
      modifies this`heap, this`active, this`reserve, this`freeQ, mapping, bits, oob, flash, segs
      ensures old(MostInvalid(victim)) && (base == -1 <==> old(Stuck(victim)))
      ensures base == -1 ==> old(Snap()).Collected(Snap(), victim) && active < segs.Length && segs[active].used == pages
      ensures Roomy(mapping.Length, segs.Length, pages, gap) ==> base != -1
      ensures base != -1 ==> FreshPage(base) && N().Consistent()
                             && forall l :: 0 <= l < mapping.Length ==> N().Lookup(l) == old(N()).Lookup(l)
    {
      victim := PickVictim();
      if segs[active].used == pages && freeQ == [] {
        victim := Gc();
      }
      assert WindowOk(segs[..], bits[..], active, pages, gap);
      if segs[active].used == pages {
        if freeQ == [] {
          base := -1;
          return;
        }
        AllocatedNextActive(segs[..], freeQ, heap, active, reserve, pages, gap);
        heap := heap + {freeQ[0]};
        active := freeQ[0];
        freeQ := freeQ[1..];
      }
      base := NextPage();
    }

    /** get_ppa: take a page and validate it for the given lbas. */
    method GetPpa(lbas: seq<nat>) returns (base: int, ghost before: Nand, ghost victim: nat)
      requires Core() && |lbas| == gap && DistinctKeys(lbas, mapping.Length)
      modifies this`heap, this`active, this`reserve, this`freeQ, mapping, bits, oob, flash, segs
      ensures old(MostInvalid(victim)) && (base == -1 <==> old(Stuck(victim)))
      ensures base == -1 ==> old(Snap()).Collected(Snap(), victim) && active < segs.Length && segs[active].used == pages
      ensures Roomy(mapping.Length, segs.Length, pages, gap) ==> base != -1
      ensures base != -1 ==>
                && base >= 0 && Counted() && Allocated(segs[..], freeQ, heap, active, reserve, pages, gap)
                && before.Consistent() && Validated(before, N(), base, lbas)
                && |before.mapping| == mapping.Length
                && (forall p :: base <= p < base + gap ==> !before.bits[p])
                && forall l :: 0 <= l < mapping.Length ==> before.Lookup(l) == old(N()).Lookup(l)
    {
      base, victim := TakePage();
      before := N();
      if base != -1 {
        ValidateFreshPage(base, lbas);
      }
    }

    method ValidateFreshPage(base: nat, lbas: seq<nat>)
      requires FreshPage(base) && |lbas| == gap && DistinctKeys(lbas, mapping.Length)
      modifies bits, oob, segs
      ensures Counted() && Allocated(segs[..], freeQ, heap, active, reserve, pages, gap)
      ensures Validated(old(N()), N(), base, lbas)
    {
      ghost var o := Base(segs[active].used - 1, gap);
      Validate(base, lbas, active, o);
    }

    /** The mapping loop of page_map_assign. */
    method AssignAll(base: nat, lbas: seq<nat>)
      requires Shape() && Counted() && Allocated(segs[..], freeQ, heap, active, reserve, pages, gap)
      requires Assigning(N(), base, lbas, 0)
      modifies mapping, bits, segs
      ensures Counted() && Allocated(segs[..], freeQ, heap, active, reserve, pages, gap)
      ensures Assigning(N(), base, lbas, |lbas|)
      ensures forall l :: 0 <= l < mapping.Length && l !in lbas ==> mapping[l] == old(mapping[l])
    {
      var i := 0;
      while i < |lbas|
        invariant i <= |lbas| && Counted() && Allocated(segs[..], freeQ, heap, active, reserve, pages, gap)
        invariant Assigning(N(), base, lbas, i)
        invariant forall l :: 0 <= l < mapping.Length && l !in lbas ==> mapping[l] == old(mapping[l])
      {
        AssignNext(base, lbas, i);
        i := i + 1;
      }
    }

    /** One round: invalidate the former piece of the lba, map the lba to the new one. */
    method AssignNext(base: nat, lbas: seq<nat>, i: nat)
      requires Shape() && Counted() && Allocated(segs[..], freeQ, heap, active, reserve, pages, gap)
      requires Assigning(N(), base, lbas, i) && i < |lbas|
      modifies mapping, bits, segs
      ensures Counted() && Allocated(segs[..], freeQ, heap, active, reserve, pages, gap)
      ensures Assigning(N(), base, lbas, i + 1) && N() == AssignOne(old(N()), base + i, lbas[i])
    {
      ghost var sg := segs[..];
      AssignStep(N(), base, lbas, i);
      var lba := lbas[i];
      if mapping[lba].At? {
        BitUnset(mapping[lba].piece);
        AllocatedInvalidate(sg, segs[..], freeQ, heap, active, reserve, pages, gap);
      }
      mapping[lba] := At(base + i);
    }

    /** A full align buffer goes to flash: page_map_assign, then the device write. */
    method WriteOut(lbas: seq<nat>, data: seq<Value>) returns (ok: bool, ghost victim: nat)
      requires Core() && |lbas| == |data| == gap && DistinctKeys(lbas, mapping.Length)
      modifies this`heap, this`active, this`reserve, this`freeQ, mapping, bits, oob, flash, segs
      ensures old(MostInvalid(victim)) && (!ok <==> old(Stuck(victim)))
      ensures !ok ==> old(Snap()).Collected(Snap(), victim) && active < segs.Length && segs[active].used == pages
      ensures Roomy(mapping.Length, segs.Length, pages, gap) ==> ok
      ensures ok ==> Core()
                     && (forall j :: 0 <= j < |lbas| ==> N().Lookup(lbas[j]) == Hit(data[j]))
                     && forall l :: 0 <= l < mapping.Length && l !in lbas ==> N().Lookup(l) == old(N()).Lookup(l)
    {
      ghost var before;
      var base;
      base, before, victim := GetPpa(lbas);
      ok := base != -1;
      if !ok {
        return;
      }
      ValidateFresh(before, N(), base, lbas);
      AssignAll(base, lbas);
      ghost var n := N();
      Program(base, data);
      ProgramEffect(before, n, N(), base, lbas, data);
    }

    /** The buffer half of align_buffering: over the former value of the key, or at the end. */
    method PutInBuffer(key: nat, value: Value)
      requires |keys| == |vals| < gap && DistinctKeys(keys, mapping.Length) && key < mapping.Length
      modifies this`keys, this`vals
      ensures |keys| == |vals| <= gap && DistinctKeys(keys, mapping.Length)
      ensures (|keys| == gap <==> old(FillsBuffer(key)))
      ensures key !in old(keys) ==> keys == old(keys) + [key] && vals == old(vals) + [value]
      ensures forall l :: l in keys <==> l in old(keys) || l == key
      ensures forall l :: l in keys ==>
          Buffer(keys, vals, l) == if l == key then Hit(value) else Buffer(old(keys), old(vals), l)
    {
      var i := 0;
      while i < |keys| && keys[i] != key
        invariant i <= |keys| && key !in keys[..i]
      {
        i := i + 1;
      }
      if i < |keys| {
        vals := vals[i := value];
      } else {
        keys, vals := keys + [key], vals + [value];
      }
      Override(old(keys), old(vals), keys, vals, key, value, mapping.Length);
    }

    /** The write of key completes a page in the align buffer. */
    ghost predicate FillsBuffer(key: nat)
      reads this
    {
      key !in keys && |keys| + 1 == gap
    }

    /**
     * page_write through align_buffering. The result false stands for the crash of a collection that found no room: it
     * comes exactly when the write fills the buffer and the victim leaves no page. With spare space it does not occur.
     */
    method Write(key: nat, value: Value) returns (ok: bool, ghost victim: nat)
      requires Valid() && key < mapping.Length
      modifies this, mapping, bits, oob, flash, segs
      ensures old(MostInvalid(victim)) && (!ok <==> old(FillsBuffer(key) && Stuck(victim)))
      ensures !ok ==> old(Snap()).Wedged(Snap(), victim, key, value)
      ensures Roomy(mapping.Length, segs.Length, pages, gap) ==> ok
      ensures ok ==> Valid() && forall l :: 0 <= l < mapping.Length ==>
          View(l) == if l == key then Hit(value) else old(View(l))
    {
      PutInBuffer(key, value);
      ok := true;
      victim := PickVictim();
      if |keys| == gap {
        ghost var keys1, vals1 := keys, vals;
        ok, victim := FlushBuffer();
        assert ok ==> forall l :: 0 <= l < mapping.Length ==>
                        View(l) == if l in keys1 then Buffer(keys1, vals1, l) else old(N()).Lookup(l);
      }
    }

    /** The full buffer is written out and starts empty. */
    method FlushBuffer() returns (ok: bool, ghost victim: nat)
      requires Core() && |keys| == |vals| == gap && DistinctKeys(keys, mapping.Length)
      modifies this, mapping, bits, oob, flash, segs
      ensures old(MostInvalid(victim)) && (!ok <==> old(Stuck(victim)))
      ensures !ok ==> old(Snap()).Collected(Snap(), victim) && active < segs.Length && segs[active].used == pages
      ensures !ok ==> keys == old(keys) && vals == old(vals)
      ensures Roomy(mapping.Length, segs.Length, pages, gap) ==> ok
      ensures ok ==> Valid() && keys == []
      ensures ok ==> forall l :: 0 <= l < mapping.Length ==>
                       N().Lookup(l) == if l in old(keys) then Buffer(old(keys), old(vals), l) else old(N()).Lookup(l)
    {
      ghost var keys1, vals1 := keys, vals;
      ok, victim := WriteOut(keys, vals);
      if !ok {
        return;
      }
      keys, vals := [], [];
      forall l | 0 <= l < mapping.Length && l in keys1 ensures N().Lookup(l) == Buffer(keys1, vals1, l) {
        assert N().Lookup(keys1[IndexOf(keys1, l)]) == Hit(vals1[IndexOf(keys1, l)]);
      }
    }

    /** page_read */
    method Read(key: nat) returns (r: Found)
      requires Valid() && key < mapping.Length
      ensures r == View(key)
    {
      var i := 0;
      while i < |keys|
        invariant i <= |keys| && key !in keys[..i]
      {
        if keys[i] == key {
          return Hit(vals[i]);
        }
        i := i + 1;
      }
      match mapping[key]
      case Unmapped => return NotFound;
      case At(piece) => return Hit(flash[piece]);
    }

    /** page_map_trim, which page_remove no longer reaches. */
    method TrimLba(key: nat) returns (r: nat)
      requires Valid() && key < mapping.Length
      modifies mapping, bits, segs
      ensures Valid() && r == if old(N()).Lookup(key) == NotFound then 0 else 1
      ensures forall l :: 0 <= l < mapping.Length ==> N().Lookup(l) == if l == key then NotFound else old(N()).Lookup(l)
    {
      match mapping[key]
      case Unmapped => return 0;
      case At(piece) =>
        ghost var sg := segs[..];
        BitUnset(piece);
        AllocatedInvalidate(sg, segs[..], freeQ, heap, active, reserve, pages, gap);
        mapping[key] := Unmapped;
        return 1;
    }

    // ----- whole runs

    /** The FTL holds exactly the values of m. */
    ghost predicate Shows(m: map<nat, Value>)
      reads this, mapping, bits, oob, flash, segs
    {
      Valid() && forall l :: 0 <= l < mapping.Length ==> View(l) == Answer(m, l)
    }

    /** The state between two requests, as a value. */
    ghost function Snap(): Snapshot
      reads this, mapping, bits, oob, flash, segs
    {
      Snapshot(N(), segs[..], freeQ, heap, active, reserve, pages, gap, keys, vals)
    }

    /** One request of a run. It fails exactly when it is a write that fills the buffer on a stuck device. */
    method ServeOne(req: Request, ghost m: map<nat, Value>) returns (ok: bool, answer: seq<Found>, ghost victim: nat)
      requires Shows(m) && req.lba < mapping.Length
      modifies this, mapping, bits, oob, flash, segs
      ensures Roomy(mapping.Length, segs.Length, pages, gap) ==> ok
      ensures ok ==> Shows(Next(m, req)) && answer == AnswerTo(m, req)
      ensures old(MostInvalid(victim)) && (!ok <==> req.Put? && old(FillsBuffer(req.lba) && Stuck(victim)))
      ensures !ok ==> old(Snap()).Wedged(Snap(), victim, req.lba, req.value)
    {
      ok, answer := true, [];
      victim := PickVictim();
      match req {
        case Put(lba, value) => ok, victim := Write(lba, value);
        case Get(lba) =>
          var r := Read(lba);
          answer := [r];
        case Remove(_) =>
      }
    }

    /**
     * Serves a list of requests: the reads answer as a map of the values written last. It stops only at a write that
     * fills the buffer while the victim of the collection leaves no page: at is the state that write found, and the
     * device is left as the collection left it, with nothing lost.
     */
    method Serve(reqs: seq<Request>, ghost m: map<nat, Value>)
      returns (ok: bool, served: nat, answers: seq<Found>, ghost at: Snapshot, ghost victim: nat)
      requires Shows(m) && forall i :: 0 <= i < |reqs| ==> reqs[i].lba < mapping.Length
      modifies this, mapping, bits, oob, flash, segs
      ensures served <= |reqs| && (ok <==> served == |reqs|) && answers == Answers(m, reqs[..served])
      ensures ok ==> Shows(After(m, reqs))
      ensures Roomy(mapping.Length, segs.Length, pages, gap) ==> ok
      ensures !ok ==> reqs[served].Put? && at.Ok() && at.Shows(After(m, reqs[..served]))
      ensures !ok ==> at.Fails(reqs[served].lba, victim)
      ensures !ok ==> at.Wedged(Snap(), victim, reqs[served].lba, reqs[served].value)
    {
      ok, served, answers, at, victim := true, 0, [], Snap(), 0;
      while served < |reqs|
        invariant served <= |reqs| && Shows(After(m, reqs[..served])) && answers == Answers(m, reqs[..served]) && ok
      {
        assert reqs[..served + 1][..served] == reqs[..served];
        at := Snap();
        SnapShows(After(m, reqs[..served]));
        var answer;
        ok, answer, victim := ServeOne(reqs[served], After(m, reqs[..served]));
        if !ok {
          return;
        }
        answers := answers + answer;
        served := served + 1;
      }
      assert reqs[..served] == reqs;
    }

    /** What holds of the state holds of its snapshot. */
    lemma {:induction false} SnapShows(m: map<nat, Value>)
      requires Shows(m)
      ensures Snap().Shows(m) && Snap().Ok()
      ensures forall v, lba :: MostInvalid(v) && FillsBuffer(lba) && Stuck(v) ==> Snap().Fails(lba, v)
    {
      forall l | 0 <= l < mapping.Length ensures Snap().View(l) == Answer(m, l) {
        assert View(l) == Answer(m, l);
      }
    }
  }

  /** The device with its tables, the segments with their roles, and the align buffer. */
  datatype Snapshot = Snapshot(n: Nand, segs: seq<Seg>, freeQ: seq<nat>, heap: set<nat>, active: nat,
                               reserve: nat, pages: nat, gap: nat, keys: seq<nat>, vals: seq<Value>)
  {
    ghost function View(l: nat): Found
      requires |keys| == |vals| && n.Consistent() && l < |n.mapping|
    {
      if l in keys then Buffer(keys, vals, l) else n.Lookup(l)
    }

    ghost predicate Shows(m: map<nat, Value>) {
      |keys| == |vals| && n.Consistent() && forall l :: 0 <= l < |n.mapping| ==> View(l) == Answer(m, l)
    }

    /** Counters, roles and buffer are as on every device between two requests. */
    ghost predicate Ok() {
      && gap > 0 && n.Consistent() && SegsOk(segs, n.bits, pages, gap)
      && Allocated(segs, freeQ, heap, active, reserve, pages, gap)
      && |keys| == |vals| < gap && DistinctKeys(keys, |n.mapping|)
    }

    /** The collection of v: it becomes the reserve, the former reserve has its pieces, and all lbas read as before. */
    ghost predicate Collected(s: Snapshot, v: nat) {
      && s.pages == pages && s.gap == gap && s.freeQ == freeQ == []
      && s.active == reserve && s.reserve == v && s.heap == heap - {v} + {reserve}
      && reserve < |segs| == |s.segs| && v < |segs|
      && s.segs == segs[reserve := s.segs[reserve]][v := Seg(0, 0, 0)]
      && |s.n.mapping| == |n.mapping| && n.Consistent() && s.n.Consistent()
      && forall l :: 0 <= l < |n.mapping| ==> s.n.Lookup(l) == n.Lookup(l)
    }

    /** The write of key is in the full buffer, and the collection of v left no page for it. */
    ghost predicate Wedged(s: Snapshot, v: nat, key: nat, value: Value) {
      && Collected(s, v) && s.segs[s.active].used == s.pages
      && s.keys == keys + [key] && s.vals == vals + [value]
    }

    /** A write of lba fills the buffer, no page is to be had without a collection, and its victim leaves none. */
    ghost predicate Fails(lba: nat, v: nat) {
      && lba !in keys && |keys| + 1 == gap
      && active < |segs| && segs[active].used == pages && freeQ == [] && pages > 0
      && v in heap && v < |segs| && (forall s :: s in heap && s < |segs| ==> segs[s].invalid <= segs[v].invalid)
      && segs[v].valid - segs[v].invalid > Base(pages - 1, gap)
    }
  }

  /** With two segments of one page of one piece, a written lba leaves no room for another write. */
  lemma {:induction false} TinyIsStuck(f: Ftl, v: nat)
    requires f.Valid() && f.segs.Length == 2 && f.pages == 1 && f.gap == 1 && f.mapping.Length == 1
    requires f.N().Lookup(0) != NotFound && v in f.heap
    ensures f.active < 2 && v < 2 && f.Stuck(v)
  {
    var p := f.mapping[0].piece;
    assert f.N().mapping[0] == At(p);
    OneValidPiece(f.segs[..], f.bits[..], p);
    OnlyCandidate(f.segs[..], f.freeQ, f.heap, f.active, f.reserve, p);
  }

  /** The counters of a segment of one piece that is valid. */
  lemma {:induction false} OneValidPiece(segs: seq<Seg>, bits: seq<bool>, p: nat)
    requires |segs| == 2 && SegsOk(segs, bits, 1, 1) && p < |bits| && bits[p]
    ensures p < 2 && segs[p].used == 1 && segs[p].valid - segs[p].invalid == 1
  {
    BaseIsProduct(2, 1);
    BaseIsProduct(1, 1);
    BaseIsProduct(p, 1);
    assert WindowOk(segs, bits, p, 1, 1);
    OneTrue(Slice(bits, p, 1));
    assert segs[p].used != 0;
  }

  lemma {:induction false} OneTrue(w: seq<bool>)
    requires |w| == 1 && w[0]
    ensures Ones(w) == 1
  {
    assert w[1..] == [];
  }

  lemma {:induction false} OnlyCandidate(segs: seq<Seg>, freeQ: seq<nat>, heap: set<nat>, active: nat, reserve: nat,
                                         p: nat)
    requires |segs| == 2 && Allocated(segs, freeQ, heap, active, reserve, 1, 1) && p < 2 && segs[p].used == 1
    ensures heap == {p} && active == p && freeQ == []
  {
    assert p != reserve && p !in freeQ;
    assert p in heap;
    FirstIsThere(freeQ);
  }

  lemma {:induction false} FirstIsThere(q: seq<nat>)
    ensures q == [] || q[0] in q
  {
  }

  /** One lba on such a device: the second write meets the null segment. */
  method SecondWriteFails(first: Value, second: Value) returns (ok: bool, again: bool)
    ensures ok && !again
  {
    var f := new Ftl(1, 2, 1, 1);
    ghost var victim;
    ok, victim := f.Write(0, first);
    assert f.View(0) == Hit(first);
    forall v | v in f.heap ensures f.active < 2 && v < 2 && f.Stuck(v) {
      TinyIsStuck(f, v);
    }
    again, victim := f.Write(0, second);
  }

  /** Remove is page_remove, which ends the request and does nothing else. */
  datatype Request = Put(lba: nat, value: Value) | Get(lba: nat) | Remove(lba: nat)

  ghost function Answer(m: map<nat, Value>, l: nat): Found {
    if l in m then Hit(m[l]) else NotFound
  }

  /** A request on the map of values. */
  ghost function Next(m: map<nat, Value>, req: Request): map<nat, Value> {
    match req
    case Put(lba, value) => m[lba := value]
    case _ => m
  }

  ghost function AnswerTo(m: map<nat, Value>, req: Request): seq<Found> {
    match req
    case Get(lba) => [Answer(m, lba)]
    case _ => []
  }

  ghost function After(m: map<nat, Value>, reqs: seq<Request>): map<nat, Value>
    decreases |reqs|
  {
    if reqs == [] then m else Next(After(m, reqs[..|reqs| - 1]), reqs[|reqs| - 1])
  }

  ghost function Answers(m: map<nat, Value>, reqs: seq<Request>): seq<Found>
    decreases |reqs|
  {
    if reqs == [] then []
    else
      var init := reqs[..|reqs| - 1];
      Answers(m, init) + AnswerTo(After(m, init), reqs[|reqs| - 1])
  }

  /** What the align buffer holds for l. */
  ghost function Buffer(keys: seq<nat>, vals: seq<Value>, l: nat): Found
    requires |keys| == |vals|
  {
    if l in keys then Hit(vals[IndexOf(keys, l)]) else NotFound
  }

  /** Putting a key into the buffer, over its former value or at the end. */
  lemma {:induction false} Override(keys: seq<nat>, vals: seq<Value>, keys': seq<nat>, vals': seq<Value>, key: nat,
                                    value: Value, range: nat)
    requires |keys| == |vals| && DistinctKeys(keys, range) && key < range
    requires if key in keys then keys' == keys && vals' == vals[IndexOf(keys, key) := value]
             else keys' == keys + [key] && vals' == vals + [value]
    ensures DistinctKeys(keys', range) && |keys'| == |vals'|
    ensures forall l :: l in keys' <==> l in keys || l == key
    ensures forall l :: l in keys' ==> Buffer(keys', vals', l) == if l == key then Hit(value) else Buffer(keys, vals, l)
  {
    forall l | l in keys'
      ensures Buffer(keys', vals', l) == if l == key then Hit(value) else Buffer(keys, vals, l)
    {
      var j := IndexOf(keys', l);
      if l in keys {
        assert keys[IndexOf(keys, l)] == l;
      }
    }
  }

  function IndexOf(keys: seq<nat>, l: nat): (i: nat)
    requires l in keys
    ensures i < |keys| && keys[i] == l
  {
    if keys[0] == l then 0 else 1 + IndexOf(keys[1..], l)
  }

  lemma {:induction false} BasePositive(pages: nat, gap: nat)
    requires pages > 0 && gap > 0
    ensures Base(pages, gap) > 0
  {
  }
}
