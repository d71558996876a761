/**
 * The block manager's bookkeeping: how many pages of a segment are handed out and how many of its pieces were
 * validated and invalidated (include/container.h:225-234, blockmanager/sequential/seq_block_manager.c).
 */
module FlashSegments {
  import opened Layout
  import opened FlashMap

  /** used_page_num, validate_piece_num, invalidate_piece_num */
  datatype Seg = Seg(used: nat, valid: int, invalid: int)

  function Ones(s: seq<bool>): nat {
    if s == [] then 0 else (if s[0] then 1 else 0) + Ones(s[1..])
  }

  lemma {:induction false} OnesStore(s: seq<bool>, i: nat, b: bool)
    requires i < |s|
    ensures Ones(s[i := b]) == Ones(s) + (if b then 1 else 0) - if s[i] then 1 else 0
  {
    if i == 0 {
      assert s[i := b][1..] == s[1..];
    } else {
      assert s[i := b][1..] == s[1..][i - 1 := b];
      OnesStore(s[1..], i - 1, b);
    }
  }

  lemma {:induction false} OnesConcat(a: seq<bool>, b: seq<bool>)
    ensures Ones(a + b) == Ones(a) + Ones(b)
    decreases |a|
  {
    if a == [] {
      assert a + b == b;
    } else {
      assert (a + b)[1..] == a[1..] + b;
      OnesConcat(a[1..], b);
    }
  }

  lemma {:induction false} OnesNone(s: seq<bool>)
    requires forall i :: 0 <= i < |s| ==> !s[i]
    ensures Ones(s) == 0
    decreases |s|
  {
    if s != [] {
      OnesNone(s[1..]);
    }
  }

  // ----- counters against bits

  /** A segment's counters account for its bits, and no piece beyond the handed-out pages is valid. */
  ghost predicate SegOk(seg: Seg, window: seq<bool>, pages: nat, gap: nat) {
    && seg.used <= pages && |window| == Base(pages, gap)
    && 0 <= seg.invalid && seg.valid - seg.invalid == Ones(window)
    && forall i :: Base(seg.used, gap) <= i < |window| ==> !window[i]
  }

  ghost predicate SegsOk(segs: seq<Seg>, bits: seq<bool>, pages: nat, gap: nat) {
    && |bits| == Base(|segs|, Base(pages, gap))
    && forall s :: 0 <= s < |segs| ==> WindowOk(segs, bits, s, pages, gap)
  }

  ghost predicate WindowOk(segs: seq<Seg>, bits: seq<bool>, s: nat, pages: nat, gap: nat)
    requires s < |segs|
  {
    var size := Base(pages, gap);
    Base(s, size) + size <= |bits| && SegOk(segs[s], Slice(bits, Base(s, size), size), pages, gap)
  }

  /** Changing one bit and the counters of its segment. */
  lemma {:induction false} SegsStore(segs: seq<Seg>, bits: seq<bool>, pages: nat, gap: nat, s: nat, o: nat, b: bool,
                                     seg: Seg)
    requires SegsOk(segs, bits, pages, gap) && s < |segs| && o < Base(pages, gap)
    requires Base(s, Base(pages, gap)) + o < |bits| && seg.used == segs[s].used && 0 <= seg.invalid
    requires b ==> o < Base(seg.used, gap)
    requires seg.valid - seg.invalid == segs[s].valid - segs[s].invalid
               + (if b then 1 else 0) - if bits[Base(s, Base(pages, gap)) + o] then 1 else 0
    ensures SegsOk(segs[s := seg], bits[Base(s, Base(pages, gap)) + o := b], pages, gap)
  {
    var size := Base(pages, gap);
    var bits' := bits[Base(s, size) + o := b];
    assert WindowOk(segs, bits, s, pages, gap);
    OnesStore(Slice(bits, Base(s, size), size), o, b);
    var segs' := segs[s := seg];
    forall j | 0 <= j < |segs'| ensures WindowOk(segs', bits', j, pages, gap) {
      assert WindowOk(segs, bits, j, pages, gap);
      SliceOfOther(bits, size, |segs|, s, o, j, b);
    }
  }

  /** Changing only a segment's counters, or its number of handed-out pages upwards. */
  lemma {:induction false} SegsUse(segs: seq<Seg>, bits: seq<bool>, pages: nat, gap: nat, s: nat)
    requires SegsOk(segs, bits, pages, gap) && s < |segs| && segs[s].used < pages
    ensures SegsOk(segs[s := segs[s].(used := segs[s].used + 1)], bits, pages, gap)
  {
    var segs' := segs[s := segs[s].(used := segs[s].used + 1)];
    BaseOrder(segs[s].used, segs'[s].used, gap);
    forall j | 0 <= j < |segs'| ensures WindowOk(segs', bits, j, pages, gap) {
      assert WindowOk(segs, bits, j, pages, gap);
    }
  }

  /** Erasing a segment. */
  lemma {:induction false} SegsErase(segs: seq<Seg>, n: Nand, n': Nand, pages: nat, gap: nat, s: nat)
    requires SegsOk(segs, n.bits, pages, gap) && s < |segs|
    requires Erased(n, n', Base(s, Base(pages, gap)), Base(pages, gap))
    ensures SegsOk(segs[s := Seg(0, 0, 0)], n'.bits, pages, gap)
  {
    var size := Base(pages, gap);
    var segs' := segs[s := Seg(0, 0, 0)];
    forall j | 0 <= j < |segs'| ensures WindowOk(segs', n'.bits, j, pages, gap) {
      assert WindowOk(segs, n.bits, j, pages, gap);
      if j < s {
        BaseOrder(j, s, size);
      } else if s < j {
        BaseOrder(s, j, size);
      } else {
        OnesNone(Slice(n'.bits, Base(s, size), size));
      }
      assert j != s ==> Slice(n'.bits, Base(j, size), size) == Slice(n.bits, Base(j, size), size);
    }
  }

  /** Distinct positions from base on that are exactly the set bits of a window: as many as there are set bits. */
  lemma {:induction false} OnesListed(window: seq<bool>, base: nat, src: seq<nat>)
    requires forall j :: 0 <= j < |src| ==> base <= src[j] < base + |window|
    requires forall i, j :: 0 <= i < j < |src| ==> src[i] != src[j]
    requires forall i :: 0 <= i < |window| ==> (window[i] <==> base + i in src)
    ensures Ones(window) == |src|
    decreases |src|
  {
    if src == [] {
      OnesNone(window);
    } else {
      var init, o := src[..|src| - 1], src[|src| - 1] - base;
      var w := window[o := false];
      forall i | 0 <= i < |w| ensures w[i] <==> base + i in init {
        if i != o && base + i in src {
          var j :| 0 <= j < |src| && src[j] == base + i;
          assert init[j] == base + i;
        }
      }
      OnesListed(w, base, init);
      OnesStore(window, o, false);
      assert src[|src| - 1] in src;
    }
  }

  lemma {:induction false} OnesAtMostAll(s: seq<bool>)
    ensures Ones(s) <= |s|
  {
    if s != [] {
      OnesAtMostAll(s[1..]);
    }
  }

  /** Distinct positions within size places are no more than size. */
  lemma {:induction false} DistinctFit(base: nat, size: nat, src: seq<nat>)
    requires forall j :: 0 <= j < |src| ==> base <= src[j] < base + size
    requires forall i, j :: 0 <= i < j < |src| ==> src[i] != src[j]
    ensures |src| <= size
  {
    var window := seq(size, i requires 0 <= i < size => base + i in src);
    OnesListed(window, base, src);
    OnesAtMostAll(window);
  }

  // ----- no more valid pieces than lbas

  /** The valid pieces that belong to the first k lbas. */
  ghost function BelongBelow(n: Nand, k: nat): seq<bool>
    requires n.Sized()
  {
    seq(|n.bits|, p requires 0 <= p < |n.bits| => n.bits[p] && n.oob[p] < k)
  }

  lemma {:induction false} OnesBelow(n: Nand, k: nat)
    requires n.Consistent() && k <= |n.mapping|
    ensures Ones(BelongBelow(n, k)) <= k
  {
    var b := BelongBelow(n, k);
    if k == 0 {
      OnesNone(b);
    } else {
      var b1 := BelongBelow(n, k - 1);
      OnesBelow(n, k - 1);
      if n.mapping[k - 1].At? {
        var p := n.mapping[k - 1].piece;
        assert b == b1[p := true];
        OnesStore(b1, p, true);
      } else {
        assert b == b1;
      }
    }
  }

  lemma {:induction false} ValidAtMostRange(n: Nand)
    requires n.Consistent()
    ensures Ones(n.bits) <= |n.mapping|
  {
    OnesBelow(n, |n.mapping|);
    assert BelongBelow(n, |n.mapping|) == n.bits;
  }

  // ----- room for garbage collection

  /** Between operations every segment wastes less than one page: only the last page that GC wrote may be partial. */
  ghost predicate Filled(seg: Seg, gap: nat) {
    Base(seg.used, gap) - gap < seg.valid <= Base(seg.used, gap)
  }

  lemma {:induction false} SumOfWindows(bits: seq<bool>, size: nat, n: nat, low: nat, skip: nat)
    requires Base(n, size) <= |bits|
    requires forall s :: 0 <= s < n && s != skip ==>
               Base(s, size) + size <= |bits| && Ones(Slice(bits, Base(s, size), size)) >= low
    ensures Ones(bits[..Base(n, size)]) >= Base(if skip < n then n - 1 else n, low)
  {
    if n > 0 {
      var b := Base(n - 1, size);
      SumOfWindows(bits, size, n - 1, low, skip);
      assert bits[..Base(n, size)] == bits[..b] + Slice(bits, b, size);
      OnesConcat(bits[..b], Slice(bits, b, size));
    }
  }

  /**
   * The spare space that keeps garbage collection going: all segments but the reserve, each short of two partial
   * pages, hold more pieces than there are lbas.
   */
  predicate Roomy(range: nat, segments: nat, pages: nat, gap: nat) {
    segments > 0 && gap > 0 && range + 2 * Base(segments - 1, gap - 1) < Base(segments - 1, Base(pages, gap))
  }

  lemma {:induction false} WindowNearlyFull(segs: seq<Seg>, bits: seq<bool>, s: nat, pages: nat, gap: nat)
    requires gap > 0 && SegsOk(segs, bits, pages, gap) && s < |segs|
    requires segs[s].used == pages && Filled(segs[s], gap) && segs[s].invalid < gap
    ensures var size := Base(pages, gap);
            Base(s, size) + size <= |bits| && Ones(Slice(bits, Base(s, size), size)) >= size - 2 * (gap - 1)
  {
    assert WindowOk(segs, bits, s, pages, gap);
  }

  /** Full segments with less than a page of invalid pieces each are nearly full of valid ones. */
  lemma {:induction false} NearlyAllValid(bits: seq<bool>, segs: seq<Seg>, pages: nat, gap: nat, reserve: nat)
    requires gap > 0 && SegsOk(segs, bits, pages, gap) && reserve < |segs|
    requires forall s :: 0 <= s < |segs| && s != reserve ==>
               segs[s].used == pages && Filled(segs[s], gap) && segs[s].invalid < gap
    ensures Ones(bits) + 2 * Base(|segs| - 1, gap - 1) >= Base(|segs| - 1, Base(pages, gap))
  {
    var size, w := Base(pages, gap), gap - 1;
    var low := if size >= 2 * w then size - 2 * w else 0;
    NearlyFullWindows(bits, segs, pages, gap, reserve, size, low);
    SumOfWindows(bits, size, |segs|, low, reserve);
    AllOfThem(bits, Base(|segs|, size));
    BaseSplit(|segs| - 1, size, w, low);
  }

  lemma {:induction false} NearlyFullWindows(bits: seq<bool>, segs: seq<Seg>, pages: nat, gap: nat, reserve: nat,
                                             size: nat, low: nat)
    requires gap > 0 && SegsOk(segs, bits, pages, gap) && size == Base(pages, gap)
    requires (low == 0 || low == size - 2 * (gap - 1))
    requires forall s :: 0 <= s < |segs| && s != reserve ==>
               segs[s].used == pages && Filled(segs[s], gap) && segs[s].invalid < gap
    ensures forall s :: 0 <= s < |segs| && s != reserve ==>
              Base(s, size) + size <= |bits| && Ones(Slice(bits, Base(s, size), size)) >= low
  {
    forall s | 0 <= s < |segs| && s != reserve
      ensures Base(s, size) + size <= |bits| && Ones(Slice(bits, Base(s, size), size)) >= low
    {
      WindowNearlyFull(segs, bits, s, pages, gap);
    }
  }

  lemma {:induction false} AllOfThem(bits: seq<bool>, n: nat)
    requires n == |bits|
    ensures bits[..n] == bits
  {
  }

  /**
   * With that spare space, when every segment but the reserve is full, the one with the most invalid pieces has at
   * least a page of them, so its live pieces leave a page free in the reserve.
   */
  lemma {:induction false} VictimLeavesAPage(n: Nand, segs: seq<Seg>, pages: nat, gap: nat, reserve: nat, victim: nat)
    requires n.Consistent() && SegsOk(segs, n.bits, pages, gap) && Roomy(|n.mapping|, |segs|, pages, gap)
    requires reserve < |segs| && victim < |segs| && victim != reserve
    requires forall s :: 0 <= s < |segs| && s != reserve ==> segs[s].used == pages && Filled(segs[s], gap)
    requires forall s :: 0 <= s < |segs| && s != reserve ==> segs[s].invalid <= segs[victim].invalid
    ensures segs[victim].valid - segs[victim].invalid + gap <= Base(pages, gap)
  {
    ValidAtMostRange(n);
    if segs[victim].invalid < gap {
      NearlyAllValid(n.bits, segs, pages, gap, reserve);
    }
  }

  /** n blocks of size - 2 * w are n blocks of size less twice n blocks of w. */
  lemma {:induction false} BaseSplit(n: nat, size: nat, w: nat, low: nat)
    requires low >= size - 2 * w
    ensures Base(n, low) >= Base(n, size) - 2 * Base(n, w)
  {
    if n > 0 {
      BaseSplit(n - 1, size, w, low);
    }
  }

  /** The repository's own constants (include/settings.h with OP 90) have that room. */
  lemma {:induction false} SettingsAreRoomy()
    ensures Roomy(32 * 1024 * 1024 * 1024 / 4096, 281, 128 * 64, 4)
  {
    BaseIsProduct(128 * 64, 4);
    BaseIsProduct(280, 128 * 64 * 4);
    BaseIsProduct(280, 3);
  }

  lemma {:induction false} GatheredNext(n0: Nand, src: seq<nat>, lo: nat, hi: nat, p: nat)
    requires Gathered(n0, src, lo, hi) && p < |n0.bits| && n0.bits[p] && p !in src
    ensures Gathered(n0, src + [p], lo, hi) && forall j :: 0 <= j < |src| ==> (src + [p])[j] == src[j]
  {
  }

  lemma {:induction false} GatherBuffered(n0: Nand, src: seq<nat>, from: nat, keys: seq<nat>, vals: seq<Value>, p: nat)
    requires Buffered(n0, src, from, keys, vals) && p < |n0.bits|
    ensures Buffered(n0, src + [p], from, keys + [n0.oob[p]], vals + [n0.flash[p]])
  {
  }

  // ----- one collection

  /** What a collection works with: state before, the victim's range, the reserve's range, page size. */
  datatype Job = Job(n0: Nand, segs0: seq<Seg>, reserve: nat, from: nat, to: nat, size: nat, pages: nat, gap: nat)
  {
    ghost predicate Ok() {
      && n0.Consistent() && gap > 0 && size == Base(pages, gap) && reserve < |segs0|
      && from + size <= |n0.bits| && to + size <= |n0.bits| && (from + size <= to || to + size <= from)
    }

    /** The first moved pieces of src are in the reserve, the others in the gather buffer. */
    ghost predicate Gathering(n: Nand, segs: seq<Seg>, src: seq<nat>, moved: nat, gk: seq<nat>, gv: seq<Value>) {
      && Ok() && Moved(n0, n, src, moved, to, to + size)
      && Buffered(n0, src, moved, gk, gv)
      && |segs| == |segs0| && segs[reserve].used <= pages && moved == Base(segs[reserve].used, gap)
      && segs == segs0[reserve := Seg(segs[reserve].used, moved, 0)]
      && forall j :: 0 <= j < |src| ==> from <= src[j] < from + size
    }

    /** Another valid piece of the victim enters the buffer. */
    lemma {:induction false} Gather(n: Nand, segs: seq<Seg>, src: seq<nat>, moved: nat, gk: seq<nat>, gv: seq<Value>,
                                    p: nat)
      requires Gathering(n, segs, src, moved, gk, gv) && from <= p < from + size && p !in src && n.bits[p]
      ensures Gathering(n, segs, src + [p], moved, gk + [n.oob[p]], gv + [n.flash[p]])
    {
      GatherMoved(n, src, moved, p);
      GatherBuffered(n0, src, moved, gk, gv, p);
    }

    /** The piece is where it was before the collection. */
    lemma {:induction false} GatherMoved(n: Nand, src: seq<nat>, moved: nat, p: nat)
      requires Ok() && Moved(n0, n, src, moved, to, to + size) && from <= p < from + size && p !in src && n.bits[p]
      ensures n0.bits[p] && n.oob[p] == n0.oob[p] && n.flash[p] == n0.flash[p]
      ensures Moved(n0, n, src + [p], moved, to, to + size)
    {
      assert n0.bits[p] && n.oob[p] == n0.oob[p] && n.flash[p] == n0.flash[p];
      GatheredNext(n0, src, to, to + size, p);
    }

    /** A non-empty buffer finds a page in the reserve. */
    lemma {:induction false} ReserveHasRoom(n: Nand, segs: seq<Seg>, src: seq<nat>, moved: nat, gk: seq<nat>,
                                            gv: seq<Value>)
      requires Gathering(n, segs, src, moved, gk, gv) && gk != []
      ensures |src| <= size && segs[reserve].used < pages && DistinctKeys(gk, |n.mapping|)
    {
      DistinctFit(from, size, src);
      BufferedDistinct(n0, src, moved, gk, gv, to, to + size);
    }

    /** The buffer was written to the next page of the reserve. */
    ghost predicate Flushed(n: Nand, segs: seq<Seg>, src: seq<nat>, used: nat) {
      && Ok() && Moved(n0, n, src, |src|, to, to + size)
      && segs == segs0[reserve := Seg(used + 1, |src|, 0)] && used < pages
      && forall j :: 0 <= j < |src| ==> from <= src[j] < from + size
    }

    lemma {:induction false} FlushBuffer(n: Nand, segs: seq<Seg>, n': Nand, segs': seq<Seg>, src: seq<nat>, moved: nat,
                      gk: seq<nat>, gv: seq<Value>, base: nat)
      requires Gathering(n, segs, src, moved, gk, gv) && gk != []
      requires PageWritten(n, n', base, gk, gv) && base == to + moved
      requires segs' == segs[reserve := Seg(segs[reserve].used + 1, segs[reserve].valid + |gk|, segs[reserve].invalid)]
      ensures Flushed(n', segs', src, segs[reserve].used)
    {
      ReserveHasRoom(n, segs, src, moved, gk, gv);
      FlushStep(n0, n, n', src, moved, to, to + size, gk, gv, base);
    }

    /** After a full page the buffer starts empty. */
    lemma {:induction false} StartEmpty(n: Nand, segs: seq<Seg>, src: seq<nat>, used: nat)
      requires Flushed(n, segs, src, used) && |src| == Base(used, gap) + gap
      ensures Gathering(n, segs, src, |src|, [], [])
    {
      assert Buffered(n0, src, |src|, [], []);
      assert segs[reserve] == Seg(used + 1, |src|, 0) && Base(used + 1, gap) == |src|;
    }

    // ----- which pieces of the victim were gathered

    /** The pieces of one page, up to i, after those of src0. */
    ghost predicate PageDone(src0: seq<nat>, src: seq<nat>, base: nat, i: nat) {
      && src0 <= src
      && (forall j :: |src0| <= j < |src| ==> base <= src[j] < base + i)
      && (forall p :: base <= p < base + i && p < |n0.bits| && n0.bits[p] ==> p in src)
    }

    lemma {:induction false} PageDoneStep(src0: seq<nat>, src: seq<nat>, base: nat, i: nat)
      requires PageDone(src0, src, base, i) && base + i < |n0.bits|
      ensures n0.bits[base + i] ==> PageDone(src0, src + [base + i], base, i + 1)
      ensures !n0.bits[base + i] ==> PageDone(src0, src, base, i + 1)
    {
      if n0.bits[base + i] {
        var src' := src + [base + i];
        assert src'[|src|] == base + i;
        forall p | base <= p < base + i + 1 && p < |n0.bits| && n0.bits[p] ensures p in src' {
          if p < base + i {
            assert p in src;
          }
        }
      }
    }

    /** First piece of the victim's page u. */
    function PageBase(u: nat): nat {
      from + Base(u, gap)
    }

    /** Nothing of the pending pages was gathered yet, everything valid of the others was. */
    ghost predicate PagesLeft(src: seq<nat>, pending: set<nat>) {
      && (forall u :: u in pending ==> u < pages)
      && (forall u, j :: u in pending && 0 <= j < |src| ==> !(PageBase(u) <= src[j] < PageBase(u) + gap))
      && (forall u, p :: 0 <= u < pages && u !in pending && PageBase(u) <= p < PageBase(u) + gap ==>
            p < |n0.bits| && n0.bits[p] ==> p in src)
    }

    lemma {:induction false} PagesLeftStep(src0: seq<nat>, src: seq<nat>, u: nat, pending: set<nat>)
      requires PagesLeft(src0, pending) && u in pending && PageDone(src0, src, PageBase(u), gap)
      ensures PagesLeft(src, pending - {u})
    {
      forall w, j | w in pending - {u} && 0 <= j < |src| ensures !(PageBase(w) <= src[j] < PageBase(w) + gap) {
        if w < u {
          BaseOrder(w, u, gap);
        } else {
          BaseOrder(u, w, gap);
        }
        assert j < |src0| ==> src[j] == src0[j];
      }
      forall w, p | 0 <= w < pages && w !in pending - {u} && PageBase(w) <= p < PageBase(w) + gap
        ensures p < |n0.bits| && n0.bits[p] ==> p in src
      {
        if w != u && p < |n0.bits| && n0.bits[p] {
          assert p in src0;
        }
      }
    }

    lemma {:induction false} AllGathered(src: seq<nat>, p: nat)
      requires Ok() && PagesLeft(src, {}) && from <= p < from + size && n0.bits[p]
      ensures p in src
    {
      Locate(p - from, gap, pages);
      assert PageBase((p - from) / gap) <= p < PageBase((p - from) / gap) + gap;
    }

    /** As many pieces were gathered as the victim has valid ones. */
    lemma {:induction false} GatheredCount(src: seq<nat>)
      requires Ok() && PagesLeft(src, {}) && Gathered(n0, src, to, to + size)
      requires forall j :: 0 <= j < |src| ==> from <= src[j] < from + size
      ensures |src| == Ones(Slice(n0.bits, from, size))
    {
      var window := Slice(n0.bits, from, size);
      forall i | 0 <= i < size ensures window[i] <==> from + i in src {
        if window[i] {
          AllGathered(src, from + i);
        }
      }
      OnesListed(window, from, src);
    }

    /**
     * Nothing lost, nothing added: the valid pieces of the victim, each once, are exactly what the reserve holds,
     * in as few pages as they fit in.
     */
    ghost predicate Done(n: Nand, src: seq<nat>, target: Seg) {
      && Ok() && Moved(n0, n, src, |src|, to, to + size)
      && (forall j :: 0 <= j < |src| ==> from <= src[j] < from + size)
      && (forall p :: from <= p < from + size && n0.bits[p] ==> p in src)
      && |src| == Ones(Slice(n0.bits, from, size))
      && target == Seg(target.used, |src|, 0) && target.used <= pages && Filled(target, gap)
    }

    lemma {:induction false} DoneWhenGathered(n: Nand, src: seq<nat>, target: Seg)
      requires Ok() && Moved(n0, n, src, |src|, to, to + size) && PagesLeft(src, {})
      requires forall j :: 0 <= j < |src| ==> from <= src[j] < from + size
      requires target == Seg(target.used, |src|, 0) && target.used <= pages && Filled(target, gap)
      ensures Done(n, src, target)
    {
      GatheredCount(src);
      forall p | from <= p < from + size && n0.bits[p] ensures p in src {
        AllGathered(src, p);
      }
    }

    /** Erasing a victim whose valid pieces are all in the reserve changes no value. */
    lemma {:induction false} EraseKeeps(n: Nand, n': Nand, src: seq<nat>, target: Seg)
      requires Done(n, src, target) && Erased(n, n', from, size)
      ensures n'.Consistent() && |n'.mapping| == |n0.mapping|
      ensures forall l :: 0 <= l < |n0.mapping| ==> n'.Lookup(l) == n0.Lookup(l)
    {
      TrimEffect(n0, n, n', src, to, to + size, from, size);
    }

    lemma {:induction false} DoneWhenEmpty(n: Nand, segs: seq<Seg>, src: seq<nat>, moved: nat, gk: seq<nat>,
                                           gv: seq<Value>)
      requires Gathering(n, segs, src, moved, gk, gv) && gk == [] && PagesLeft(src, {})
      ensures Done(n, src, segs[reserve])
    {
      DoneWhenGathered(n, src, segs[reserve]);
    }

    lemma {:induction false} DoneAfterFlush(n: Nand, segs: seq<Seg>, src: seq<nat>, used: nat)
      requires Flushed(n, segs, src, used) && PagesLeft(src, {}) && Base(used, gap) < |src| <= Base(used, gap) + gap
      ensures Done(n, src, segs[reserve])
    {
      DoneWhenGathered(n, src, segs[reserve]);
    }
  }

  // ----- which segments are free, collectable, active and in reserve

  /** Every segment is the reserve, a candidate for collection, or free; only the active one may be partly used. */
  ghost predicate Allocated(segs: seq<Seg>, freeQ: seq<nat>, heap: set<nat>, active: nat, reserve: nat,
                            pages: nat, gap: nat)
  {
    && reserve < |segs| && active in heap && reserve !in heap && segs[reserve] == Seg(0, 0, 0)
    && (forall s :: s in heap ==> s < |segs| && s !in freeQ)
    && (forall i :: 0 <= i < |freeQ| ==> freeQ[i] < |segs| && freeQ[i] != reserve && segs[freeQ[i]] == Seg(0, 0, 0))
    && (forall i, j :: 0 <= i < j < |freeQ| ==> freeQ[i] != freeQ[j])
    && (forall s :: 0 <= s < |segs| ==> s == reserve || s in heap || s in freeQ)
    && (forall s :: s in heap && s != active ==> segs[s].used == pages)
    && (forall s :: 0 <= s < |segs| ==> Filled(segs[s], gap))
  }

  /** The swap at the end of do_gc. */
  lemma {:induction false} AllocatedAfterGc(segs: seq<Seg>, segs': seq<Seg>, heap: set<nat>, active: nat, reserve: nat,
                         pages: nat, gap: nat, v: nat)
    requires gap > 0 && Allocated(segs, [], heap, active, reserve, pages, gap) && segs[active].used == pages
    requires v in heap
    requires |segs'| == |segs| && Filled(segs'[reserve], gap)
    requires segs' == segs[reserve := segs'[reserve]][v := Seg(0, 0, 0)]
    ensures Allocated(segs', [], heap - {v} + {reserve}, reserve, v, pages, gap)
  {
  }

  /** get_segment for the next active segment. */
  lemma {:induction false} AllocatedNextActive(segs: seq<Seg>, freeQ: seq<nat>, heap: set<nat>, active: nat,
                                               reserve: nat, pages: nat, gap: nat)
    requires Allocated(segs, freeQ, heap, active, reserve, pages, gap) && segs[active].used == pages && freeQ != []
    ensures Allocated(segs, freeQ[1..], heap + {freeQ[0]}, freeQ[0], reserve, pages, gap)
  {
  }

  /** The active segment takes a full page. */
  lemma {:induction false} AllocatedPage(segs: seq<Seg>, freeQ: seq<nat>, heap: set<nat>, active: nat, reserve: nat,
                                         pages: nat, gap: nat)
    requires Allocated(segs, freeQ, heap, active, reserve, pages, gap)
    ensures active < |segs|
    ensures Allocated(segs[active := segs[active].(used := segs[active].used + 1, valid := segs[active].valid + gap)],
                      freeQ, heap, active, reserve, pages, gap)
  {
  }

  /** Invalidations touch neither the pages handed out nor the pieces validated. */
  lemma {:induction false} AllocatedInvalidate(segs: seq<Seg>, segs': seq<Seg>, freeQ: seq<nat>, heap: set<nat>,
                                               active: nat, reserve: nat,
                            pages: nat, gap: nat)
    requires Allocated(segs, freeQ, heap, active, reserve, pages, gap) && |segs'| == |segs|
    requires forall s :: 0 <= s < |segs| ==> segs'[s].used == segs[s].used && segs'[s].valid == segs[s].valid
    requires forall s :: 0 <= s < |segs| && segs[s] == Seg(0, 0, 0) ==> segs'[s] == segs[s]
    ensures Allocated(segs', freeQ, heap, active, reserve, pages, gap)
  {
  }

  lemma {:induction false} EmptyDevice(segs: seq<Seg>, bits: seq<bool>, freeQ: seq<nat>, n: nat, pages: nat, gap: nat)
    requires |segs| == n >= 2 && gap > 0 && |bits| == Base(n, Base(pages, gap)) && |freeQ| == n - 2
    requires forall s :: 0 <= s < n ==> segs[s] == Seg(0, 0, 0)
    requires forall p :: 0 <= p < |bits| ==> !bits[p]
    requires forall i :: 0 <= i < |freeQ| ==> freeQ[i] == i + 2
    ensures SegsOk(segs, bits, pages, gap) && Allocated(segs, freeQ, {1}, 1, 0, pages, gap)
  {
    forall s | 0 <= s < n ensures WindowOk(segs, bits, s, pages, gap) {
      BaseOrder(s, n, Base(pages, gap));
      OnesNone(Slice(bits, Base(s, Base(pages, gap)), Base(pages, gap)));
    }
    forall s | 2 <= s < n ensures s in freeQ {
      assert freeQ[s - 2] == s;
    }
  }
}
