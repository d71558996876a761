/**
 * Where the entries of a run lie (algorithm/layeredLSM/sorted_table.cpp). The log is every entry in the order it was
 * inserted; a block holds a stretch of it from its start_write_pointer on.
 */
module TableSpec {
  import opened Layout
  import opened SummarySearch

  /** An lba with its data. */
  datatype Datum = Datum(lba: nat, data: int)

  /** UINT32_MAX, an lba no entry has. */
  const NO_LBA: nat := 0xFFFF_FFFF

  /** NOT_POPULATE_PSA under the lba that ends a padded summary. */
  const END: Pair := Pair(NO_LBA, 0xFFFF_FFFD)

  /** A piece by its page and its place there: piece address page * L2PGAP + idx. */
  datatype Slot = Slot(page: nat, idx: nat)

  /**
   * A sorted_table_entry with its summary_page_meta: the first page of the block, the log position of its first entry,
   * the summary, its lba range, whether its lbas came in order, whether it was padded, and where its summary is.
   */
  datatype Ste = Ste(pba: nat, start: nat, pairs: seq<Pair>, low: nat, high: nat, sorted: bool, padded: bool,
                     piece: Slot)
  {
    /** The summary page as it is written. */
    function Summary(): seq<Pair> {
      if padded then pairs + [END] else pairs
    }
  }

  type Flash = map<nat, seq<Datum>>

  type Maps = map<nat, seq<seq<Pair>>>

  /** The piece at psa is readable and holds x. */
  ghost predicate Stored(flash: Flash, gap: nat, psa: nat, x: Datum)
    requires gap > 0
  {
    psa / gap in flash && psa % gap < |flash[psa / gap]| && flash[psa / gap][psa % gap] == x
  }

  /** st_array_read_translation of a normal run */
  function ReadTranslation(blk: Ste, offset: nat, gap: nat): nat {
    Base(blk.pba, gap) + offset
  }

  lemma {:induction false} ReadTranslationIs(blk: Ste, offset: nat, gap: nat)
    ensures ReadTranslation(blk, offset, gap) == blk.pba * gap + offset
  {
    BaseIsProduct(blk.pba, gap);
  }

  /** Page and slot of a piece of page k of a block. */
  lemma {:induction false} PieceOf(pba: nat, k: nat, j: nat, gap: nat)
    requires j < gap
    ensures var psa := Base(pba, gap) + Base(k, gap) + j; psa / gap == pba + k && psa % gap == j
  {
    BaseSum(pba, k, gap);
    Split(gap, Base(pba, gap) + Base(k, gap) + j, pba + k);
  }

  /** Every entry has the lba of its log position and the address its offset translates to. */
  ghost predicate Addressed(blk: Ste, log: seq<Datum>, gap: nat) {
    && blk.start + |blk.pairs| <= |log|
    && forall o :: 0 <= o < |blk.pairs| ==> blk.pairs[o] == Pair(log[blk.start + o].lba, ReadTranslation(blk, o, gap))
  }

  function Min(x: int, y: int): int {
    if x < y then x else y
  }

  /** Page k of the block holds its stretch of the log, in order. */
  ghost predicate PageHolds(blk: Ste, k: nat, n: nat, log: seq<Datum>, flash: Flash, gap: nat)
    requires Base(k, gap) < n && blk.start + n <= |log|
  {
    && blk.pba + k in flash
    && flash[blk.pba + k] == log[blk.start + Base(k, gap)..blk.start + Min(Base(k, gap) + gap, n)]
  }

  /** The first n entries are on flash, page by page. */
  ghost predicate Readable(blk: Ste, n: nat, log: seq<Datum>, flash: Flash, gap: nat)
    requires blk.start + n <= |log|
  {
    forall k: nat {:trigger PageHolds(blk, k, n, log, flash, gap)} :: Base(k, gap) < n ==>
        PageHolds(blk, k, n, log, flash, gap)
  }

  /** Each of them is readable where its offset translates to. */
  lemma {:induction false} ReadBack(blk: Ste, n: nat, log: seq<Datum>, flash: Flash, gap: nat, o: nat)
    requires gap > 0 && blk.start + n <= |log| && Readable(blk, n, log, flash, gap) && o < n
    ensures Stored(flash, gap, ReadTranslation(blk, o, gap), log[blk.start + o])
  {
    var k := o / gap;
    Split(gap, o, k);
    PieceOf(blk.pba, k, o - Base(k, gap), gap);
    assert PageHolds(blk, k, n, log, flash, gap);
  }

  /** The blocks follow each other through the log. */
  ghost predicate Chained(blocks: seq<Ste>, end: nat) {
    && (blocks == [] ==> end == 0) && (blocks != [] ==> blocks[0].start == 0)
    && (forall b, c :: 0 <= b && c == b + 1 < |blocks| ==> blocks[c].start == blocks[b].start + |blocks[b].pairs|)
    && (blocks != [] ==> end == blocks[|blocks| - 1].start + |blocks[|blocks| - 1].pairs|)
  }

  ghost predicate InOrder(pairs: seq<Pair>) {
    forall o, n :: 0 <= o && n == o + 1 < |pairs| ==> pairs[o].lba <= pairs[n].lba
  }

  /** The lba range and the order flag of the summary. */
  ghost predicate Ranged(blk: Ste) {
    && (forall o :: 0 <= o < |blk.pairs| ==> blk.low <= blk.pairs[o].lba <= blk.high)
    && (blk.sorted <==> InOrder(blk.pairs))
    && (blk.sorted && blk.pairs != [] ==> blk.low == blk.pairs[0].lba && blk.high == blk.pairs[|blk.pairs| - 1].lba)
    && (blk.pairs == [] ==> blk.low == NO_LBA && blk.high == 0)
  }

  /** sp_insert and the range update of st_array_insert_pair. */
  function Add(blk: Ste, p: Pair): Ste {
    blk.(pairs := blk.pairs + [p],
         low := if blk.low > p.lba then p.lba else blk.low,
         high := if blk.high < p.lba then p.lba else blk.high,
         sorted := blk.sorted && (blk.pairs == [] || blk.pairs[|blk.pairs| - 1].lba <= p.lba))
  }

  lemma {:induction false} AddRanged(blk: Ste, p: Pair)
    requires Ranged(blk) && p.lba < NO_LBA
    ensures Ranged(Add(blk, p))
  {
    var b := Add(blk, p);
    var n := |blk.pairs|;
    assert forall o :: 0 <= o < n ==> b.pairs[o] == blk.pairs[o];
    assert b.pairs[n] == p;
    if InOrder(b.pairs) {
      forall o, q | 0 <= o && q == o + 1 < n ensures blk.pairs[o].lba <= blk.pairs[q].lba {
        assert b.pairs[o].lba <= b.pairs[q].lba;
      }
      if n > 0 {
        assert b.pairs[n - 1].lba <= b.pairs[n].lba;
      }
    }
  }

  /** The entry behind the last one of the last block. */
  lemma {:induction false} AddAddressed(blk: Ste, log: seq<Datum>, gap: nat, psa: nat)
    requires Addressed(blk, log, gap) && blk.start + |blk.pairs| < |log|
    requires psa == ReadTranslation(blk, |blk.pairs|, gap)
    ensures Addressed(Add(blk, Pair(log[blk.start + |blk.pairs|].lba, psa)), log, gap)
  {
  }

  /** A page never written before does not disturb what is readable. */
  lemma {:induction false} ReadableKept(blk: Ste, n: nat, log: seq<Datum>, flash: Flash, flash': Flash, gap: nat)
    requires blk.start + n <= |log| && Readable(blk, n, log, flash, gap) && MoreWritten(flash, flash')
    ensures Readable(blk, n, log, flash', gap)
  {
    forall k: nat | Base(k, gap) < n ensures PageHolds(blk, k, n, log, flash', gap) {
      assert PageHolds(blk, k, n, log, flash, gap);
    }
  }

  /** A page written at page k of the block makes its entries readable. */
  lemma {:induction false} PageReadable(blk: Ste, page: nat, n: nat, log: seq<Datum>, flash: Flash, items: seq<Datum>,
                                        gap: nat)
    requires gap > 0 && |items| <= gap && n == Base(page, gap) && blk.start + n + |items| <= |log|
    requires Readable(blk, n, log, flash, gap) && items == log[blk.start + n..blk.start + n + |items|]
    requires blk.pba + page !in flash
    ensures Readable(blk, n + |items|, log, flash[blk.pba + page := items], gap)
  {
    var flash', n' := flash[blk.pba + page := items], n + |items|;
    forall k: nat | Base(k, gap) < n' ensures PageHolds(blk, k, n', log, flash', gap) {
      if k < page {
        BaseOrder(k, page, gap);
        assert PageHolds(blk, k, n, log, flash, gap);
        StillHolds(blk, k, n, n', log, flash, flash', gap);
      } else if page < k {
        BaseOrder(page, k, gap);
      }
    }
  }

  /** A page before the last one holds what it held. */
  lemma {:induction false} StillHolds(blk: Ste, k: nat, n: nat, n': nat, log: seq<Datum>, flash: Flash, flash': Flash,
                                      gap: nat)
    requires Base(k, gap) + gap <= n <= n' && gap > 0 && blk.start + n' <= |log|
    requires PageHolds(blk, k, n, log, flash, gap) && blk.pba + k in flash' && flash'[blk.pba + k] == flash[blk.pba + k]
    ensures PageHolds(blk, k, n', log, flash', gap)
  {
  }

  /** Readability does not depend on the summary. */
  lemma {:induction false} SameReadable(blk: Ste, blk': Ste, n: nat, log: seq<Datum>, flash: Flash, gap: nat)
    requires blk.start + n <= |log| && Readable(blk, n, log, flash, gap) && blk'.start == blk.start
    requires blk'.pba == blk.pba
    ensures Readable(blk', n, log, flash, gap)
  {
    forall k: nat | Base(k, gap) < n ensures PageHolds(blk', k, n, log, flash, gap) {
      assert PageHolds(blk, k, n, log, flash, gap);
    }
  }

  // ----- summaries

  /** The summary of a closed block is on flash or in the map page being filled. */
  ghost predicate SummaryAt(blk: Ste, maps: Maps, mapPage: nat, pending: seq<seq<Pair>>, gap: nat)
    requires gap > 0
  {
    var p, i := blk.piece.page, blk.piece.idx;
    || (p in maps && i < |maps[p]| && maps[p][i] == blk.Summary())
    || (p == mapPage && i < |pending| && pending[i] == blk.Summary())
  }

  // ----- the log through the blocks

  /** Every flushed log position lies in exactly the block whose stretch has it. */
  lemma {:induction false} Find(blocks: seq<Ste>, end: nat, i: nat) returns (b: nat, o: nat)
    requires Chained(blocks, end) && i < end
    ensures b < |blocks| && o < |blocks[b].pairs| && i == blocks[b].start + o
  {
    var n := |blocks| - 1;
    if blocks[n].start <= i {
      b, o := n, i - blocks[n].start;
    } else {
      var rest := blocks[..n];
      assert forall k :: 0 <= k < n ==> rest[k] == blocks[k];
      assert n > 0;
      assert blocks[n].start == blocks[n - 1].start + |blocks[n - 1].pairs|;
      b, o := Find(rest, blocks[n].start, i);
    }
  }

  /** st_array_convert_global_offset_to_psa of a run without pinned data */
  function ConvertGlobal(blocks: seq<Ste>, m: nat, gap: nat, i: nat): nat
    requires m > 0 && i / m < |blocks|
  {
    ReadTranslation(blocks[i / m], i % m, gap)
  }

  /** The log position alone finds the entry exactly when its block starts where full blocks would make it start. */
  lemma {:induction false} ConvertIff(blocks: seq<Ste>, m: nat, gap: nat, b: nat, o: nat)
    requires m > 0 && gap > 0 && b < |blocks| && o < m
    ensures var i := blocks[b].start + o;
            i / m == b && i % m == o <==> blocks[b].start == Base(b, m)
    ensures blocks[b].start == Base(b, m) ==>
              var i := blocks[b].start + o;
              i / m < |blocks| && ConvertGlobal(blocks, m, gap, i) == ReadTranslation(blocks[b], o, gap)
  {
    Split(m, blocks[b].start + o, b);
  }

  // ----- the parts of a table

  /** The first n entries of a block are readable. */
  ghost predicate Whole(blk: Ste, n: nat, log: seq<Datum>, flash: Flash, gap: nat, m: nat) {
    && gap > 0 && |blk.pairs| <= m && n <= |blk.pairs| && Ranged(blk)
    && Addressed(blk, log, gap) && Readable(blk, n, log, flash, gap)
  }

  ghost predicate AllWhole(blocks: seq<Ste>, log: seq<Datum>, flash: Flash, gap: nat, m: nat) {
    forall b {:trigger Whole(blocks[b], |blocks[b].pairs|, log, flash, gap, m)} ::
      0 <= b < |blocks| ==> Whole(blocks[b], |blocks[b].pairs|, log, flash, gap, m)
  }

  ghost predicate AllNoted(blocks: seq<Ste>, maps: Maps, mapPage: nat, pending: seq<seq<Pair>>, gap: nat) {
    gap > 0 && forall b {:trigger SummaryAt(blocks[b], maps, mapPage, pending, gap)} ::
      0 <= b < |blocks| ==> SummaryAt(blocks[b], maps, mapPage, pending, gap)
  }

  ghost predicate MoreWritten(flash: Flash, flash': Flash) {
    forall p :: p in flash ==> p in flash' && flash'[p] == flash[p]
  }

  lemma {:induction false} AllWholeKept(blocks: seq<Ste>, log: seq<Datum>, flash: Flash, flash': Flash, gap: nat,
                                        m: nat)
    requires AllWhole(blocks, log, flash, gap, m) && MoreWritten(flash, flash')
    ensures AllWhole(blocks, log, flash', gap, m)
  {
    forall b | 0 <= b < |blocks| ensures Whole(blocks[b], |blocks[b].pairs|, log, flash', gap, m) {
      assert Whole(blocks[b], |blocks[b].pairs|, log, flash, gap, m);
      ReadableKept(blocks[b], |blocks[b].pairs|, log, flash, flash', gap);
    }
  }

  lemma {:induction false} AllWholeAdd(blocks: seq<Ste>, blk: Ste, log: seq<Datum>, flash: Flash, gap: nat, m: nat)
    requires AllWhole(blocks, log, flash, gap, m) && Whole(blk, |blk.pairs|, log, flash, gap, m)
    ensures AllWhole(blocks + [blk], log, flash, gap, m)
  {
    var bs := blocks + [blk];
    forall b | 0 <= b < |bs| ensures Whole(bs[b], |bs[b].pairs|, log, flash, gap, m) {
      if b < |blocks| {
        assert Whole(blocks[b], |blocks[b].pairs|, log, flash, gap, m);
      }
    }
  }

  lemma {:induction false} AllNotedAdd(blocks: seq<Ste>, blk: Ste, maps: Maps, mapPage: nat, pending: seq<seq<Pair>>,
                                       gap: nat)
    requires AllNoted(blocks, maps, mapPage, pending, gap) && SummaryAt(blk, maps, mapPage, pending, gap)
    ensures AllNoted(blocks + [blk], maps, mapPage, pending, gap)
  {
    var bs := blocks + [blk];
    forall b | 0 <= b < |bs| ensures SummaryAt(bs[b], maps, mapPage, pending, gap) {
      if b < |blocks| {
        assert SummaryAt(blocks[b], maps, mapPage, pending, gap);
      }
    }
  }

  lemma {:induction false} WholeLonger(blk: Ste, n: nat, log: seq<Datum>, x: Datum, flash: Flash, gap: nat, m: nat)
    requires Whole(blk, n, log, flash, gap, m)
    ensures Whole(blk, n, log + [x], flash, gap, m)
  {
    forall k: nat | Base(k, gap) < n ensures PageHolds(blk, k, n, log + [x], flash, gap) {
      assert PageHolds(blk, k, n, log, flash, gap);
    }
  }

  lemma {:induction false} AllWholeLonger(blocks: seq<Ste>, log: seq<Datum>, x: Datum, flash: Flash, gap: nat, m: nat)
    requires AllWhole(blocks, log, flash, gap, m)
    ensures AllWhole(blocks, log + [x], flash, gap, m)
  {
    forall b | 0 <= b < |blocks| ensures Whole(blocks[b], |blocks[b].pairs|, log + [x], flash, gap, m) {
      assert Whole(blocks[b], |blocks[b].pairs|, log, flash, gap, m);
      WholeLonger(blocks[b], |blocks[b].pairs|, log, x, flash, gap, m);
    }
  }

  lemma {:induction false} ChainAdd(blocks: seq<Ste>, end: nat, blk: Ste)
    requires Chained(blocks, end) && blk.start == end
    ensures Chained(blocks + [blk], end + |blk.pairs|)
  {
    var bs := blocks + [blk];
    forall b, c | 0 <= b && c == b + 1 < |bs| ensures bs[c].start == bs[b].start + |bs[b].pairs| {
      if c < |blocks| {
        assert blocks[c].start == blocks[b].start + |blocks[b].pairs|;
      }
    }
  }

  lemma {:induction false} OpenPlusOne(blk: Ste, p: Pair, written: nat, log: seq<Datum>, flash: Flash, gap: nat, m: nat)
    requires Whole(blk, written, log, flash, gap, m) && |blk.pairs| < m && blk.start + |blk.pairs| < |log|
    requires p == Pair(log[blk.start + |blk.pairs|].lba, ReadTranslation(blk, |blk.pairs|, gap)) && p.lba < NO_LBA
    ensures Whole(Add(blk, p), written, log, flash, gap, m)
  {
    AddRanged(blk, p);
    AddAddressed(blk, log, gap, p.psa);
    SameReadable(blk, Add(blk, p), written, log, flash, gap);
  }

  lemma {:induction false} OpenPage(blk: Ste, page: nat, items: seq<Datum>, log: seq<Datum>, flash: Flash,
                                    flash': Flash, gap: nat, m: nat)
    requires flash' == flash[blk.pba + page := items] && Whole(blk, Base(page, gap), log, flash, gap, m)
    requires blk.pba + page !in flash
    requires |items| <= gap && |blk.pairs| == Base(page, gap) + |items|
    requires items == log[blk.start + Base(page, gap)..blk.start + |blk.pairs|]
    ensures Whole(blk, |blk.pairs|, log, flash', gap, m)
  {
    PageReadable(blk, page, Base(page, gap), log, flash, items, gap);
  }

  // ----- summaries

  /** One more summary in the map page; once programmed, it does not matter which page is filled next. */
  lemma {:induction false} NoteKept(blocks: seq<Ste>, maps: Maps, mapPage: nat, pending: seq<seq<Pair>>, gap: nat,
                 page: nat, pending': seq<seq<Pair>>, next: nat)
    requires AllNoted(blocks, maps, mapPage, pending, gap)
    requires pending <= pending' && page !in maps && (pending != [] ==> page == mapPage)
    ensures AllNoted(blocks, maps, page, pending', gap) && AllNoted(blocks, maps[page := pending'], next, [], gap)
  {
    forall b | 0 <= b < |blocks|
      ensures SummaryAt(blocks[b], maps, page, pending', gap)
      ensures SummaryAt(blocks[b], maps[page := pending'], next, [], gap)
    {
      assert SummaryAt(blocks[b], maps, mapPage, pending, gap);
    }
  }

  lemma {:induction false} NoteNew(blk: Ste, maps: Maps, page: nat, pending': seq<seq<Pair>>, gap: nat, next: nat)
    requires gap > 0 && 0 < |pending'| <= gap && blk.piece == Slot(page, |pending'| - 1)
    requires pending'[|pending'| - 1] == blk.Summary()
    ensures SummaryAt(blk, maps, page, pending', gap) && SummaryAt(blk, maps[page := pending'], next, [], gap)
  {
  }

  /** Closing only records where the summary is. */
  lemma {:induction false} CloseWhole(blk: Ste, piece: Slot, padded: bool, log: seq<Datum>, flash: Flash, gap: nat,
                                      m: nat)
    requires Whole(blk, |blk.pairs|, log, flash, gap, m)
    ensures var c := blk.(piece := piece, padded := padded); Whole(c, |c.pairs|, log, flash, gap, m)
  {
    SameReadable(blk, blk.(piece := piece, padded := padded), |blk.pairs|, log, flash, gap);
  }
}
