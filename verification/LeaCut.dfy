/**
 * Cutting a sorted batch of lbas into segments (algorithm/leaFTL/leaFTL.cc:404-492). Once an interval breaks, the
 * remembered interval is a mark no real interval equals, so everything behind the first break ends up in one piece.
 */
module LeaCut {
  import opened Layout
  import opened LeaSegment
  import opened LeaLevel
  import opened LeaGroup

  /** A call of wrapper_group_insert: lbas from start, whether they are meant to be accurate, and their interval. */
  datatype Chunk = Chunk(start: int, len: int, acc: bool, interval: int)

  ghost predicate Sorted(lbas: seq<nat>) {
    forall i, j :: 0 <= i < j < |lbas| ==> lbas[i] < lbas[j]
  }

  /** The distance of the lba at i from the one before it. */
  function Gap(lbas: seq<nat>, i: nat): int
    requires 1 <= i < |lbas|
  {
    var a: int, b: int := lbas[i - 1], lbas[i];
    b - a
  }

  /** How far the first interval reaches: the first index from i on that does not continue it. */
  function PrefixFrom(lbas: seq<nat>, i: nat): (n: nat)
    requires 2 <= i <= |lbas|
    ensures i <= n <= |lbas|
    decreases |lbas| - i
  {
    if i < |lbas| && Gap(lbas, i) == Gap(lbas, 1) then PrefixFrom(lbas, i + 1) else i
  }

  /** At most two chunks: the accurate prefix when it has three lbas or more, and the rest. */
  function Cuts(lbas: seq<nat>): seq<Chunk>
    requires lbas != []
  {
    if |lbas| == 1 then [Chunk(0, 1, false, 0)]
    else
      var n := PrefixFrom(lbas, 2);
      if n < 3 then [Chunk(0, |lbas|, false, -1)]
      else if n == |lbas| then [Chunk(0, n, true, Gap(lbas, 1))]
      else [Chunk(0, n, true, Gap(lbas, 1)), Chunk(n, |lbas| - n, false, -1)]
  }

  /** The variables of the loop, with -1 for UINT32_MAX. */
  datatype Cutter = Cutter(appStart: int, appLength: int, accStart: int, accLength: int, accInterval: int)

  /** The interval of the first two lbas has not been broken before index i. */
  ghost predicate Steady(c: Cutter, lbas: seq<nat>, i: nat, out: seq<Chunk>) {
    && 2 <= i <= |lbas| && PrefixFrom(lbas, 2) == PrefixFrom(lbas, i) && out == []
    && c == Cutter(-1, 0, 0, i, Gap(lbas, 1))
  }

  /** It was broken at n; since then every lba has been set aside for the rest. */
  ghost predicate Broken(c: Cutter, lbas: seq<nat>, i: nat, n: nat, out: seq<Chunk>) {
    && 2 <= n < i <= |lbas| && n == PrefixFrom(lbas, 2)
    && c.accStart == i - 1 && c.accLength == 1 && c.accInterval == -1
    && (n < 3 ==> out == [] && c.appStart == 0 && c.appLength == i - 1)
    && (n >= 3 ==> out == [Chunk(0, n, true, Gap(lbas, 1))]
                   && (i - 1 == n ==> c.appStart == -1 && c.appLength == 0)
                   && (i - 1 > n ==> c.appStart == n && c.appLength == i - 1 - n))
  }

  /** One iteration of the loop of lea_making_segment_per_gp. */
  method Step(c: Cutter, interval: int, i: nat, out: seq<Chunk>, ghost lbas: seq<nat>, ghost n: nat)
    returns (c': Cutter, out': seq<Chunk>, ghost n': nat)
    requires Sorted(lbas) && 2 <= i < |lbas| && interval == Gap(lbas, i)
    requires Steady(c, lbas, i, out) || Broken(c, lbas, i, n, out)
    ensures Steady(c', lbas, i + 1, out') || Broken(c', lbas, i + 1, n', out')
  {
    c', out', n' := c, out, n;
    if c.accInterval == interval {
      c' := c.(accLength := c.accLength + 1);
      assert lbas[i - 1] < lbas[i];
    } else {
      if c.accLength < 3 {
        if c.appStart == -1 {
          c' := c'.(appStart := c.accStart);
        }
        c' := c'.(appLength := c.appLength + c.accLength);
      } else {
        if c.appStart != -1 {
          out' := out' + [Chunk(c.appStart, c.appLength, false, -1)];
          c' := c'.(appStart := -1, appLength := 0);
        }
        out' := out' + [Chunk(c.accStart, c.accLength, true, c.accInterval)];
      }
      c' := c'.(accStart := i, accLength := 1, accInterval := -1);
      n' := PrefixFrom(lbas, 2);
    }
  }

  /** What is left after the loop. */
  method Finish(c: Cutter, out: seq<Chunk>, ghost lbas: seq<nat>, ghost n: nat) returns (out': seq<Chunk>)
    requires |lbas| >= 2 && (Steady(c, lbas, |lbas|, out) || Broken(c, lbas, |lbas|, n, out))
    ensures out' == Cuts(lbas)
  {
    out' := out;
    var appStart, appLength, accStart := c.appStart, c.appLength, c.accStart;
    if c.accLength < 3 {
      if appStart == -1 {
        appStart := accStart;
      }
      appLength := appLength + c.accLength;
      accStart := -1;
    }
    if appStart != -1 {
      out' := out' + [Chunk(appStart, appLength, false, -1)];
    }
    if accStart != -1 {
      out' := out' + [Chunk(accStart, c.accLength, true, c.accInterval)];
    }
  }

  /** The loop of lea_making_segment_per_gp, with its insertions collected in order. */
  method CutBatch(lbas: seq<nat>) returns (out: seq<Chunk>)
    requires lbas != [] && Sorted(lbas)
    ensures out == Cuts(lbas)
  {
    if |lbas| == 1 {
      return [Chunk(0, 1, false, 0)];
    }
    out := [];
    var c := Cutter(-1, 0, 0, 2, Gap(lbas, 1));
    ghost var n := 0;
    for i := 2 to |lbas|
      invariant Steady(c, lbas, i, out) || Broken(c, lbas, i, n, out)
    {
      c, out, n := Step(c, Gap(lbas, i), i, out, lbas, n);
    }
    out := Finish(c, out, lbas, n);
  }

  // ----- the pieces

  predicate Inside(chunk: Chunk, lbas: seq<nat>) {
    chunk.len > 0 && 0 <= chunk.start && chunk.start + chunk.len <= |lbas| && (chunk.acc ==> chunk.interval >= 0)
  }

  /** The body wrapper_group_insert asks for: one or two lbas are always accurate. */
  function BodyOf(part: seq<nat>, acc: bool, interval: int, learned: Body): Body
    requires acc ==> interval >= 0
  {
    if |part| == 1 then Accurate(0)
    else if |part| == 2 then Accurate(if part[0] <= part[1] then part[1] - part[0] else 0)
    else if acc then Accurate(interval)
    else learned
  }

  /** wrapper_group_insert. learned is the approximate body made of the lbas. */
  function PieceOf(chunk: Chunk, lbas: seq<nat>, ppas: seq<nat>, learned: Body): Piece
    requires |ppas| == |lbas| && Inside(chunk, lbas)
  {
    var part := lbas[chunk.start..chunk.start + chunk.len];
    Piece(part, ppas[chunk.start..chunk.start + chunk.len], BodyOf(part, chunk.acc, chunk.interval, learned))
  }

  lemma {:induction false} PrefixSteady(lbas: seq<nat>, i: nat, k: nat)
    requires 2 <= i <= |lbas| && i <= k < PrefixFrom(lbas, i)
    ensures Gap(lbas, k) == Gap(lbas, 1)
    decreases |lbas| - i
  {
    if i < k {
      PrefixSteady(lbas, i + 1, k);
    }
  }

  /** The accurate prefix is as long as it can be. */
  lemma {:induction false} PrefixMaximal(lbas: seq<nat>, i: nat)
    requires 2 <= i <= |lbas|
    ensures var n := PrefixFrom(lbas, i); n < |lbas| ==> Gap(lbas, n) != Gap(lbas, 1)
    decreases |lbas| - i
  {
    if i < |lbas| && Gap(lbas, i) == Gap(lbas, 1) {
      PrefixMaximal(lbas, i + 1);
    }
  }

  /** The chunks are in order, next to each other, and cover the batch. */
  lemma {:induction false} CutsCover(lbas: seq<nat>)
    requires lbas != []
    ensures var cs := Cuts(lbas);
            && 1 <= |cs| <= 2 && cs[0].start == 0 && cs[0].len > 0 && cs[|cs| - 1].len > 0
            && (|cs| == 2 ==> cs[1].start == cs[0].len)
            && cs[|cs| - 1].start + cs[|cs| - 1].len == |lbas|
  {
  }

  ghost predicate Batch(lbas: seq<nat>, ppas: seq<nat>, per: nat) {
    lbas != [] && |ppas| == |lbas| && Sorted(lbas) && forall k :: 0 <= k < |lbas| ==> lbas[k] < per
  }

  /** The accurate prefix is a progression. */
  lemma {:induction false} PrefixProgression(lbas: seq<nat>, n: nat)
    requires Sorted(lbas) && |lbas| >= 2 && n == PrefixFrom(lbas, 2)
    ensures Progression(lbas[..n], Gap(lbas, 1))
  {
    var part := lbas[..n];
    assert part[0] < part[1];
    forall k | 0 <= k < |part| - 1 ensures part[k + 1] == part[k] + Gap(lbas, 1) {
      if k > 0 {
        PrefixSteady(lbas, 2, k + 1);
      }
    }
  }

  lemma {:induction false} BodyOk(part: seq<nat>, acc: bool, interval: int, learned: Body)
    requires part != [] && Sorted(part) && learned.Approximate?
    requires (acc ==> interval >= 0 && Progression(part, interval))
    ensures BodyOf(part, acc, interval, learned).Accurate? ==>
        Progression(part, BodyOf(part, acc, interval, learned).step)
  {
  }

  /** Every piece is fit for insertion: accurate ones are progressions. */
  lemma {:induction false} PiecesOk(lbas: seq<nat>, ppas: seq<nat>, learned: Body, per: nat, j: nat)
    requires Batch(lbas, ppas, per) && learned.Approximate? && j < |Cuts(lbas)|
    ensures Inside(Cuts(lbas)[j], lbas) && PieceOf(Cuts(lbas)[j], lbas, ppas, learned).Ok(per)
  {
    assert |lbas| > 1 ==> lbas[0] < lbas[1];
    CutsCover(lbas);
    CutOk(lbas, ppas, learned, per, Cuts(lbas)[j]);
  }

  /** A stretch of the batch that is accurate only as its prefix. */
  lemma {:induction false} CutOk(lbas: seq<nat>, ppas: seq<nat>, learned: Body, per: nat, c: Chunk)
    requires Batch(lbas, ppas, per) && learned.Approximate? && Inside(c, lbas) && c.len > 0
    requires c.acc ==> |lbas| >= 2 && c.start == 0 && c.len == PrefixFrom(lbas, 2) && c.interval == Gap(lbas, 1)
    ensures PieceOf(c, lbas, ppas, learned).Ok(per)
  {
    var part := lbas[c.start..c.start + c.len];
    assert Sorted(part);
    if c.acc {
      PrefixProgression(lbas, c.len);
      assert part == lbas[..c.len];
    }
    BodyOk(part, c.acc, c.interval, learned);
  }

  /** A piece for every cut of the batch. */
  ghost predicate IsCut(list: seq<Piece>, lbas: seq<nat>, ppas: seq<nat>, learned: Body) {
    && lbas != [] && |ppas| == |lbas| && |list| == |Cuts(lbas)|
    && forall j :: 0 <= j < |list| ==>
         Inside(Cuts(lbas)[j], lbas) && list[j] == PieceOf(Cuts(lbas)[j], lbas, ppas, learned)
  }

  /** The pieces of a batch in the order they are inserted. */
  method Pieces(lbas: seq<nat>, ppas: seq<nat>, learned: Body, ghost per: nat) returns (list: seq<Piece>)
    requires Batch(lbas, ppas, per) && learned.Approximate?
    ensures IsCut(list, lbas, ppas, learned) && Concat(list) == lbas && ConcatPpas(list) == ppas
    ensures forall k :: 0 <= k < |list| ==> list[k].Ok(per)
  {
    var chunks := CutBatch(lbas);
    CutsCover(lbas);
    PiecesOk(lbas, ppas, learned, per, 0);
    list := [PieceOf(chunks[0], lbas, ppas, learned)];
    if |chunks| == 2 {
      PiecesOk(lbas, ppas, learned, per, 1);
      list := list + [PieceOf(chunks[1], lbas, ppas, learned)];
    }
    TwoParts(chunks, lbas, ppas, learned, list);
  }

  /** lea_making_segment_per_gp: the group learns the batch, and every lba of it is named by the piece it lies in. */
  method MakeSegments(g: Group, meter: Meter, lbas: seq<nat>, ppas: seq<nat>,
                      learned: Body) returns (ghost pieces: seq<Piece>)
    requires g.Valid() && g.loaded && Batch(lbas, ppas, g.segList.Length) && learned.Approximate?
    modifies g, g.segList, meter
    ensures g.Valid() && g.loaded && meter.now - old(meter.now) == g.size - old(g.size)
    ensures IsCut(pieces, lbas, ppas, learned) && Concat(pieces) == lbas && ConcatPpas(pieces) == ppas
    ensures forall k :: 0 <= k < |pieces| ==> pieces[k].Ok(g.segList.Length)
    ensures NamesLast(old(g.segList[..]), g.segList[..], pieces, old(g.made))
  {
    var list := Pieces(lbas, ppas, learned, g.segList.Length);
    pieces := list;
    g.InsertAll(list, meter);
  }

  ghost function Concat(pieces: seq<Piece>): seq<nat> {
    if pieces == [] then [] else pieces[0].lbas + Concat(pieces[1..])
  }

  ghost function ConcatPpas(pieces: seq<Piece>): seq<nat> {
    if pieces == [] then [] else pieces[0].ppas + ConcatPpas(pieces[1..])
  }

  lemma {:induction false} TwoParts(chunks: seq<Chunk>, lbas: seq<nat>, ppas: seq<nat>, learned: Body, list: seq<Piece>)
    requires |ppas| == |lbas| && 1 <= |chunks| <= 2 && |list| == |chunks|
    requires forall j :: 0 <= j < |chunks| ==>
               Inside(chunks[j], lbas) && list[j] == PieceOf(chunks[j], lbas, ppas, learned)
    requires chunks[0].start == 0 && (|chunks| == 2 ==> chunks[1].start == chunks[0].len)
    requires chunks[|chunks| - 1].start + chunks[|chunks| - 1].len == |lbas|
    ensures Concat(list) == lbas && ConcatPpas(list) == ppas
  {
    if |list| == 1 {
      assert list[1..] == [];
    } else {
      var rest := list[1..];
      assert rest[0] == list[1] && rest[1..] == [];
      assert Concat(rest) == list[1].lbas && ConcatPpas(rest) == list[1].ppas;
      assert Concat(list) == lbas[..chunks[1].start] + lbas[chunks[1].start..] == lbas;
      assert ConcatPpas(list) == ppas[..chunks[1].start] + ppas[chunks[1].start..] == ppas;
    }
  }
}
