/**
 * Segments of the learned index (algorithm/leaFTL/PLR_segment.cc). An accurate segment stands for an arithmetic
 * progression of lbas mapped to consecutive addresses; an approximate one stands for any increasing list of lbas.
 */
module LeaSegment {
  import opened Layout

  /**
   * The union body: the interval of an accurate segment (0 when it has a single lba), or the lines of the approximate
   * one together with what its first bits read as when the code looks at the interval.
   */
  datatype Body = Accurate(step: nat) | Approximate(lines: nat, bits: nat)

  datatype Segment = Segment(start: nat, end: nat, ppa: nat, body: Body, seqno: nat)
  {
    /** body.interval, whichever member of the union was stored. */
    function Interval(): nat {
      match body
      case Accurate(step) => step
      case Approximate(_, bits) => bits
    }

    ghost predicate Ok() {
      && start <= end
      && (body.Accurate? ==> (body.step == 0 <==> start == end) && (body.step != 0 ==> (end - start) % body.step == 0))
    }

    /** segment_size */
    function Bytes(): nat {
      match body
      case Accurate(_) => 8
      case Approximate(lines, _) => 8 * lines
    }

    /** segment_acc_include */
    predicate Includes(lba: nat)
      requires body.Accurate?
    {
      start <= lba <= end && (body.step != 0 ==> (lba - start) % body.step == 0)
    }

    /** An accurate segment that answers for lba. */
    predicate Answers(lba: nat) {
      body.Accurate? && Includes(lba)
    }

    /** segment_get_addr of an accurate segment */
    function Addr(lba: nat): nat
      requires body.Accurate? && start <= lba
    {
      (lba - start) / (if body.step <= 1 then 1 else body.step) + ppa
    }
  }

  predicate Overlaps(a: Segment, b: Segment) {
    a.start <= b.end && b.start <= a.end
  }

  /** segment_removable: asked only of an accurate newer segment. */
  predicate Removable(older: Segment, newer: Segment)
    requires newer.body.Accurate?
  {
    && newer.start <= older.start && older.end <= newer.end
    && if older.Interval() == 0 then newer.Includes(older.start)
       else older.Interval() == newer.body.step && (older.start - newer.start) % newer.body.step == 0
  }

  // ----- progressions

  lemma {:induction false} MultipleOf(k: nat, d: nat)
    requires d > 0
    ensures Base(k, d) % d == 0 && Base(k, d) / d == k
  {
    Split(d, Base(k, d), k);
  }

  lemma {:induction false} ModSum(x: nat, y: nat, d: nat)
    requires d > 0 && x % d == 0
    ensures (x + y) % d == y % d
  {
    var q, p := x / d, y / d;
    Split(d, x, q);
    Split(d, y, p);
    BaseSum(q, p, d);
    Split(d, x + y, q + p);
  }

  /** The lbas of one insertion of an accurate segment: one lba with interval 0, or a progression. */
  ghost predicate Progression(lbas: seq<nat>, step: nat) {
    && lbas != [] && (step == 0 <==> |lbas| == 1)
    && forall k :: 0 <= k < |lbas| - 1 ==> lbas[k + 1] == lbas[k] + step
  }

  lemma {:induction false} ProgressionAt(lbas: seq<nat>, step: nat, k: nat)
    requires Progression(lbas, step) && k < |lbas|
    ensures lbas[k] == lbas[0] + Base(k, step)
  {
    if k > 0 {
      ProgressionAt(lbas, step, k - 1);
    }
  }

  /** segment_make of an accurate segment */
  function MakeAccurate(lbas: seq<nat>, ppa: nat, step: nat, seqno: nat): Segment
    requires lbas != []
  {
    Segment(lbas[0], lbas[|lbas| - 1], ppa, Accurate(step), seqno)
  }

  /** The segment includes exactly the lbas it was made of, and is well formed. */
  lemma {:induction false} MakesMembers(lbas: seq<nat>, ppa: nat, step: nat, seqno: nat)
    requires Progression(lbas, step)
    ensures MakeAccurate(lbas, ppa, step, seqno).Ok()
    ensures forall lba: nat :: MakeAccurate(lbas, ppa, step, seqno).Includes(lba) <==> lba in lbas
  {
    var s := MakeAccurate(lbas, ppa, step, seqno);
    var n := |lbas| - 1;
    ProgressionAt(lbas, step, n);
    if step != 0 {
      MultipleOf(n, step);
      BaseOrder(0, n, step);
      forall k | 0 <= k < |lbas| ensures s.Includes(lbas[k]) {
        ProgressionAt(lbas, step, k);
        MultipleOf(k, step);
        if k < n {
          BaseOrder(k, n, step);
        }
      }
      forall lba: nat | s.Includes(lba) ensures lba in lbas {
        IncludedAt(lbas, step, lba);
      }
    }
  }

  /** An included lba is the member its quotient names. */
  lemma {:induction false} IncludedAt(lbas: seq<nat>, step: nat, lba: nat)
    requires Progression(lbas, step) && step != 0
    requires lbas[0] <= lba <= lbas[|lbas| - 1] && (lba - lbas[0]) % step == 0
    ensures var k := (lba - lbas[0]) / step; k < |lbas| && lbas[k] == lba
  {
    var n := |lbas| - 1;
    var k := (lba - lbas[0]) / step;
    ProgressionAt(lbas, step, n);
    Split(step, lba - lbas[0], k);
    if k > n {
      BaseOrder(n, k, step);
    }
    ProgressionAt(lbas, step, k);
  }

  /** The address computed for a member is the one it was written to, when the addresses were consecutive. */
  lemma {:induction false} AddrExact(lbas: seq<nat>, ppas: seq<nat>, step: nat, seqno: nat, k: nat)
    requires Progression(lbas, step) && |ppas| == |lbas| && k < |lbas|
    requires forall i :: 0 <= i < |ppas| ==> ppas[i] == ppas[0] + i
    ensures MakeAccurate(lbas, ppas[0], step, seqno).Includes(lbas[k])
    ensures MakeAccurate(lbas, ppas[0], step, seqno).Addr(lbas[k]) == ppas[k]
  {
    MakesMembers(lbas, ppas[0], step, seqno);
    ProgressionAt(lbas, step, k);
    if step != 0 {
      MultipleOf(k, step);
    }
  }

  // ----- what may be freed

  /** Whatever an older accurate segment answered for, the newer one answers for when the older one is removable. */
  lemma {:induction false} RemovableIsCovered(older: Segment, newer: Segment, lba: nat)
    requires newer.body.Accurate? && older.body.Accurate? && Removable(older, newer) && older.Ok()
    requires older.Includes(lba)
    ensures newer.Includes(lba)
  {
    var d := newer.body.step;
    if older.body.step != 0 {
      ModSum(older.start - newer.start, lba - older.start, d);
      assert older.start - newer.start + (lba - older.start) == lba - newer.start;
    }
  }

  /** Freed exactly when covered by a segment with the same interval, or when it holds a single covered lba. */
  lemma {:induction false} RemovableIff(older: Segment, newer: Segment)
    requires newer.body.Accurate? && older.body.Accurate? && older.Ok() && newer.Ok()
    ensures Removable(older, newer) <==>
            (older.body.step == 0 || older.body.step == newer.body.step)
            && forall lba: nat :: older.Includes(lba) ==> newer.Includes(lba)
  {
    if Removable(older, newer) {
      forall lba: nat | older.Includes(lba) ensures newer.Includes(lba) {
        RemovableIsCovered(older, newer, lba);
      }
    }
    if forall lba: nat :: older.Includes(lba) ==> newer.Includes(lba) {
      assert older.Includes(older.start) && older.Includes(older.end);
    }
  }
}
