/**
 * The searches over a run's block summaries (algorithm/layeredLSM/summary_page.h:69-130). A summary is the lba range
 * of a written block.
 */
module SummarySearch {

  /** summary_pair */
  datatype Pair = Pair(lba: nat, psa: nat)

  datatype Range = Range(start: nat, end: nat)

  predicate Overlap(a: Range, b: Range) {
    a.start <= b.end && b.start <= a.end
  }

  /** The summaries of a normal run: proper ranges, in order and apart. */
  ghost predicate Ordered(spm: seq<Range>) {
    && (forall i :: 0 <= i < |spm| ==> spm[i].start <= spm[i].end)
    && forall i, j :: 0 <= i < j < |spm| ==> spm[i].end < spm[j].start
  }

  /** spm_find_target_idx: the block that contains lba, or -1 (UINT32_MAX) when there is none. */
  method FindTargetIdx(spm: seq<Range>, lba: nat) returns (idx: int)
    requires Ordered(spm)
    ensures idx != -1 ==> 0 <= idx < |spm| && spm[idx].start <= lba <= spm[idx].end
    ensures idx == -1 ==> forall i :: 0 <= i < |spm| ==> !(spm[i].start <= lba <= spm[i].end)
  {
    var s, e := 0, |spm| - 1;
    while s <= e
      invariant 0 <= s <= |spm| && -1 <= e < |spm|
      invariant forall i :: 0 <= i < s ==> spm[i].end < lba
      invariant forall i :: e < i < |spm| ==> lba < spm[i].start
      decreases e - s
    {
      var mid := (s + e) / 2;
      if spm[mid].start == lba {
        return mid;
      } else if spm[mid].start > lba {
        e := mid - 1;
      } else if spm[mid].end >= lba {
        return mid;
      } else {
        s := mid + 1;
      }
    }
    return -1;
  }

  /** spm_joint_check: some block that shares an lba range with target, or -1 when none does. */
  method JointCheck(spm: seq<Range>, target: Range) returns (idx: int)
    requires Ordered(spm) && target.start <= target.end
    ensures idx != -1 ==> 0 <= idx < |spm| && Overlap(spm[idx], target)
    ensures idx == -1 ==> forall i :: 0 <= i < |spm| ==> !Overlap(spm[i], target)
  {
    var s, e := 0, |spm| - 1;
    while s <= e
      invariant 0 <= s <= |spm| && -1 <= e < |spm|
      invariant forall i :: 0 <= i < s ==> spm[i].end < target.start
      invariant forall i :: e < i < |spm| ==> target.end < spm[i].start
      decreases e - s
    {
      var mid := (s + e) / 2;
      if spm[mid].start == target.start {
        return mid;
      } else if spm[mid].start < target.start {
        if spm[mid].end >= target.start {
          return mid;
        }
        s := mid + 1;
      } else {
        if spm[mid].start <= target.end {
          return mid;
        }
        e := mid - 1;
      }
    }
    return -1;
  }

  /**
   * spm_joint_check_debug: the first overlapping block other than skip, where skip == -1 (UINT32_MAX) skips none but
   * stops at the first block beyond the target.
   */
  function ScanFrom(spm: seq<Range>, target: Range, skip: int, i: nat): int
    decreases |spm| - i
  {
    if i >= |spm| then -1
    else if i == skip || target.start > spm[i].end then ScanFrom(spm, target, skip, i + 1)
    else if target.end < spm[i].start then if skip == -1 then -1 else ScanFrom(spm, target, skip, i + 1)
    else i
  }

  /** The block before which a scan that skips none gives up. */
  ghost predicate StopsEarly(spm: seq<Range>, target: Range, i: nat) {
    exists j :: i <= j < |spm| && target.end < spm[j].start && target.start <= spm[j].end
  }

  /**
   * The linear scan finds an overlapping block whenever there is one exactly when it may not give up early: with a
   * block of the same run to skip always, and otherwise when no block beyond the target precedes the first overlap.
   */
  lemma {:induction false} ScanMissesIff(spm: seq<Range>, target: Range, skip: int, i: nat)
    requires i <= |spm| && target.start <= target.end && forall j :: 0 <= j < |spm| ==> spm[j].start <= spm[j].end
    ensures ScanFrom(spm, target, skip, i) == -1 <==>
            forall j :: i <= j < |spm| && j != skip && Overlap(spm[j], target) ==>
              skip == -1 && StopsEarly(spm[..j], target, i)
    ensures ScanFrom(spm, target, skip, i) != -1 ==>
            var j := ScanFrom(spm, target, skip, i); i <= j < |spm| && j != skip && Overlap(spm[j], target)
    decreases |spm| - i
  {
    if i < |spm| {
      ScanMissesIff(spm, target, skip, i + 1);
      forall j | i < j < |spm|
        ensures StopsEarly(spm[..j], target, i)
                <==> StopsEarly(spm[..j], target, i + 1) || (target.end < spm[i].start && target.start <= spm[i].end)
      {
        assert spm[..j][i] == spm[i];
      }
    }
  }

  method JointScan(spm: seq<Range>, target: Range, skip: int) returns (idx: int)
    requires target.start <= target.end && forall j :: 0 <= j < |spm| ==> spm[j].start <= spm[j].end
    ensures idx == ScanFrom(spm, target, skip, 0)
    ensures idx != -1 ==> 0 <= idx < |spm| && idx != skip && Overlap(spm[idx], target)
    ensures idx == -1 <==> forall j :: 0 <= j < |spm| && j != skip && Overlap(spm[j], target) ==>
                             skip == -1 && StopsEarly(spm[..j], target, 0)
  {
    ScanMissesIff(spm, target, skip, 0);
    var i := 0;
    while i < |spm|
      invariant i <= |spm| && ScanFrom(spm, target, skip, 0) == ScanFrom(spm, target, skip, i)
    {
      if i == skip {
        i := i + 1;
        continue;
      }
      if target.start > spm[i].end {
        i := i + 1;
        continue;
      }
      if target.end < spm[i].start {
        if skip == -1 {
          break;
        }
        i := i + 1;
        continue;
      }
      return i;
    }
    return -1;
  }

  /** A log run's blocks need not be in order; then the scan without a skipped block overlooks an overlap. */
  lemma {:induction false} UnorderedScanMisses()
    ensures var spm := [Range(10, 12), Range(0, 3)];
            ScanFrom(spm, Range(2, 4), -1, 0) == -1 && Overlap(spm[1], Range(2, 4))
  {
  }

  /** On an ordered run both searches agree. */
  lemma {:induction false} OrderedScanComplete(spm: seq<Range>, target: Range)
    requires Ordered(spm) && target.start <= target.end
    ensures ScanFrom(spm, target, -1, 0) == -1 <==> forall j :: 0 <= j < |spm| ==> !Overlap(spm[j], target)
  {
    ScanMissesIff(spm, target, -1, 0);
    forall j | 0 <= j < |spm| && Overlap(spm[j], target) ensures !StopsEarly(spm[..j], target, 0) {
    }
  }

  // ----- marking the blocks of a log run

  /** Block j shares no lba range with another block of its run. */
  ghost predicate Alone(spm: seq<Range>, j: nat)
    requires j < |spm|
  {
    forall k :: 0 <= k < |spm| && k != j ==> !Overlap(spm[k], spm[j])
  }

  /** The scan that skips the block itself finds another overlapping block exactly when there is one. */
  lemma {:induction false} SelfScanIff(spm: seq<Range>, j: nat)
    requires j < |spm| && forall k :: 0 <= k < |spm| ==> spm[k].start <= spm[k].end
    ensures ScanFrom(spm, spm[j], j, 0) == -1 <==> Alone(spm, j)
    ensures ScanFrom(spm, spm[j], j, 0) != -1 ==>
              var k := ScanFrom(spm, spm[j], j, 0); 0 <= k < |spm| && !Alone(spm, k)
  {
    ScanMissesIff(spm, spm[j], j, 0);
    var k := ScanFrom(spm, spm[j], j, 0);
    if k != -1 {
      assert Overlap(spm[j], spm[k]);
    }
  }

  /**
   * __check_disjoint_spm of a single log run, whose blocks may overlap each other in any order: the marked blocks are
   * exactly the movable ones that overlap no other block, in order.
   */
  method MarkLog(spm: seq<Range>, movable: seq<bool>) returns (marks: seq<nat>)
    requires |movable| == |spm| && forall k :: 0 <= k < |spm| ==> spm[k].start <= spm[k].end
    ensures forall i, k :: 0 <= i < k < |marks| ==> marks[i] < marks[k]
    ensures forall j: nat :: j in marks <==> j < |spm| && movable[j] && Alone(spm, j)
  {
    var disjoint := seq(|spm|, _ => true);
    marks := [];
    for j := 0 to |spm|
      invariant |disjoint| == |spm|
      invariant forall i, k :: 0 <= i < k < |marks| ==> marks[i] < marks[k]
      invariant forall i: nat :: i in marks <==> i < j && movable[i] && Alone(spm, i)
      invariant forall i :: j <= i < |spm| && !disjoint[i] ==> !Alone(spm, i)
    {
      if movable[j] && disjoint[j] {
        var idx := JointScan(spm, spm[j], j);
        SelfScanIff(spm, j);
        if idx == -1 {
          assert forall i :: 0 <= i < |marks| ==> marks[i] in marks;
          marks := marks + [j];
        } else {
          disjoint := disjoint[j := false][idx := false];
        }
      }
    }
  }
}
