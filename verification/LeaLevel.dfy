/**
 * The levels of a group: sorted lists of disjoint segments, newest on top (algorithm/leaFTL/group.cc). A level is the
 * value of one std::vector of segments.
 */
module LeaLevel {
  import opened LeaSegment

  datatype Entry = Null | Seg(seg: Segment)

  type Level = seq<Segment>

  /** Sorted by start and pairwise disjoint. */
  ghost predicate LevelOk(lev: Level) {
    && (forall i :: 0 <= i < |lev| ==> lev[i].Ok())
    && forall i, j :: 0 <= i < j < |lev| ==> lev[i].end < lev[j].start
  }

  ghost predicate LevelsOk(levels: seq<Level>) {
    forall i :: 0 <= i < |levels| ==> LevelOk(levels[i])
  }

  /** The segments before a end before seg, those from a to b overlap it, those from b on start after it. */
  ghost predicate Window(lev: Level, seg: Segment, a: nat, b: nat) {
    && a <= b <= |lev|
    && (forall i :: 0 <= i < a ==> lev[i].end < seg.start)
    && (forall i :: a <= i < b ==> Overlaps(lev[i], seg))
    && (forall i :: b <= i < |lev| ==> seg.end < lev[i].start)
  }

  // ----- searching one level

  /** std::lower_bound by start */
  method LowerBound(lev: Level, start: nat) returns (k: nat)
    requires LevelOk(lev)
    ensures k <= |lev| && (forall i :: 0 <= i < k ==> lev[i].start < start)
    ensures forall i :: k <= i < |lev| ==> start <= lev[i].start
  {
    k := 0;
    var count: nat := |lev|;
    while count > 0
      invariant 0 <= k <= k + count <= |lev|
      invariant forall i :: 0 <= i < k ==> lev[i].start < start
      invariant forall i :: k + count <= i < |lev| ==> start <= lev[i].start
    {
      var half := count / 2;
      if lev[k + half].start < start {
        k, count := k + half + 1, count - half - 1;
      } else {
        count := half;
      }
    }
  }

  /** level_lower_bound_wrapper: the last segment that starts no later, or the first one when there is none. */
  method LowerBoundWrapper(lev: Level, start: nat, end: nat) returns (found: bool, idx: nat)
    requires LevelOk(lev)
    ensures !found ==> idx == |lev| && forall i :: 0 <= i < |lev| ==>
        lev[i].start < start && !(lev[i].start <= end && start <= lev[i].end)
    ensures found ==> idx < |lev| && (forall i :: 0 <= i < idx ==> lev[i].end < start)
                      && (forall i :: idx < i < |lev| ==> start < lev[i].start)
  {
    if |lev| == 0 {
      return false, |lev|;
    }
    idx := LowerBound(lev, start);
    assert forall i, j :: 0 <= i < j < |lev| ==> lev[i].start <= lev[i].end < lev[j].start;
    if idx == |lev| {
      if lev[|lev| - 1].start > end || lev[|lev| - 1].end < start {
        return false, idx;
      } else {
        return true, |lev| - 1;
      }
    } else if lev[idx].start > start && idx != 0 {
      idx := idx - 1;
      assert lev[idx].start < start;
    }
    found := true;
  }

  /** Who answers for lba. */
  function Answering(lba: nat): Segment -> bool {
    (x: Segment) => x.Answers(lba)
  }

  /** The first segment of a level with the property. */
  ghost function Hit(lev: Level, p: Segment -> bool): Entry {
    if lev == [] then Null
    else if p(lev[0]) then Seg(lev[0])
    else Hit(lev[1..], p)
  }

  ghost predicate Sole(lev: Level, p: Segment -> bool) {
    forall i, j :: 0 <= i < j < |lev| ==> !(p(lev[i]) && p(lev[j]))
  }

  /** A level has at most one segment that answers. */
  lemma {:induction false} AnswersOnce(lev: Level, lba: nat)
    requires LevelOk(lev)
    ensures Sole(lev, Answering(lba))
  {
  }

  lemma {:induction false} HitIs(lev: Level, p: Segment -> bool)
    requires Sole(lev, p)
    ensures Hit(lev, p).Null? <==> forall i :: 0 <= i < |lev| ==> !p(lev[i])
    ensures forall i :: 0 <= i < |lev| && p(lev[i]) ==> Hit(lev, p) == Seg(lev[i])
    ensures Hit(lev, p).Seg? ==> Hit(lev, p).seg in lev && p(Hit(lev, p).seg)
  {
    if lev != [] {
      HitIs(lev[1..], p);
      assert forall i :: 0 < i < |lev| ==> lev[i] == lev[1..][i - 1];
    }
  }

  /** The newest-first search. */
  ghost function Search(levels: seq<Level>, p: Segment -> bool): Entry {
    if levels == [] then Null
    else if Hit(levels[0], p).Seg? then Hit(levels[0], p)
    else Search(levels[1..], p)
  }

  lemma {:induction false} SearchFindsLive(levels: seq<Level>, lba: nat)
    requires LevelsOk(levels) && Search(levels, Answering(lba)).Seg?
    ensures Search(levels, Answering(lba)).seg.Answers(lba)
    ensures exists i :: 0 <= i < |levels| && Search(levels, Answering(lba)).seg in levels[i]
  {
    AnswersOnce(levels[0], lba);
    HitIs(levels[0], Answering(lba));
    if Hit(levels[0], Answering(lba)).Null? {
      SearchFindsLive(levels[1..], lba);
      var i :| 0 <= i < |levels[1..]| && Search(levels, Answering(lba)).seg in levels[1..][i];
      assert levels[1..][i] == levels[i + 1];
    }
  }

  /** One level of the search: the candidate next to lba is the only one that can answer. */
  method Probe(lev: Level, lba: nat) returns (e: Entry)
    requires LevelOk(lev)
    ensures e == Hit(lev, Answering(lba))
  {
    AnswersOnce(lev, lba);
    HitIs(lev, Answering(lba));
    var found, idx := LowerBoundWrapper(lev, lba, lba);
    if !found {
      return Null;
    }
    if !(lev[idx].start <= lba <= lev[idx].end) {
      return Null;
    }
    if lev[idx].body.Accurate? && lev[idx].Includes(lba) {
      return Seg(lev[idx]);
    }
    return Null;
  }

  /** group_get_segment without the flat array */
  method GetSegment(levels: seq<Level>, lba: nat) returns (e: Entry)
    requires LevelsOk(levels)
    ensures e == Search(levels, Answering(lba))
  {
    var height := 0;
    while height < |levels|
      invariant height <= |levels| && Search(levels, Answering(lba)) == Search(levels[height..], Answering(lba))
    {
      e := Probe(levels[height], lba);
      if e.Seg? {
        return;
      }
      assert levels[height..][1..] == levels[height + 1..];
      height := height + 1;
    }
    return Null;
  }

  // ----- inserting into the top level

  /** find_overlap: exactly the overlapping segments, in order. */
  method FindOverlap(lev: Level, seg: Segment) returns (res: Level, ghost a: nat, ghost b: nat)
    requires LevelOk(lev) && seg.start <= seg.end
    ensures Window(lev, seg, a, b) && res == lev[a..b]
  {
    res := [];
    if |lev| == 0 {
      a, b := 0, 0;
      return;
    }
    var found, i := LowerBoundWrapper(lev, seg.start, seg.end);
    if !found {
      a, b := |lev|, |lev|;
      return;
    }
    a, b := i, i;
    assert Window(lev[..i], seg, i, i);
    while i < |lev|
      invariant a <= b <= i <= |lev| && res == lev[a..b] && Window(lev[..i], seg, a, b)
    {
      WindowStep(lev, seg, a, b, i);
      if !(lev[i].start > seg.end || lev[i].end < seg.start) {
        res := res + [lev[i]];
        b := i + 1;
      } else if lev[i].end < seg.start {
        a, b := i + 1, i + 1;
      }
      i := i + 1;
    }
    assert lev[..i] == lev;
  }

  /** The next segment of a level comes before, inside or behind the window. */
  lemma {:induction false} WindowStep(lev: Level, seg: Segment, a: nat, b: nat, i: nat)
    requires LevelOk(lev) && seg.start <= seg.end && i < |lev| && Window(lev[..i], seg, a, b)
    ensures Overlaps(lev[i], seg) ==>
        b == i && Window(lev[..i + 1], seg, a, i + 1) && lev[a..b] + [lev[i]] == lev[a..i + 1]
    ensures seg.end < lev[i].start ==> Window(lev[..i + 1], seg, a, b)
    ensures lev[i].end < seg.start ==> a == b == i && Window(lev[..i + 1], seg, i + 1, i + 1)
  {
    assert forall k :: 0 <= k < i ==> lev[k] == lev[..i][k] && lev[k].end < lev[i].start;
    if b < i {
      assert seg.end < lev[..i][b].start;
    }
    if a < b {
      assert Overlaps(lev[..i][b - 1], seg);
    }
  }

  /** Which overlapped segments are not freed: an approximate newcomer frees none. */
  function Staying(newer: Segment): Segment -> bool {
    (x: Segment) => !(newer.body.Accurate? && Removable(x, newer))
  }

  /** The segments with the property, in order. */
  function Kept(lev: Level, keep: Segment -> bool): (kept: Level) {
    if lev == [] then []
    else
      var n := |lev| - 1;
      Kept(lev[..n], keep) + if keep(lev[n]) then [lev[n]] else []
  }

  /** The segments without it. */
  ghost function Freed(lev: Level, keep: Segment -> bool): Level {
    if lev == [] then []
    else
      var n := |lev| - 1;
      Freed(lev[..n], keep) + if keep(lev[n]) then [] else [lev[n]]
  }

  lemma {:induction false} KeptIs(lev: Level, keep: Segment -> bool, x: Segment)
    ensures x in Kept(lev, keep) <==> x in lev && keep(x)
  {
    if lev != [] {
      var n := |lev| - 1;
      KeptIs(lev[..n], keep, x);
      assert lev == lev[..n] + [lev[n]];
    }
  }

  /** The top level with the overlapped segments replaced by the newer one. */
  function Replaced(lev: Level, newer: Segment, a: nat, b: nat): Level
    requires a <= b <= |lev|
  {
    lev[..a] + [newer] + lev[b..]
  }

  /** A level without a stretch of its segments is a level; its next segment is the one behind the stretch. */
  lemma {:induction false} Without(lev: Level, a: nat, i: nat)
    requires LevelOk(lev) && a + i < |lev|
    ensures var rest := lev[..a] + lev[a + i..];
            LevelOk(rest) && a < |rest| && rest[a] == lev[a + i] &&
                rest[..a] + rest[a + 1..] == lev[..a] + lev[a + i + 1..]
  {
    var rest := lev[..a] + lev[a + i..];
    assert forall k :: 0 <= k < |rest| ==> rest[k] == if k < a then lev[k] else lev[k + i];
  }

  /** The overlapped segments leave the level one by one; those not freed go down. */
  method PushOut(lev: Level, overlapped: Level, newer: Segment, ghost a: nat, ghost b: nat)
    returns (rest: Level, godown: Level)
    requires LevelOk(lev) && Window(lev, newer, a, b) && overlapped == lev[a..b]
    ensures rest == lev[..a] + lev[b..] && godown == Kept(lev[a..b], Staying(newer))
  {
    rest, godown := lev, [];
    var i := 0;
    while i < |overlapped|
      invariant i <= |overlapped| && rest == lev[..a] + lev[a + i..] && godown == Kept(overlapped[..i], Staying(newer))
    {
      var seg := overlapped[i];
      var remove := newer.body.Accurate? && Removable(seg, newer);
      Without(lev, a, i);
      rest := Erase(rest, seg, a);
      assert overlapped[..i + 1][..i] == overlapped[..i];
      if !remove {
        godown := godown + [seg];
      }
      i := i + 1;
    }
    assert overlapped[..i] == overlapped;
  }

  /** The segment is found where it stands and erased: the "must be found" abort is not reached. */
  method Erase(lev: Level, seg: Segment, ghost at: nat) returns (rest: Level)
    requires LevelOk(lev) && at < |lev| && lev[at] == seg
    ensures rest == lev[..at] + lev[at + 1..]
  {
    var found, idx := LowerBoundWrapper(lev, seg.start, seg.end);
    assert found && lev[idx] == seg && idx == at;
    rest := lev[..idx] + lev[idx + 1..];
  }

  /** Where a segment that overlaps nothing belongs. */
  method Place(lev: Level, seg: Segment, ghost a: nat) returns (lev': Level)
    requires LevelOk(lev) && seg.start <= seg.end && Window(lev, seg, a, a)
    ensures lev' == lev[..a] + [seg] + lev[a..]
  {
    var found, idx := LowerBoundWrapper(lev, seg.start, seg.end);
    if !found {
      idx := |lev|;
    } else if lev[idx].start < seg.start {
      idx := idx + 1;
    }
    assert idx == a by {
      assert a > 0 ==> lev[a - 1].start <= lev[a - 1].end < seg.start;
      assert a < |lev| ==> seg.end < lev[a].start;
    }
    lev' := lev[..idx] + [seg] + lev[idx..];
  }

  /** group_segment_update */
  method SegmentUpdate(lev: Level, newer: Segment) returns (lev': Level, godown: Level, ghost a: nat, ghost b: nat)
    requires LevelOk(lev) && newer.Ok()
    ensures Window(lev, newer, a, b) && lev' == Replaced(lev, newer, a, b) && godown == Kept(lev[a..b], Staying(newer))
  {
    var overlapped;
    overlapped, a, b := FindOverlap(lev, newer);
    var rest;
    rest, godown := PushOut(lev, overlapped, newer, a, b);
    assert Window(rest, newer, a, a);
    lev' := Place(rest, newer, a);
    assert rest[..a] == lev[..a] && rest[a..] == lev[b..];
  }
}
