/**
 * What one insertion does to the whole stack of levels (algorithm/leaFTL/group.cc:401-471): the top level takes the new
 * segment, what it overlaps goes down to a level of its own, and all deeper levels move down.
 */
module LeaPush {
  import opened LeaSegment
  import opened LeaLevel

  function Pushed(levels: seq<Level>, newer: Segment, a: nat, b: nat): (r: seq<Level>)
    requires levels != [] && a <= b <= |levels[0]|
  {
    var godown := Kept(levels[0][a..b], Staying(newer));
    [Replaced(levels[0], newer, a, b)] + if godown == [] then levels[1..] else [godown] + levels[1..]
  }

  // ----- every level stays sorted and disjoint

  lemma {:induction false} ReplacedOk(lev: Level, newer: Segment, a: nat, b: nat)
    requires LevelOk(lev) && newer.Ok() && Window(lev, newer, a, b)
    ensures LevelOk(Replaced(lev, newer, a, b))
  {
    var r := Replaced(lev, newer, a, b);
    forall i | 0 <= i < |r| ensures r[i] == if i < a then lev[i] else if i == a then newer else lev[i - a - 1 + b] {
    }
  }

  lemma {:induction false} KeptOk(lev: Level, keep: Segment -> bool)
    requires LevelOk(lev)
    ensures LevelOk(Kept(lev, keep))
  {
    if lev != [] {
      var n := |lev| - 1;
      var rest := Kept(lev[..n], keep);
      KeptOk(lev[..n], keep);
      forall i | 0 <= i < |rest| ensures rest[i].end < lev[n].start {
        KeptIs(lev[..n], keep, rest[i]);
      }
    }
  }

  lemma {:induction false} PushedOk(levels: seq<Level>, newer: Segment, a: nat, b: nat)
    requires levels != [] && LevelsOk(levels) && newer.Ok() && Window(levels[0], newer, a, b)
    ensures LevelsOk(Pushed(levels, newer, a, b))
  {
    ReplacedOk(levels[0], newer, a, b);
    assert LevelOk(levels[0][a..b]);
    KeptOk(levels[0][a..b], Staying(newer));
    var r := Pushed(levels, newer, a, b);
    forall i | 0 <= i < |r| ensures LevelOk(r[i]) {
      var d := if Kept(levels[0][a..b], Staying(newer)) == [] then 1 else 2;
      if i >= d {
        assert r[i] == levels[1..][i - d];
      }
    }
  }

  // ----- of two overlapping segments the newer is higher

  ghost predicate AllNewer(upper: Level, lower: Level) {
    forall x, y :: x in upper && y in lower && Overlaps(x, y) ==> y.seqno < x.seqno
  }

  ghost predicate NewerAbove(levels: seq<Level>) {
    forall i, j :: 0 <= i < j < |levels| ==> AllNewer(levels[i], levels[j])
  }

  ghost predicate MadeBefore(levels: seq<Level>, n: nat) {
    forall i, x :: 0 <= i < |levels| && x in levels[i] ==> x.seqno < n
  }

  lemma {:induction false} SameLevel(lev: Level, x: Segment, y: Segment)
    requires LevelOk(lev) && x in lev && y in lev && Overlaps(x, y)
    ensures x == y
  {
    var k :| 0 <= k < |lev| && lev[k] == x;
    var m :| 0 <= m < |lev| && lev[m] == y;
  }

  /** Of two overlapping live segments the newer is at a strictly higher level. */
  lemma {:induction false} NewerIsHigher(levels: seq<Level>, i: nat, j: nat, x: Segment, y: Segment)
    requires LevelsOk(levels) && NewerAbove(levels) && i < |levels| && j < |levels| && x in levels[i] && y in levels[j]
    requires Overlaps(x, y)
    ensures i < j ==> y.seqno < x.seqno
    ensures j < i ==> x.seqno < y.seqno
    ensures i == j ==> x == y
  {
    if i < j {
      assert AllNewer(levels[i], levels[j]);
    } else if j < i {
      assert AllNewer(levels[j], levels[i]);
    } else {
      SameLevel(levels[i], x, y);
    }
  }

  lemma {:induction false} PushedNewerAbove(levels: seq<Level>, newer: Segment, a: nat, b: nat)
    requires levels != [] && LevelsOk(levels) && Window(levels[0], newer, a, b)
    requires NewerAbove(levels) && MadeBefore(levels, newer.seqno)
    ensures NewerAbove(Pushed(levels, newer, a, b)) && MadeBefore(Pushed(levels, newer, a, b), newer.seqno + 1)
  {
    var top, godown := levels[0], Kept(levels[0][a..b], Staying(newer));
    var top' := Replaced(top, newer, a, b);
    TopNewer(top, newer, a, b, Staying(newer));
    var r := Pushed(levels, newer, a, b);
    var d := if godown == [] then 1 else 2;
    forall i, j | 0 <= i < j < |r| ensures AllNewer(r[i], r[j]) {
      if j >= d {
        assert r[j] == levels[1..][j - d] == levels[j - d + 1];
        assert MadeBefore(levels, newer.seqno);
        if i >= d {
          assert r[i] == levels[1..][i - d] == levels[i - d + 1];
        } else {
          assert AllNewer(top, levels[j - d + 1]);
        }
      }
    }
    forall i, x: Segment | 0 <= i < |r| && x in r[i] ensures x.seqno < newer.seqno + 1 {
      if i >= d {
        assert r[i] == levels[1..][i - d] == levels[i - d + 1];
      }
    }
  }

  lemma {:induction false} ReplacedHas(lev: Level, newer: Segment, a: nat, b: nat, x: Segment)
    requires a <= b <= |lev|
    ensures x in Replaced(lev, newer, a, b) <==> x == newer || x in lev[..a] || x in lev[b..]
  {
  }

  /** The new top level against what left it. */
  lemma {:induction false} TopNewer(top: Level, newer: Segment, a: nat, b: nat, keep: Segment -> bool)
    requires LevelOk(top) && Window(top, newer, a, b) && forall x :: x in top ==> x.seqno < newer.seqno
    ensures AllNewer(Replaced(top, newer, a, b), Kept(top[a..b], keep))
    ensures forall x :: x in Replaced(top, newer, a, b) ==> x == newer || x in top
    ensures forall x :: x in Kept(top[a..b], keep) ==> x in top
  {
    forall x | x in Replaced(top, newer, a, b) ensures x == newer || x in top {
      ReplacedHas(top, newer, a, b, x);
    }
    forall y | y in Kept(top[a..b], keep) ensures y in top[a..b] {
      KeptIs(top[a..b], keep, y);
    }
    forall x, y | x in Replaced(top, newer, a, b) && y in Kept(top[a..b], keep) && Overlaps(x, y)
      ensures y.seqno < x.seqno
    {
      ReplacedHas(top, newer, a, b, x);
      if x != newer {
        NotInWindow(top, a, b, x, y);
      }
    }
  }

  /** Segments on both sides of a cut of one level do not overlap. */
  lemma {:induction false} NotInWindow(lev: Level, a: nat, b: nat, x: Segment, y: Segment)
    requires LevelOk(lev) && a <= b <= |lev| && (x in lev[..a] || x in lev[b..]) && y in lev[a..b]
    ensures !Overlaps(x, y)
  {
    var k :| 0 <= k < |lev| && !(a <= k < b) && lev[k] == x;
    var j :| a <= j < b && lev[j] == y;
    assert lev[k].start <= lev[k].end && lev[j].start <= lev[j].end;
  }

  // ----- the search sees the new segment and nothing else changes

  lemma {:induction false} HitConcat(x: Level, y: Level, p: Segment -> bool)
    ensures Hit(x + y, p) == if Hit(x, p).Seg? then Hit(x, p) else Hit(y, p)
  {
    if x == [] {
      assert x + y == y;
    } else {
      assert (x + y)[0] == x[0] && (x + y)[1..] == x[1..] + y;
      HitConcat(x[1..], y, p);
    }
  }

  lemma {:induction false} SoleParts(x: Level, y: Level, p: Segment -> bool)
    requires Sole(x + y, p)
    ensures Sole(x, p) && Sole(y, p) && (Hit(x, p).Null? || Hit(y, p).Null?)
  {
    assert forall i :: 0 <= i < |x| ==> (x + y)[i] == x[i];
    assert forall i :: 0 <= i < |y| ==> (x + y)[|x| + i] == y[i];
    HitIs(x, p);
    HitIs(y, p);
  }

  lemma {:induction false} HitReplaced(lev: Level, newer: Segment, a: nat, b: nat, p: Segment -> bool)
    requires a <= b <= |lev| && Sole(lev, p) && Sole(Replaced(lev, newer, a, b), p)
    ensures p(newer) ==> Hit(Replaced(lev, newer, a, b), p) == Seg(newer)
    ensures !p(newer) && Hit(lev[a..b], p).Seg? ==>
              Hit(Replaced(lev, newer, a, b), p) == Null && Hit(lev, p) == Hit(lev[a..b], p)
    ensures !p(newer) && Hit(lev[a..b], p).Null? ==> Hit(Replaced(lev, newer, a, b), p) == Hit(lev, p)
  {
    var l, m, r := lev[..a], lev[a..b], lev[b..];
    assert lev == l + m + r;
    SoleParts(l + m, r, p);
    SoleParts(l, m, p);
    HitConcat(l + m, r, p);
    HitConcat(l, m, p);
    SoleParts(l + [newer], r, p);
    SoleParts(l, [newer], p);
    HitConcat(l + [newer], r, p);
    HitConcat(l, [newer], p);
    assert Hit([newer], p) == if p(newer) then Seg(newer) else Null;
  }

  lemma {:induction false} HitKept(lev: Level, keep: Segment -> bool, p: Segment -> bool)
    requires Sole(lev, p) && Sole(Kept(lev, keep), p)
    requires forall x :: x in lev && p(x) ==> keep(x)
    ensures Hit(Kept(lev, keep), p) == Hit(lev, p)
  {
    var kept := Kept(lev, keep);
    HitIs(kept, p);
    HitIs(lev, p);
    forall x ensures x in kept <==> x in lev && keep(x) {
      KeptIs(lev, keep, x);
    }
    if Hit(lev, p).Seg? {
      var x := Hit(lev, p).seg;
      var i :| 0 <= i < |kept| && kept[i] == x;
    } else {
      forall i | 0 <= i < |kept| ensures !p(kept[i]) {
        assert kept[i] in lev;
      }
    }
  }

  /** A segment that answers where the newer one does not is not freed. */
  lemma {:induction false} AnsweringStays(lev: Level, newer: Segment, lba: nat)
    requires LevelOk(lev) && !newer.Answers(lba)
    ensures forall x :: x in lev && Answering(lba)(x) ==> Staying(newer)(x)
  {
    forall x | x in lev && Answering(lba)(x) ensures Staying(newer)(x) {
      if newer.body.Accurate? && Removable(x, newer) {
        RemovableIsCovered(x, newer, lba);
      }
    }
  }

  lemma {:induction false} SearchCons(lev: Level, levels: seq<Level>, p: Segment -> bool)
    ensures Search([lev] + levels, p) == if Hit(lev, p).Seg? then Hit(lev, p) else Search(levels, p)
  {
    assert ([lev] + levels)[1..] == levels;
  }

  /** The newest-first search after the top level was replaced and its segments went down. */
  lemma {:induction false} SearchPushed(levels: seq<Level>, newer: Segment, a: nat, b: nat, p: Segment -> bool)
    requires levels != [] && a <= b <= |levels[0]|
    requires Sole(levels[0], p) && Sole(Replaced(levels[0], newer, a, b), p)
    requires !p(newer) ==> Hit(Kept(levels[0][a..b], Staying(newer)), p) == Hit(levels[0][a..b], p)
    ensures Search(Pushed(levels, newer, a, b), p) == if p(newer) then Seg(newer) else Search(levels, p)
  {
    HitReplaced(levels[0], newer, a, b, p);
    var r, godown := Pushed(levels, newer, a, b), Kept(levels[0][a..b], Staying(newer));
    if godown == [] {
      SearchCons(r[0], levels[1..], p);
    } else {
      SearchCons(r[0], [godown] + levels[1..], p);
      SearchCons(godown, levels[1..], p);
    }
  }

  /** The search after an insertion: the new segment where it answers, the old answer elsewhere. */
  lemma {:induction false} PushedSearch(levels: seq<Level>, newer: Segment, a: nat, b: nat, lba: nat)
    requires levels != [] && LevelsOk(levels) && newer.Ok() && Window(levels[0], newer, a, b)
    ensures Search(Pushed(levels, newer, a, b), Answering(lba))
            == if newer.Answers(lba) then Seg(newer) else Search(levels, Answering(lba))
  {
    var p := Answering(lba);
    var over := levels[0][a..b];
    assert LevelOk(over);
    ReplacedOk(levels[0], newer, a, b);
    KeptOk(over, Staying(newer));
    AnswersOnce(levels[0], lba);
    AnswersOnce(Replaced(levels[0], newer, a, b), lba);
    if !newer.Answers(lba) {
      AnswersOnce(over, lba);
      AnswersOnce(Kept(over, Staying(newer)), lba);
      AnsweringStays(over, newer, lba);
      HitKept(over, Staying(newer), p);
    }
    SearchPushed(levels, newer, a, b, p);
  }

  // ----- bytes and identities are conserved

  ghost function LevelBytes(lev: Level): nat {
    if lev == [] then 0 else LevelBytes(lev[..|lev| - 1]) + lev[|lev| - 1].Bytes()
  }

  ghost function Bytes(levels: seq<Level>): nat {
    if levels == [] then 0 else LevelBytes(levels[0]) + Bytes(levels[1..])
  }

  lemma {:induction false} LevelBytesConcat(x: Level, y: Level)
    ensures LevelBytes(x + y) == LevelBytes(x) + LevelBytes(y)
  {
    if y == [] {
      assert x + y == x;
    } else {
      var n := |y| - 1;
      assert (x + y)[..|x + y| - 1] == x + y[..n];
      LevelBytesConcat(x, y[..n]);
    }
  }

  lemma {:induction false} KeptBytes(lev: Level, keep: Segment -> bool)
    ensures LevelBytes(Kept(lev, keep)) + LevelBytes(Freed(lev, keep)) == LevelBytes(lev)
  {
    if lev != [] {
      var n := |lev| - 1;
      KeptBytes(lev[..n], keep);
      KeptStep(lev, keep);
      if keep(lev[n]) {
        AddBytes(Kept(lev[..n], keep), lev[n]);
      } else {
        AddBytes(Freed(lev[..n], keep), lev[n]);
      }
    }
  }

  lemma {:induction false} KeptStep(lev: Level, keep: Segment -> bool)
    requires lev != []
    ensures var n := |lev| - 1;
            if keep(lev[n]) then Kept(lev, keep) == Kept(lev[..n], keep) + [lev[n]] &&
                Freed(lev, keep) == Freed(lev[..n], keep)
            else Kept(lev, keep) == Kept(lev[..n], keep) && Freed(lev, keep) == Freed(lev[..n], keep) + [lev[n]]
  {
  }

  lemma {:induction false} KeptLive(lev: Level, keep: Segment -> bool)
    ensures multiset(Kept(lev, keep)) + multiset(Freed(lev, keep)) == multiset(lev)
  {
    if lev != [] {
      var n := |lev| - 1;
      KeptLive(lev[..n], keep);
      OneMore(lev);
    }
  }

  lemma {:induction false} OneMore(lev: Level)
    requires lev != []
    ensures multiset(lev) == multiset(lev[..|lev| - 1]) + multiset{lev[|lev| - 1]}
  {
    assert lev == lev[..|lev| - 1] + [lev[|lev| - 1]];
  }

  lemma {:induction false} AddBytes(lev: Level, x: Segment)
    ensures LevelBytes(lev + [x]) == LevelBytes(lev) + x.Bytes()
  {
    assert (lev + [x])[..|lev|] == lev;
  }

  lemma {:induction false} OneSegment(x: Segment)
    ensures LevelBytes([x]) == x.Bytes()
  {
    assert [x][..0] == [];
  }

  /** The top level's bytes before and after, with what went down and what was freed. */
  lemma {:induction false} ReplacedBytes(lev: Level, newer: Segment, a: nat, b: nat)
    requires a <= b <= |lev|
    ensures LevelBytes(Replaced(lev, newer, a, b)) + LevelBytes(lev[a..b]) == LevelBytes(lev) + newer.Bytes()
  {
    assert lev == lev[..a] + lev[a..b] + lev[b..];
    LevelBytesConcat(lev[..a] + lev[a..b], lev[b..]);
    LevelBytesConcat(lev[..a], lev[a..b]);
    LevelBytesConcat(lev[..a] + [newer], lev[b..]);
    LevelBytesConcat(lev[..a], [newer]);
    OneSegment(newer);
  }

  ghost function Live(levels: seq<Level>): multiset<Segment> {
    if levels == [] then multiset{} else multiset(levels[0]) + Live(levels[1..])
  }

  lemma {:induction false} ConsLevel(lev: Level, levels: seq<Level>)
    ensures Bytes([lev] + levels) == LevelBytes(lev) + Bytes(levels)
    ensures Live([lev] + levels) == multiset(lev) + Live(levels)
  {
    assert ([lev] + levels)[1..] == levels;
  }

  /** The levels of a push one by one. */
  lemma {:induction false} PushedParts(levels: seq<Level>, newer: Segment, a: nat, b: nat)
    requires levels != [] && a <= b <= |levels[0]|
    ensures Bytes(Pushed(levels, newer, a, b))
            == LevelBytes(Replaced(levels[0], newer, a, b)) + LevelBytes(Kept(levels[0][a..b], Staying(newer)))
                + Bytes(levels[1..])
    ensures Live(Pushed(levels, newer, a, b))
            == multiset(Replaced(levels[0], newer, a, b)) + multiset(Kept(levels[0][a..b], Staying(newer)))
                + Live(levels[1..])
  {
    var top, godown := Replaced(levels[0], newer, a, b), Kept(levels[0][a..b], Staying(newer));
    if godown == [] {
      ConsLevel(top, levels[1..]);
    } else {
      ConsLevel(top, [godown] + levels[1..]);
      ConsLevel(godown, levels[1..]);
    }
  }

  lemma {:induction false} PushedBytes(levels: seq<Level>, newer: Segment, a: nat, b: nat)
    requires levels != [] && a <= b <= |levels[0]|
    ensures Bytes(Pushed(levels, newer, a, b)) + LevelBytes(Freed(levels[0][a..b], Staying(newer)))
        == Bytes(levels) + newer.Bytes()
  {
    PushedParts(levels, newer, a, b);
    ReplacedBytes(levels[0], newer, a, b);
    KeptBytes(levels[0][a..b], Staying(newer));
  }

  lemma {:induction false} ReplacedLive(lev: Level, newer: Segment, a: nat, b: nat)
    requires a <= b <= |lev|
    ensures multiset(Replaced(lev, newer, a, b)) + multiset(lev[a..b]) == multiset(lev) + multiset{newer}
  {
    assert lev == lev[..a] + lev[a..b] + lev[b..];
  }

  lemma {:induction false} Balance<T>(top: multiset<T>, kept: multiset<T>, deeper: multiset<T>, freed: multiset<T>,
                   over: multiset<T>, was: multiset<T>, newer: multiset<T>)
    requires top + over == was + newer && kept + freed == over
    ensures top + kept + deeper + freed == was + deeper + newer
  {
    assert top + kept + deeper + freed == top + (kept + freed) + deeper;
    assert was + deeper + newer == was + newer + deeper;
  }

  /** Every live segment, the new one included, is live or freed afterwards, once. */
  lemma {:induction false} PushedLive(levels: seq<Level>, newer: Segment, a: nat, b: nat)
    requires levels != [] && a <= b <= |levels[0]|
    ensures Live(Pushed(levels, newer, a, b)) + multiset(Freed(levels[0][a..b], Staying(newer)))
        == Live(levels) + multiset{newer}
  {
    PushedParts(levels, newer, a, b);
    ReplacedLive(levels[0], newer, a, b);
    KeptLive(levels[0][a..b], Staying(newer));
    Balance(multiset(Replaced(levels[0], newer, a, b)), multiset(Kept(levels[0][a..b], Staying(newer))),
            Live(levels[1..]), multiset(Freed(levels[0][a..b], Staying(newer))), multiset(levels[0][a..b]),
            multiset(levels[0]), multiset{newer});
  }

  lemma {:induction false} LiveIs(levels: seq<Level>, x: Segment)
    ensures x in Live(levels) <==> exists i :: 0 <= i < |levels| && x in levels[i]
  {
    if levels != [] {
      LiveIs(levels[1..], x);
      assert forall i :: 1 <= i < |levels| ==> levels[i] == levels[1..][i - 1];
    }
  }
}
