/** A translation page turned into one level of accurate segments (algorithm/leaFTL/group.cc:473-554). */
module LeaOneLevel {
  import opened Layout
  import opened LeaSegment
  import opened LeaLevel
  import opened LeaGroup

  /** INITIAL_STATE_PADDR: the largest 32-bit address marks an unmapped lba. */
  const NO_ADDRESS: nat := 0xFFFF_FFFF

  ghost predicate Page(ppas: seq<nat>) {
    forall i :: 0 <= i < |ppas| ==> ppas[i] <= NO_ADDRESS
  }

  function Mapped(ppa: nat): Addr {
    if ppa == NO_ADDRESS then Unmapped else At(ppa)
  }

  /** The segment of a run of consecutive addresses. */
  function RunSegment(ppas: seq<nat>, start: nat, size: nat, seqno: nat): Segment
    requires size > 0 && start + size <= |ppas|
  {
    Segment(start, start + size - 1, ppas[start], Accurate(if size == 1 then 0 else 1), seqno)
  }

  ghost predicate IsRun(ppas: seq<nat>, start: nat, size: nat) {
    && size > 0 && start + size <= |ppas|
    && forall j :: start <= j < start + size ==> ppas[j] == ppas[start] + (j - start) && ppas[j] != NO_ADDRESS
  }

  /** What the level answers for lba. */
  ghost function Translate(lev: Level, lba: nat): Addr {
    var e := Hit(lev, Answering(lba));
    if e.Null? || !e.seg.Answers(lba) then Unmapped else AddressOf(e, lba)
  }

  /** The first n lbas read back as the page has them. */
  ghost predicate Faithful(lev: Level, ppas: seq<nat>, n: nat)
    requires n <= |ppas|
  {
    forall lba {:trigger Translate(lev, lba)} :: 0 <= lba < n ==> Translate(lev, lba) == Mapped(ppas[lba])
  }

  /** The last address before the mark directly followed by an unmapped lba. */
  predicate DropsRun(ppas: seq<nat>, i: nat) {
    i + 1 < |ppas| && ppas[i] == NO_ADDRESS - 1 && ppas[i + 1] == NO_ADDRESS
  }

  /** The pages the translation keeps: more than one entry (or nothing to keep), and no run that ends at the mark. */
  ghost predicate Translatable(ppas: seq<nat>) {
    && (|ppas| == 1 ==> ppas[0] == NO_ADDRESS)
    && forall i :: 0 <= i < |ppas| ==> !DropsRun(ppas, i)
  }

  ghost predicate Below(lev: Level, n: nat) {
    forall i :: 0 <= i < |lev| ==> lev[i].end < n
  }

  /** A level extended behind its end. */
  lemma {:induction false} Append(lev: Level, ppas: seq<nat>, start: nat, size: nat, seqno: nat)
    requires LevelOk(lev) && Below(lev, start) && IsRun(ppas, start, size)
    ensures var lev' := lev + [RunSegment(ppas, start, size, seqno)];
            && LevelOk(lev') && Below(lev', start + size)
            && (forall lba: nat :: lba < start ==> Translate(lev', lba) == Translate(lev, lba))
            && (forall lba: nat :: start <= lba < start + size ==> Translate(lev', lba) == At(ppas[lba]))
  {
    var s := RunSegment(ppas, start, size, seqno);
    var lev' := lev + [s];
    forall lba: nat | lba < start ensures Translate(lev', lba) == Translate(lev, lba) {
      SameBefore(lev, s, lba);
    }
    forall lba: nat | start <= lba < start + size ensures Translate(lev', lba) == At(ppas[lba]) {
      RunAnswers(ppas, start, size, seqno, lba);
      AnswersOnce(lev', lba);
      HitIs(lev', Answering(lba));
      assert lev'[|lev|] == s;
    }
  }

  lemma {:induction false} RunAnswers(ppas: seq<nat>, start: nat, size: nat, seqno: nat, lba: nat)
    requires IsRun(ppas, start, size) && start <= lba < start + size
    ensures RunSegment(ppas, start, size, seqno).Answers(lba)
    ensures AddressOf(Seg(RunSegment(ppas, start, size, seqno)), lba) == At(ppas[lba])
  {
    assert ppas[lba] == ppas[start] + (lba - start);
  }

  lemma {:induction false} SameBefore(lev: Level, s: Segment, lba: nat)
    requires LevelOk(lev + [s]) && lba < s.start
    ensures Translate(lev + [s], lba) == Translate(lev, lba)
  {
    var lev' := lev + [s];
    assert forall i :: 0 <= i < |lev| ==> lev'[i] == lev[i];
    assert LevelOk(lev);
    AnswersOnce(lev', lba);
    AnswersOnce(lev, lba);
    HitIs(lev', Answering(lba));
    HitIs(lev, Answering(lba));
    if Hit(lev, Answering(lba)).Seg? {
      var i :| 0 <= i < |lev| && lev[i] == Hit(lev, Answering(lba)).seg;
      assert lev'[i].Answers(lba);
    }
  }

  /** Nothing answers beyond the end of a level. */
  lemma {:induction false} NothingBeyond(lev: Level, lba: nat)
    requires LevelOk(lev) && Below(lev, lba + 1) && (forall i :: 0 <= i < |lev| ==> lev[i].end < lba)
    ensures Translate(lev, lba) == Unmapped
  {
    AnswersOnce(lev, lba);
    HitIs(lev, Answering(lba));
  }

  /** The translation up to index i: what was emitted, the run in progress, and whether a run was dropped. */
  ghost predicate Converting(lev: Level, ppas: seq<nat>, i: nat, start: nat, size: nat, remain: bool, lost: int) {
    && Page(ppas) && 1 <= i <= |ppas| && LevelOk(lev)
    && (ppas[i - 1] == NO_ADDRESS ==> !remain && Below(lev, i))
    && (ppas[i - 1] != NO_ADDRESS ==>
        IsRun(ppas, start, size) && start + size == i && Below(lev, start) && (remain <==> i > 1))
    && (lost == -1 ==> Faithful(lev, ppas, if ppas[i - 1] == NO_ADDRESS then i else start))
    && (lost == -1 ==> forall k :: 0 <= k < i - 1 ==> !DropsRun(ppas, k))
    && (lost >= 0 ==> lost + 1 < i && DropsRun(ppas, lost) && Translate(lev, lost) == Unmapped
                      && (ppas[i - 1] != NO_ADDRESS ==> lost < start))
    && -1 <= lost
  }

  /** The run in progress is emitted. */
  lemma {:induction false} Emitted(lev: Level, ppas: seq<nat>, start: nat, size: nat, seqno: nat, lost: int)
    requires LevelOk(lev) && Below(lev, start) && IsRun(ppas, start, size)
    ensures var lev' := lev + [RunSegment(ppas, start, size, seqno)];
            && LevelOk(lev') && Below(lev', start + size)
            && (Faithful(lev, ppas, start) ==> Faithful(lev', ppas, start + size))
            && (0 <= lost < start ==> Translate(lev', lost) == Translate(lev, lost))
  {
    Append(lev, ppas, start, size, seqno);
    var lev' := lev + [RunSegment(ppas, start, size, seqno)];
    if Faithful(lev, ppas, start) {
      forall lba | 0 <= lba < start + size ensures Translate(lev', lba) == Mapped(ppas[lba]) {
        if lba < start {
          assert Translate(lev, lba) == Mapped(ppas[lba]);
        }
      }
    }
  }

  /** An unmapped lba behind the level reads back as unmapped. */
  lemma {:induction false} Skipped(lev: Level, ppas: seq<nat>, i: nat)
    requires i < |ppas| && LevelOk(lev) && Below(lev, i) && ppas[i] == NO_ADDRESS
    ensures Below(lev, i + 1) && (Faithful(lev, ppas, i) ==> Faithful(lev, ppas, i + 1))
  {
    NothingBeyond(lev, i);
  }

  lemma {:induction false} AfterGap(lev: Level, ppas: seq<nat>, i: nat, start: nat, size: nat, lost: int)
    requires i < |ppas| && Converting(lev, ppas, i, start, size, false, lost) && ppas[i - 1] == NO_ADDRESS
    ensures Converting(lev, ppas, i + 1, i, 1, ppas[i] != NO_ADDRESS, lost)
  {
    if ppas[i] == NO_ADDRESS {
      Skipped(lev, ppas, i);
    }
  }

  lemma {:induction false} Extended(lev: Level, ppas: seq<nat>, i: nat, start: nat, size: nat, remain: bool, lost: int)
    requires i < |ppas| && Converting(lev, ppas, i, start, size, remain, lost)
    requires ppas[i - 1] != NO_ADDRESS && ppas[i] == ppas[i - 1] + 1
    ensures Converting(lev, ppas, i + 1, start, size + 1, ppas[i] != NO_ADDRESS,
                       if lost == -1 && ppas[i] == NO_ADDRESS then i - 1 else lost)
  {
    assert ppas[i - 1] == ppas[start] + (i - 1 - start);
    if ppas[i] == NO_ADDRESS {
      NothingBeyond(lev, i - 1);
    } else {
      assert IsRun(ppas, start, size + 1);
    }
  }

  lemma {:induction false} Cut(lev: Level, ppas: seq<nat>, i: nat, start: nat, size: nat, remain: bool, lost: int,
                               seqno: nat)
    requires i < |ppas| && Converting(lev, ppas, i, start, size, remain, lost)
    requires ppas[i - 1] != NO_ADDRESS && ppas[i] != ppas[i - 1] + 1
    ensures Converting(lev + [RunSegment(ppas, start, size, seqno)], ppas, i + 1, i, 1, ppas[i] != NO_ADDRESS, lost)
  {
    var lev' := lev + [RunSegment(ppas, start, size, seqno)];
    Emitted(lev, ppas, start, size, seqno, lost);
    if ppas[i] == NO_ADDRESS {
      Skipped(lev', ppas, i);
    }
  }

  /** map_to_onelevel: the page reads back as it was exactly when Translatable. */
  method MapToOneLevel(ppas: seq<nat>, made: nat) returns (lev: Level)
    requires Page(ppas) && ppas != []
    ensures LevelOk(lev) && (Faithful(lev, ppas, |ppas|) <==> Translatable(ppas))
  {
    lev := [];
    var prev, start: nat, size: nat, remain, i: nat := ppas[0], 0, 1, false, 1;
    ghost var lost: int := -1;
    if prev == NO_ADDRESS {
      NothingBeyond([], 0);
    }
    while i < |ppas|
      invariant 1 <= i <= |ppas| && prev == ppas[i - 1] && size > 0 && start + size <= |ppas|
      invariant Converting(lev, ppas, i, start, size, remain, lost)
    {
      if prev == NO_ADDRESS {
        AfterGap(lev, ppas, i, start, size, lost);
        start, size, remain := i, 1, true;
      } else if ppas[i] == prev + 1 {
        Extended(lev, ppas, i, start, size, remain, lost);
        lost := if lost == -1 && ppas[i] == NO_ADDRESS then i - 1 else lost;
        size, remain := size + 1, true;
      } else {
        Cut(lev, ppas, i, start, size, remain, lost, made + |lev|);
        lev := lev + [RunSegment(ppas, start, size, made + |lev|)];
        if ppas[i] == NO_ADDRESS {
          remain := false;
        } else {
          start, size, remain := i, 1, true;
        }
      }
      if ppas[i] == NO_ADDRESS {
        remain := false;
      }
      prev := ppas[i];
      i := i + 1;
    }
    ghost var lev0 := lev;
    if remain {
      Emitted(lev, ppas, start, size, made + |lev|, lost);
      lev := lev + [RunSegment(ppas, start, size, made + |lev|)];
    }
    Settle(lev0, lev, ppas, start, size, remain, lost);
  }

  lemma {:induction false} Settle(lev0: Level, lev: Level, ppas: seq<nat>, start: nat, size: nat, remain: bool,
                                  lost: int)
    requires Page(ppas) && ppas != [] && Converting(lev0, ppas, |ppas|, start, size, remain, lost)
    requires !remain ==> lev == lev0
    requires remain ==> LevelOk(lev) && (Faithful(lev0, ppas, start) ==> Faithful(lev, ppas, |ppas|))
                        && (0 <= lost < start ==> Translate(lev, lost) == Translate(lev0, lost))
    ensures Faithful(lev, ppas, |ppas|) <==> Translatable(ppas)
  {
    if lost >= 0 {
      assert Translate(lev, lost) != Mapped(ppas[lost]);
    } else if |ppas| == 1 && ppas[0] != NO_ADDRESS {
      NothingBeyond(lev, 0);
      assert Translate(lev, 0) != Mapped(ppas[0]);
    }
  }

  /** A page of several lbas whose addresses stay below the last one before the mark always reads back. */
  lemma {:induction false} RealPagesTranslatable(ppas: seq<nat>)
    requires |ppas| > 1 && forall i :: 0 <= i < |ppas| ==> ppas[i] == NO_ADDRESS || ppas[i] < NO_ADDRESS - 1
    ensures Page(ppas) && Translatable(ppas)
  {
    forall i | 0 <= i < |ppas| ensures !DropsRun(ppas, i) {
    }
  }

  /**
   * The repository's own device (include/settings.h with OP 90: 281 segments of 128*64 pages of 4 pieces) is one of
   * those.
   */
  lemma {:induction false} DevicePagesTranslatable(ppas: seq<nat>)
    requires |ppas| > 1 && forall i :: 0 <= i < |ppas| ==> ppas[i] == NO_ADDRESS || ppas[i] < 281 * 8192 * 4
    ensures Page(ppas) && Translatable(ppas)
  {
    RealPagesTranslatable(ppas);
  }

  /** The two ways not to read back: a single mapped lba, and a run that ends at the mark. */
  lemma {:induction false} UntranslatablePages()
    ensures Page([7]) && !Translatable([7])
    ensures Page([NO_ADDRESS - 1, NO_ADDRESS]) && !Translatable([NO_ADDRESS - 1, NO_ADDRESS])
  {
    assert [7][0] != NO_ADDRESS;
    assert DropsRun([NO_ADDRESS - 1, NO_ADDRESS], 0);
  }
}
