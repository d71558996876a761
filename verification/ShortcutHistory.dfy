/**
 * Whole runs of the shortcut: every operation that changes ownership or counters, with the cursors that come and go in
 * between (algorithm/layeredLSM/shortcut.cpp, shortcut_dir.cpp, run_merge.cpp:387-474), against the flat array of
 * owners.
 */
module ShortcutHistory {
  import opened ShortcutCodec
  import opened ShortcutMaster

  datatype Op =
    | Link(lba: nat, sc: Slot)
    | Unlink(lba: nat, sc: Slot)
    | Bulk(lbas: seq<nat>, sc: Slot, unlink: bool)
    | CheckLink(infos: seq<Info>, src: Slot, des: Slot, lba: nat)
    | Carry(infos: seq<Info>, src: Slot, des: Slot, lbas: seq<nat>)
    | Free(sc: Slot)
    | Ask(lba: nat)
    | OpenCursor(lba: nat)
    | AskCursor(cursor: nat, lba: nat)
    | CloseCursor(cursor: nat)

  datatype Answer = Owner(sc: Slot) | Taken(res: bool)

  /** The flat form: the books and the number of open cursors. */
  datatype State = State(books: Books, cursors: nat)
  {
    ghost predicate Allows(op: Op) {
      var range, slots := |books.owners|, |books.linked|;
      && books.Ok()
      && match op
         case Link(lba, sc) => lba < range && sc < slots
         case Unlink(lba, sc) => lba < range && sc < slots
         case Bulk(lbas, sc, _) => lbas != [] && Increasing(lbas) && sc < slots && InRange(lbas)
         case CheckLink(infos, src, des, lba) => |infos| == slots && src < slots && des < slots && lba < range
         case Carry(infos, src, des, lbas) =>
           && |infos| == slots && src < slots && des < slots && lbas != [] && Increasing(lbas) && InRange(lbas)
           && OwnerNotNewer(books.owners[lbas[0]], infos, src)
         case Free(sc) => sc < slots
         case Ask(lba) => lba < range
         case OpenCursor(lba) => lba < range
         case AskCursor(c, lba) => c < cursors && lba < range
         case CloseCursor(c) => c < cursors
    }

    ghost predicate InRange(lbas: seq<nat>) {
      forall k :: 0 <= k < |lbas| ==> lbas[k] < |books.owners|
    }

    /** The operation on the flat array of owners. */
    ghost function After(op: Op): (st: State)
      requires Allows(op)
      ensures st.books.Ok() && |st.books.owners| == |books.owners| && |st.books.linked| == |books.linked|
    {
      match op
      case Link(lba, sc) => this.(books := books.Link(lba, sc, false))
      case Unlink(lba, sc) => this.(books := books.Unlink(lba, sc))
      case Bulk(lbas, sc, unlink) => this.(books := books.LinkAll(lbas, sc, unlink))
      case CheckLink(infos, src, des, lba) =>
        var owner := books.owners[lba];
        if MayTake(infos, owner, src)
        then this.(books := books.Link(lba, des, owner != NOT_ASSIGNED && infos[owner].hasRun))
        else this
      case Carry(infos, src, des, lbas) => this.(books := MovedWhole(books, infos, src, des, lbas))
      case Free(sc) => this.(books := books.Release(sc))
      case Ask(_) => this
      case OpenCursor(_) => this.(cursors := cursors + 1)
      case AskCursor(_, _) => this
      case CloseCursor(_) => this.(cursors := cursors - 1)
    }

    /** What the operation answers. */
    ghost function Answers(op: Op): seq<Answer>
      requires Allows(op)
    {
      match op
      case CheckLink(infos, src, des, lba) => [Taken(MayTake(infos, books.owners[lba], src))]
      case Ask(lba) => [Owner(books.owners[lba])]
      case AskCursor(_, lba) => [Owner(books.owners[lba])]
      case _ => []
    }
  }

  /** Every operation is called as the program may call it. */
  ghost predicate Feasible(st: State, ops: seq<Op>)
    decreases |ops|, 0
  {
    st.books.Ok()
    && (ops == [] || (Feasible(st, ops[..|ops| - 1]) && Final(st, ops[..|ops| - 1]).Allows(ops[|ops| - 1])))
  }

  ghost function Final(st: State, ops: seq<Op>): (r: State)
    requires Feasible(st, ops)
    ensures r.books.Ok() && |r.books.owners| == |st.books.owners| && |r.books.linked| == |st.books.linked|
    decreases |ops|, 1
  {
    if ops == [] then st else Final(st, ops[..|ops| - 1]).After(ops[|ops| - 1])
  }

  ghost function AllAnswers(st: State, ops: seq<Op>): seq<Answer>
    requires Feasible(st, ops)
  {
    if ops == [] then []
    else AllAnswers(st, ops[..|ops| - 1]) + Final(st, ops[..|ops| - 1]).Answers(ops[|ops| - 1])
  }

  // ----- running

  /** The open cursors are registered, each once. */
  ghost predicate Open(m: Master, cursors: seq<Cursor>)
    reads m`tree
  {
    && (forall i :: 0 <= i < |cursors| ==> m.Registered(cursors[i]))
    && forall i, j :: 0 <= i < j < |cursors| ==> cursors[i] != cursors[j]
  }

  /** The operations that change ownership or counters. */
  method Change(m: Master, op: Op) returns (answer: seq<Answer>)
    requires m.Valid() && State(m.books, 0).Allows(op) && !op.Ask? && !op.OpenCursor? && !op.AskCursor?
    requires !op.CloseCursor?
    modifies m`memoryUsage, m`books, m`sizes, m`tree, m.dirs, m.Bitmaps(), m.linked, m.unlinked, m.Cursors()
    ensures m.Valid() && m.Cursors() == old(m.Cursors())
    ensures m.books == State(old(m.books), 0).After(op).books && answer == State(old(m.books), 0).Answers(op)
  {
    answer := [];
    match op {
      case Link(lba, sc) => m.LinkLba(lba, sc);
      case Unlink(lba, sc) => m.UnlinkLba(lba, sc);
      case Bulk(lbas, sc, unlink) => m.LinkBulk(lbas, sc, unlink);
      case CheckLink(infos, src, des, lba) =>
        var res := m.CheckAndLink(infos, src, des, lba);
        answer := [Taken(res)];
      case Carry(infos, src, des, lbas) => m.WholeMove(infos, src, des, lbas);
      case Free(sc) => m.Release(sc);
    }
  }

  /** Performs one operation. */
  method Perform(m: Master, op: Op, cursors: seq<Cursor>) returns (answer: seq<Answer>, cursors': seq<Cursor>)
    requires m.Valid() && Open(m, cursors) && State(m.books, |cursors|).Allows(op)
    modifies m`memoryUsage, m`books, m`sizes, m`tree, m.dirs, m.Bitmaps(), m.linked, m.unlinked, m.Cursors()
    ensures m.Valid() && Open(m, cursors') && forall c :: c in m.Cursors() ==> c in old(m.Cursors()) || fresh(c)
    ensures State(m.books, |cursors'|) == State(old(m.books), |cursors|).After(op)
    ensures answer == State(old(m.books), |cursors|).Answers(op)
  {
    if op.OpenCursor? || op.AskCursor? || op.CloseCursor? {
      answer, cursors' := UseCursor(m, op, cursors);
    } else if op.Ask? {
      var sc := m.Query(op.lba);
      answer, cursors' := [Owner(sc)], cursors;
    } else {
      answer := Change(m, op);
      cursors' := cursors;
    }
  }

  /** The operations of cursors, which leave the books alone. */
  method UseCursor(m: Master, op: Op, cursors: seq<Cursor>) returns (answer: seq<Answer>, cursors': seq<Cursor>)
    requires m.Valid() && Open(m, cursors) && State(m.books, |cursors|).Allows(op)
    requires op.OpenCursor? || op.AskCursor? || op.CloseCursor?
    modifies m`tree, m.Cursors()
    ensures m.Valid() && Open(m, cursors') && forall c :: c in m.Cursors() ==> c in old(m.Cursors()) || fresh(c)
    ensures State(m.books, |cursors'|) == State(m.books, |cursors|).After(op)
    ensures answer == State(m.books, |cursors|).Answers(op)
  {
    answer, cursors' := [], cursors;
    match op {
      case OpenCursor(lba) =>
        var dp := m.NewCursor(lba);
        cursors' := cursors + [dp];
      case AskCursor(c, lba) =>
        var sc := m.GetSc(cursors[c], lba);
        answer := [Owner(sc)];
      case CloseCursor(c) =>
        m.FreeCursor(cursors[c]);
        cursors' := cursors[..c] + cursors[c + 1..];
    }
  }

  /**
   * Any run of operations, with cursors opened, asked and closed anywhere in it, answers as the flat array and leaves
   * its owners and counters.
   */
  method Execute(m: Master, ops: seq<Op>, cursors: seq<Cursor>) returns (answers: seq<Answer>, cursors': seq<Cursor>)
    requires m.Valid() && Open(m, cursors) && Feasible(State(m.books, |cursors|), ops)
    modifies m`memoryUsage, m`books, m`sizes, m`tree, m.dirs, m.Bitmaps(), m.linked, m.unlinked, m.Cursors()
    ensures m.Valid() && Open(m, cursors')
    ensures State(m.books, |cursors'|) == Final(State(old(m.books), |cursors|), ops)
    ensures answers == AllAnswers(State(old(m.books), |cursors|), ops)
  {
    answers, cursors' := [], cursors;
    ghost var st := State(m.books, |cursors|);
    var i := 0;
    assert ops[..|ops|] == ops;
    while i < |ops|
      invariant i <= |ops| && m.Valid() && Open(m, cursors')
      invariant forall c :: c in m.Cursors() ==> c in old(m.Cursors()) || fresh(c)
      invariant Feasible(st, ops[..i]) && State(m.books, |cursors'|) == Final(st, ops[..i])
      invariant answers == AllAnswers(st, ops[..i])
    {
      FeasiblePrefix(st, ops, i + 1);
      assert ops[..i + 1][..i] == ops[..i];
      var answer;
      answer, cursors' := Perform(m, ops[i], cursors');
      answers := answers + answer;
      i := i + 1;
    }
  }

  lemma {:induction false} FeasiblePrefix(st: State, ops: seq<Op>, n: nat)
    requires Feasible(st, ops) && n <= |ops|
    ensures Feasible(st, ops[..n])
    decreases |ops|
  {
    if n == |ops| {
      assert ops[..n] == ops;
    } else {
      FeasiblePrefix(st, ops[..|ops| - 1], n);
      assert ops[..|ops| - 1][..n] == ops[..n];
    }
  }

  // ----- the counters of a slot

  /** How many of the lbas slot s owns. */
  ghost function OwnedIn(owners: seq<Slot>, lbas: seq<nat>, s: Slot): nat
    requires forall k :: 0 <= k < |lbas| ==> lbas[k] < |owners|
  {
    if lbas == [] then 0
    else
      var n := |lbas| - 1;
      OwnedIn(owners, lbas[..n], s) + if owners[lbas[n]] == s then 1 else 0
  }

  /** Stale entries that one operation brings to slot s. */
  ghost function Stale(st: State, op: Op, s: Slot): nat
    requires st.Allows(op)
  {
    if op.Carry? && op.des == s then |op.lbas| - |KeptOf(st.books.owners, op.infos, op.src, op.lbas)| else 0
  }

  /** How one operation moves linked minus unlinked of slot s away from the number of lbas it owns. */
  ghost function Drift(st: State, op: Op, s: Slot): int
    requires st.Allows(op) && s < |st.books.linked|
  {
    match op
    case Link(lba, _) => if st.books.owners[lba] == s then 1 else 0
    case Unlink(lba, sc) => (if st.books.owners[lba] == s then 1 else 0) - (if sc == s then 1 else 0)
    case Bulk(lbas, _, unlink) => if unlink then 0 else OwnedIn(st.books.owners, lbas, s)
    case CheckLink(infos, src, _, lba) =>
      if st.books.owners[lba] == s && MayTake(infos, s, src) && !infos[s].hasRun then 1 else 0
    case Carry(_, _, _, _) => 0 - Stale(st, op, s)
    case Free(sc) => if sc == s then st.books.unlinked[s] - st.books.linked[s] else 0
    case _ => 0
  }

  ghost function TotalDrift(st: State, ops: seq<Op>, s: Slot): int
    requires Feasible(st, ops) && s < |st.books.linked|
  {
    if ops == [] then 0
    else TotalDrift(st, ops[..|ops| - 1], s) + Drift(Final(st, ops[..|ops| - 1]), ops[|ops| - 1], s)
  }

  lemma {:induction false} LinkDrift(b: Books, o: nat, sc: Slot, s: Slot)
    requires b.Ok() && sc < |b.linked| && o < |b.owners| && s < |b.linked|
    ensures b.Link(o, sc, false).Excess(s) == b.Excess(s) + if b.owners[o] == s then 1 else 0
    ensures b.Link(o, sc, true).Excess(s) == b.Excess(s)
  {
    assert multiset(b.owners[o := sc]) == multiset(b.owners) - multiset{b.owners[o]} + multiset{sc};
  }

  lemma {:induction false} BulkDrift(b: Books, os: seq<nat>, sc: Slot, s: Slot)
    requires b.Ok() && sc < |b.linked| && s < |b.linked| && Increasing(os)
    requires forall k :: 0 <= k < |os| ==> os[k] < |b.owners|
    ensures b.LinkAll(os, sc, false).Excess(s) == b.Excess(s) + OwnedIn(b.owners, os, s)
    decreases |os|
  {
    if os != [] {
      var n := |os| - 1;
      BulkDrift(b, os[..n], sc, s);
      LinkAllEffect(b, os[..n], sc, false);
      LinkDrift(b.LinkAll(os[..n], sc, false), os[n], sc, s);
      assert os[n] !in os[..n];
    }
  }

  lemma {:induction false} UnlinkDrift(b: Books, o: nat, sc: Slot, s: Slot)
    requires b.Ok() && sc < |b.linked| && o < |b.owners| && s < |b.linked|
    ensures b.Unlink(o, sc).Excess(s) == b.Excess(s) + (if b.owners[o] == s then 1 else 0) - (if sc == s then 1 else 0)
  {
    assert multiset(b.owners[o := NOT_ASSIGNED]) == multiset(b.owners) - multiset{b.owners[o]} + multiset{NOT_ASSIGNED};
  }

  lemma {:induction false} CarryDrift(b: Books, infos: seq<Info>, src: Slot, des: Slot, lbas: seq<nat>, s: Slot)
    requires b.Ok() && |infos| == |b.linked| && src < |infos| && des < |infos| && s < |infos|
    requires forall k :: 0 <= k < |lbas| ==> lbas[k] < |b.owners|
    ensures MovedWhole(b, infos, src, des, lbas).Excess(s)
            == b.Excess(s) - if s == des then |lbas| - |KeptOf(b.owners, infos, src, lbas)| else 0
  {
    var keep := KeptOf(b.owners, infos, src, lbas);
    var c := b.Charge(des, |lbas| - |keep|);
    LinkAllEffect(c, keep, des, true);
    assert c.owners == b.owners && c.linked == b.linked;
    assert MovedWhole(b, infos, src, des, lbas) == c.LinkAll(keep, des, true);
  }

  /** One operation. */
  lemma {:induction false} DriftStep(st: State, op: Op, s: Slot)
    requires st.Allows(op) && s < |st.books.linked|
    ensures st.After(op).books.Excess(s) == st.books.Excess(s) + Drift(st, op, s)
  {
    match op {
      case Link(lba, sc) => LinkDrift(st.books, lba, sc, s);
      case Unlink(lba, sc) => UnlinkDrift(st.books, lba, sc, s);
      case Bulk(lbas, sc, unlink) =>
        if unlink {
          LinkAllEffect(st.books, lbas, sc, unlink);
        } else {
          BulkDrift(st.books, lbas, sc, s);
        }
      case CheckLink(infos, src, des, lba) => LinkDrift(st.books, lba, des, s);
      case Carry(infos, src, des, lbas) => CarryDrift(st.books, infos, src, des, lbas, s);
      case _ =>
    }
  }

  /** Over any run, how far linked minus unlinked of a slot is from the lbas it owns. */
  lemma {:induction false} ExcessIsDrift(st: State, ops: seq<Op>, s: Slot)
    requires Feasible(st, ops) && s < |st.books.linked|
    ensures Final(st, ops).books.Excess(s) == st.books.Excess(s) + TotalDrift(st, ops, s)
    decreases |ops|
  {
    if ops != [] {
      ExcessIsDrift(st, ops[..|ops| - 1], s);
      DriftStep(Final(st, ops[..|ops| - 1]), ops[|ops| - 1], s);
    }
  }

  /**
   * Slot s is in use and the program is at work: links and unlinks happen inside check-and-link only, bulk links count
   * the loss of the former owner, and s keeps its run and is not given back.
   */
  ghost predicate InUse(op: Op, s: Slot) {
    match op
    case Link(_, _) => false
    case Unlink(_, _) => false
    case Bulk(_, _, unlink) => unlink
    case CheckLink(infos, _, _, _) => s < |infos| && infos[s].hasRun
    case Free(sc) => sc != s
    case _ => true
  }

  /** Stale entries that whole moves bring to slot s over a run. */
  ghost function Carried(st: State, ops: seq<Op>, s: Slot): nat
    requires Feasible(st, ops)
  {
    if ops == [] then 0
    else Carried(st, ops[..|ops| - 1], s) + Stale(Final(st, ops[..|ops| - 1]), ops[|ops| - 1], s)
  }

  /**
   * While slot s is in use, linked minus unlinked of it falls behind the lbas it owns by exactly the stale entries that
   * whole moves carried to it; it stays their number exactly when there were none.
   */
  lemma {:induction false} CountersInUse(st: State, ops: seq<Op>, s: Slot)
    requires Feasible(st, ops) && s < |st.books.linked| && forall i :: 0 <= i < |ops| ==> InUse(ops[i], s)
    ensures Final(st, ops).books.Excess(s) == st.books.Excess(s) - Carried(st, ops, s)
    ensures Final(st, ops).books.Excess(s) == st.books.Excess(s) <==> Carried(st, ops, s) == 0
    decreases |ops|
  {
    if ops != [] {
      CountersInUse(st, ops[..|ops| - 1], s);
      DriftStep(Final(st, ops[..|ops| - 1]), ops[|ops| - 1], s);
    }
  }

  /** From an empty shortcut on, for every slot in use. */
  lemma {:induction false} CountersFromStart(range: nat, slots: nat, cursors: nat, ops: seq<Op>, s: Slot)
    requires s < slots <= NOT_ASSIGNED && forall i :: 0 <= i < |ops| ==> InUse(ops[i], s)
    requires Feasible(State(Fresh(range, slots), cursors), ops)
    ensures var st := State(Fresh(range, slots), cursors);
            var b := Final(st, ops).books;
            b.linked[s] - b.unlinked[s] + Carried(st, ops, s) == multiset(b.owners)[s]
  {
    CountersInUse(State(Fresh(range, slots), cursors), ops, s);
    assert s !in Fresh(range, slots).owners;
  }

  /** Nothing assigned and nothing counted. */
  ghost function Fresh(range: nat, slots: nat): (b: Books)
    requires slots <= NOT_ASSIGNED
    ensures b.Ok() && |b.linked| == slots
  {
    Books(seq(range, _ => NOT_ASSIGNED), seq(slots, _ => 0), seq(slots, _ => 0))
  }

  /** A slot given back starts over with honest counters exactly when it owned nothing any more. */
  lemma {:induction false} FreedSlotHonestIff(st: State, s: Slot)
    requires st.books.Ok() && s < |st.books.linked|
    ensures st.After(Free(s)).books.Excess(s) == 0 <==> s !in st.books.owners
  {
    var owners: seq<Slot> := st.books.owners;
    assert multiset(owners)[s] == 0 <==> s !in owners;
  }

  /**
   * Two lbas, the second owned by the newer slot 1: moving the block whole from slot 0 to slot 2 leaves slot 2 with one
   * lba, one link and one unlink.
   */
  lemma {:induction false} StaleMoveMiscounts()
    ensures var infos := [Info(0, 0, false, true), Info(0, 1, false, true), Info(0, 2, false, true)];
            var st := State(Books([0, 1], [1, 1, 0], [0, 0, 0]), 0);
            var op := Carry(infos, 0, 2, [0, 1]);
            && st.Allows(op) && st.books.Excess(2) == 0 && st.After(op).books.Excess(2) == -1
            && st.After(op).books.owners == [2, 1]
  {
    var infos := [Info(0, 0, false, true), Info(0, 1, false, true), Info(0, 2, false, true)];
    var b := Books([0, 1], [1, 1, 0], [0, 0, 0]);
    StaleMoveKeeps(infos);
    StaleMoveEffect(b);
  }

  lemma {:induction false} StaleMoveEffect(b: Books)
    requires b == Books([0, 1], [1, 1, 0], [0, 0, 0])
    ensures b.Ok() && b.Excess(2) == 0
    ensures b.Charge(2, 1).LinkAll([0], 2, true).owners == [2, 1]
    ensures b.Charge(2, 1).LinkAll([0], 2, true).Excess(2) == -1
  {
    assert multiset(b.owners) == multiset{0, 1};
    LinkAllEffect(b.Charge(2, 1), [0], 2, true);
  }

  lemma {:induction false} StaleMoveKeeps(infos: seq<Info>)
    requires infos == [Info(0, 0, false, true), Info(0, 1, false, true), Info(0, 2, false, true)]
    ensures KeptOf([0, 1], infos, 0, [0, 1]) == [0]
  {
    assert [0, 1][..1] == [0];
    assert KeptOf([0, 1], infos, 0, [0]) == [0];
  }
}
