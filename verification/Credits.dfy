/**
 * Admission of vectored requests (interface/vectored_interface.c): a vector takes as many credits as it has requests,
 * enters a bounded queue, is issued request by request, and every request gives its credit back before it is counted
 * towards the end of its vector. Steps are the critical sections of the locks, in any interleaving.
 */
module Credits {
  import opened Layout

  /** QDEPTH and QSIZE */
  datatype Config = Config(depth: nat, queueSize: nat)

  /** Where a vector is: waiting for credits, holding them, in the queue, or taken by the processor. */
  datatype Phase = Waiting | Granted | Queued | Taken

  /** vec_request with the number of its requests issued, released and counted, and of its end_req calls. */
  datatype Vec = Vec(size: nat, phase: Phase, issued: nat, released: nat, done: nat, ended: nat)
  {
    /** Credits it holds. */
    function Owed(): int {
      if phase == Waiting then 0 else size - released
    }

    ghost predicate Ok() {
      && done <= released <= issued <= size && size >= 1
      && (phase != Taken ==> issued == 0)
      && ended == if done == size then 1 else 0
    }
  }

  /**
   * flying_cnt, the vectors that arrived, the queue, the vector the processor is busy with, and whether one of the
   * credit aborts or a failed enqueue happened.
   */
  datatype State = State(free: int, vecs: seq<Vec>, queue: seq<nat>, busy: Busy, aborted: bool, refused: bool)

  datatype Busy = Idle | With(v: nat)

  datatype Step =
    | Arrive(size: nat)
    | Grant(v: nat)
    | Enqueue(v: nat)
    | Dequeue
    | Issue
    | Release(v: nat)
    | Count(v: nat)

  function Init(c: Config): State {
    State(c.depth, [], [], Idle, false, false)
  }

  /** One step; a step that is not enabled changes nothing. */
  function Apply(c: Config, s: State, step: Step): State {
    match step
    case Arrive(size) =>
      if size == 0 then s else s.(vecs := s.vecs + [Vec(size, Waiting, 0, 0, 0, 0)])
    case Grant(v) =>
      if v < |s.vecs| && s.vecs[v].phase == Waiting && s.free - s.vecs[v].size >= 0 then
        var free := s.free - s.vecs[v].size;
        s.(free := free, vecs := s.vecs[v := s.vecs[v].(phase := Granted)], aborted := s.aborted || free < 0)
      else s
    case Enqueue(v) =>
      if v < |s.vecs| && s.vecs[v].phase == Granted then
        if |s.queue| == c.queueSize then s.(vecs := s.vecs[v := s.vecs[v].(phase := Waiting)], refused := true)
        else s.(vecs := s.vecs[v := s.vecs[v].(phase := Queued)], queue := s.queue + [v])
      else s
    case Dequeue =>
      if s.busy == Idle && s.queue != [] && s.queue[0] < |s.vecs| then
        var v := s.queue[0];
        s.(queue := s.queue[1..], busy := With(v), vecs := s.vecs[v := s.vecs[v].(phase := Taken)])
      else s
    case Issue =>
      if s.busy.With? && s.busy.v < |s.vecs| then
        var v := s.busy.v;
        var vec := s.vecs[v];
        if vec.issued < vec.size then
          s.(vecs := s.vecs[v := vec.(issued := vec.issued + 1)],
             busy := if vec.issued + 1 == vec.size then Idle else s.busy)
        else s.(busy := Idle)
      else s
    case Release(v) =>
      if v < |s.vecs| && s.vecs[v].released < s.vecs[v].issued then
        s.(free := s.free + 1, vecs := s.vecs[v := s.vecs[v].(released := s.vecs[v].released + 1)],
           aborted := s.aborted || s.free + 1 > c.depth)
      else s
    case Count(v) =>
      if v < |s.vecs| && s.vecs[v].done < s.vecs[v].released then
        var vec := s.vecs[v].(done := s.vecs[v].done + 1);
        s.(vecs := s.vecs[v := if vec.done == vec.size then vec.(ended := vec.ended + 1) else vec])
      else s
  }

  function Run(c: Config, s: State, steps: seq<Step>): State {
    if steps == [] then s else Apply(c, Run(c, s, steps[..|steps| - 1]), steps[|steps| - 1])
  }

  // ----- sums over the vectors

  function Owed(vecs: seq<Vec>): int {
    if vecs == [] then 0 else Owed(vecs[..|vecs| - 1]) + vecs[|vecs| - 1].Owed()
  }

  lemma {:induction false} OwedStore(vecs: seq<Vec>, v: nat, x: Vec)
    requires v < |vecs|
    ensures Owed(vecs[v := x]) == Owed(vecs) - vecs[v].Owed() + x.Owed()
  {
    var n := |vecs| - 1;
    if v == n {
      assert vecs[v := x][..n] == vecs[..n];
    } else {
      assert vecs[v := x][..n] == vecs[..n][v := x];
      OwedStore(vecs[..n], v, x);
    }
  }

  /** Credits held by a set of distinct vectors are part of all credits held. */
  lemma {:induction false} OwedAtLeast(vecs: seq<Vec>, some: set<nat>)
    requires (forall i :: 0 <= i < |vecs| ==> vecs[i].Owed() >= 0)
    requires forall v :: v in some ==> v < |vecs| && vecs[v].Owed() >= 1
    ensures |some| <= Owed(vecs)
  {
    if vecs == [] {
      assert some == {};
    } else {
      var n := |vecs| - 1;
      forall v | v in some - {n} ensures v < |vecs[..n]| && vecs[..n][v].Owed() >= 1 {
      }
      OwedAtLeast(vecs[..n], some - {n});
      if n in some {
        assert |some - {n}| == |some| - 1;
      } else {
        assert some - {n} == some;
      }
    }
  }

  // ----- the invariant

  ghost predicate QueueOk(s: State) {
    && (forall i, j :: 0 <= i < j < |s.queue| ==> s.queue[i] != s.queue[j])
    && forall v: nat :: v in s.queue <==> v < |s.vecs| && s.vecs[v].phase == Queued
  }

  ghost predicate BusyOk(s: State) {
    && (s.busy.With? ==>
        s.busy.v < |s.vecs| && s.vecs[s.busy.v].phase == Taken && s.vecs[s.busy.v].issued < s.vecs[s.busy.v].size)
    && forall v: nat :: v < |s.vecs| && s.vecs[v].phase == Taken && s.vecs[v].issued < s.vecs[v].size ==>
        s.busy == With(v)
  }

  ghost predicate Inv(c: Config, s: State) {
    && (forall i :: 0 <= i < |s.vecs| ==> s.vecs[i].Ok())
    && s.free >= 0 && s.free + Owed(s.vecs) == c.depth
    && QueueOk(s) && BusyOk(s) && !s.aborted && !s.refused
  }

  lemma {:induction false} CountElements(q: seq<nat>)
    requires forall i, j :: 0 <= i < j < |q| ==> q[i] != q[j]
    ensures |Elements(q)| == |q|
  {
    if q == [] {
      assert Elements(q) == {};
    } else {
      var n := |q| - 1;
      CountElements(q[..n]);
      assert q[n] !in Elements(q[..n]);
      assert Elements(q) == Elements(q[..n]) + {q[n]};
    }
  }

  /** Every vector in the queue holds a credit, and so does the one about to enter: there is a place for it. */
  lemma {:induction false} QueueHasRoom(c: Config, s: State, v: nat)
    requires c.depth <= c.queueSize && Inv(c, s) && v < |s.vecs| && s.vecs[v].phase == Granted
    ensures |s.queue| < c.queueSize
  {
    var queued := Elements(s.queue);
    CountElements(s.queue);
    assert v !in queued;
    assert |queued + {v}| == |queued| + 1;
    OwedAtLeast(s.vecs, queued + {v});
  }

  /** One vector changes without moving in or out of the queue. */
  lemma {:induction false} Stored(c: Config, s: State, v: nat, x: Vec, s': State)
    requires Inv(c, s) && v < |s.vecs| && x.Ok() && s'.vecs == s.vecs[v := x] && s'.queue == s.queue
    requires x.phase == Queued <==> s.vecs[v].phase == Queued
    requires s'.free >= 0 && s'.free == s.free + s.vecs[v].Owed() - x.Owed()
    requires BusyOk(s') && !s'.aborted && !s'.refused
    ensures Inv(c, s')
  {
    OwedStore(s.vecs, v, x);
  }

  lemma {:induction false} ArriveKeeps(c: Config, s: State, size: nat)
    requires Inv(c, s)
    ensures Inv(c, Apply(c, s, Arrive(size)))
  {
    var s' := Apply(c, s, Arrive(size));
    if size != 0 {
      assert s'.vecs[..|s.vecs|] == s.vecs;
    }
  }

  lemma {:induction false} GrantKeeps(c: Config, s: State, v: nat)
    requires Inv(c, s)
    ensures Inv(c, Apply(c, s, Grant(v)))
  {
    var s' := Apply(c, s, Grant(v));
    if v < |s.vecs| && s.vecs[v].phase == Waiting && s.free - s.vecs[v].size >= 0 {
      Stored(c, s, v, s.vecs[v].(phase := Granted), s');
    }
  }

  lemma {:induction false} EnqueueKeeps(c: Config, s: State, v: nat)
    requires c.depth <= c.queueSize && Inv(c, s)
    ensures Inv(c, Apply(c, s, Enqueue(v)))
  {
    var s' := Apply(c, s, Enqueue(v));
    if v < |s.vecs| && s.vecs[v].phase == Granted {
      QueueHasRoom(c, s, v);
      OwedStore(s.vecs, v, s.vecs[v].(phase := Queued));
      assert s'.queue == s.queue + [v];
    }
  }

  lemma {:induction false} DequeueKeeps(c: Config, s: State)
    requires Inv(c, s)
    ensures Inv(c, Apply(c, s, Dequeue))
  {
    var s' := Apply(c, s, Dequeue);
    if s.busy == Idle && s.queue != [] {
      var v := s.queue[0];
      assert v in s.queue;
      OwedStore(s.vecs, v, s.vecs[v].(phase := Taken));
      assert forall w :: w in s.queue <==> w == v || w in s'.queue;
      assert v !in s'.queue;
    }
  }

  lemma {:induction false} IssueKeeps(c: Config, s: State)
    requires Inv(c, s)
    ensures Inv(c, Apply(c, s, Issue))
  {
    var s' := Apply(c, s, Issue);
    if s.busy.With? {
      var vec := s.vecs[s.busy.v];
      Stored(c, s, s.busy.v, vec.(issued := vec.issued + 1), s');
    }
  }

  lemma {:induction false} ReleaseKeeps(c: Config, s: State, v: nat)
    requires Inv(c, s)
    ensures Inv(c, Apply(c, s, Release(v)))
  {
    var s' := Apply(c, s, Release(v));
    if v < |s.vecs| && s.vecs[v].released < s.vecs[v].issued {
      OwedAtLeast(s.vecs, {v});
      Stored(c, s, v, s.vecs[v].(released := s.vecs[v].released + 1), s');
    }
  }

  lemma {:induction false} CountKeeps(c: Config, s: State, v: nat)
    requires Inv(c, s)
    ensures Inv(c, Apply(c, s, Count(v)))
  {
    var s' := Apply(c, s, Count(v));
    if v < |s.vecs| && s.vecs[v].done < s.vecs[v].released {
      Stored(c, s, v, s'.vecs[v], s');
    }
  }

  lemma {:induction false} StepKeeps(c: Config, s: State, step: Step)
    requires c.depth <= c.queueSize && Inv(c, s)
    ensures Inv(c, Apply(c, s, step))
  {
    match step {
      case Arrive(size) => ArriveKeeps(c, s, size);
      case Grant(v) => GrantKeeps(c, s, v);
      case Enqueue(v) => EnqueueKeeps(c, s, v);
      case Dequeue => DequeueKeeps(c, s);
      case Issue => IssueKeeps(c, s);
      case Release(v) => ReleaseKeeps(c, s, v);
      case Count(v) => CountKeeps(c, s, v);
    }
  }

  /**
   * For every interleaving: credits are conserved, neither credit abort fires, no enqueue after a grant fails, and
   * every vector's end_req has run exactly once if all its requests were counted and not at all otherwise.
   */
  lemma {:induction false} EveryInterleaving(c: Config, steps: seq<Step>)
    requires c.depth <= c.queueSize
    ensures Inv(c, Run(c, Init(c), steps))
  {
    if steps != [] {
      var n := |steps| - 1;
      EveryInterleaving(c, steps[..n]);
      StepKeeps(c, Run(c, Init(c), steps[..n]), steps[n]);
    }
  }

  /**
   * wait_all_request waits for flying_cnt == QDEPTH: exactly the states in which every granted request was released.
   */
  lemma {:induction false} IdleIff(c: Config, s: State)
    requires Inv(c, s)
    ensures s.free == c.depth <==> forall v :: 0 <= v < |s.vecs| && s.vecs[v].phase != Waiting ==>
        s.vecs[v].released == s.vecs[v].size
    ensures s.free == c.depth ==> s.queue == [] && s.busy == Idle
  {
    var holding := set v: nat | v < |s.vecs| && s.vecs[v].phase != Waiting && s.vecs[v].released < s.vecs[v].size;
    OwedAtLeast(s.vecs, holding);
    assert s.queue != [] ==> s.queue[0] in s.queue && s.queue[0] in holding;
    assert s.busy.With? ==> s.busy.v in holding;
    if s.free == c.depth {
      assert |holding| == 0;
      assert holding == {};
      forall v | 0 <= v < |s.vecs| && s.vecs[v].phase != Waiting ensures s.vecs[v].released == s.vecs[v].size {
        assert v !in holding;
      }
    } else if forall v :: 0 <= v < |s.vecs| && s.vecs[v].phase != Waiting ==> s.vecs[v].released == s.vecs[v].size {
      NothingOwed(s.vecs);
    }
  }

  lemma {:induction false} NothingOwed(vecs: seq<Vec>)
    requires forall v :: 0 <= v < |vecs| ==> vecs[v].Owed() == 0
    ensures Owed(vecs) == 0
  {
    if vecs != [] {
      NothingOwed(vecs[..|vecs| - 1]);
    }
  }

  lemma {:induction false} RunOneMore(c: Config, s: State, steps: seq<Step>, step: Step)
    ensures Run(c, s, steps + [step]) == Apply(c, Run(c, s, steps), step)
  {
    assert (steps + [step])[..|steps|] == steps;
  }

  /** That does not wait for end_req: the credit comes back before the request is counted. */
  lemma {:induction false} IdleBeforeEnd()
    ensures var c := Config(1, 1);
            var s := Run(c, Init(c), [Arrive(1)] + [Grant(0)] + [Enqueue(0)] + [Dequeue] + [Issue] + [Release(0)]);
            |s.vecs| == 1 && s.free == c.depth && s.vecs[0].released == 1 && s.vecs[0].ended == 0
  {
    var c := Config(1, 1);
    RunOneMore(c, Init(c), [], Arrive(1));
    assert [] + [Arrive(1)] == [Arrive(1)];
    RunOneMore(c, Init(c), [Arrive(1)], Grant(0));
    RunOneMore(c, Init(c), [Arrive(1)] + [Grant(0)], Enqueue(0));
    RunOneMore(c, Init(c), [Arrive(1)] + [Grant(0)] + [Enqueue(0)], Dequeue);
    RunOneMore(c, Init(c), [Arrive(1)] + [Grant(0)] + [Enqueue(0)] + [Dequeue], Issue);
    RunOneMore(c, Init(c), [Arrive(1)] + [Grant(0)] + [Enqueue(0)] + [Dequeue] + [Issue], Release(0));
  }

  /** A vector can be granted at some time exactly when it is not larger than QDEPTH. */
  lemma {:induction false} GrantableIff(c: Config, s: State, v: nat)
    requires Inv(c, s) && v < |s.vecs| && s.vecs[v].phase == Waiting
    ensures Apply(c, s, Grant(v)) != s <==> s.vecs[v].size <= s.free
    ensures s.vecs[v].size > c.depth ==> Apply(c, s, Grant(v)) == s
    ensures s.free == c.depth && s.vecs[v].size <= c.depth ==> Apply(c, s, Grant(v)) != s
  {
    OwedAtLeast(s.vecs, {});
    if s.vecs[v].size <= s.free {
      assert Apply(c, s, Grant(v)).vecs[v].phase == Granted;
    }
  }

  // ----- progress

  /** Steps of a vector that are still to come. */
  function Work(vec: Vec): int {
    (match vec.phase case Waiting => 3 case Granted => 2 case Queued => 1 case Taken => 0)
    + (vec.size - vec.issued) + (vec.size - vec.released) + (vec.size - vec.done)
  }

  function AllWork(vecs: seq<Vec>): int {
    if vecs == [] then 0 else AllWork(vecs[..|vecs| - 1]) + Work(vecs[|vecs| - 1])
  }

  lemma {:induction false} WorkStore(vecs: seq<Vec>, v: nat, x: Vec)
    requires v < |vecs|
    ensures AllWork(vecs[v := x]) == AllWork(vecs) - Work(vecs[v]) + Work(x)
  {
    var n := |vecs| - 1;
    if v == n {
      assert vecs[v := x][..n] == vecs[..n];
    } else {
      assert vecs[v := x][..n] == vecs[..n][v := x];
      WorkStore(vecs[..n], v, x);
    }
  }

  lemma {:induction false} WorkIsNatural(vecs: seq<Vec>)
    requires forall i :: 0 <= i < |vecs| ==> vecs[i].Ok()
    ensures AllWork(vecs) >= 0
  {
    if vecs != [] {
      WorkIsNatural(vecs[..|vecs| - 1]);
    }
  }

  /** The same vectors, by size. */
  ghost predicate SameVectors(s: State, s': State) {
    |s'.vecs| == |s.vecs| && forall v :: 0 <= v < |s.vecs| ==> s'.vecs[v].size == s.vecs[v].size
  }

  /** Every step of the protocol that is enabled takes exactly one off the work to do. */
  lemma {:induction false} StepWorks(c: Config, s: State, step: Step)
    requires c.depth <= c.queueSize && Inv(c, s) && !step.Arrive? && Apply(c, s, step) != s
    ensures var s' := Apply(c, s, step); SameVectors(s, s') && AllWork(s'.vecs) == AllWork(s.vecs) - 1
  {
    match step {
      case Grant(v) => Worked(s, Apply(c, s, step), v);
      case Enqueue(v) =>
        QueueHasRoom(c, s, v);
        Worked(s, Apply(c, s, step), v);
      case Dequeue =>
        assert s.queue[0] in s.queue;
        Worked(s, Apply(c, s, step), s.queue[0]);
      case Issue => Worked(s, Apply(c, s, step), s.busy.v);
      case Release(v) => Worked(s, Apply(c, s, step), v);
      case Count(v) => Worked(s, Apply(c, s, step), v);
    }
  }

  /** One vector took one step. */
  lemma {:induction false} Worked(s: State, s': State, v: nat)
    requires v < |s.vecs| == |s'.vecs| && s'.vecs == s.vecs[v := s'.vecs[v]]
    requires s'.vecs[v].size == s.vecs[v].size && Work(s'.vecs[v]) == Work(s.vecs[v]) - 1
    ensures SameVectors(s, s') && AllWork(s'.vecs) == AllWork(s.vecs) - 1
  {
    WorkStore(s.vecs, v, s'.vecs[v]);
  }

  /** end_req of every vector that can be granted at all has run. */
  ghost predicate AllEnded(c: Config, s: State) {
    forall v :: 0 <= v < |s.vecs| && s.vecs[v].size <= c.depth ==> s.vecs[v].ended == 1
  }

  /** Everything granted is through: queue and processor are empty and every request was released and counted. */
  ghost predicate Quiet(s: State) {
    && s.busy == Idle && s.queue == []
    && forall v :: 0 <= v < |s.vecs| ==>
         s.vecs[v].phase != Granted && s.vecs[v].released == s.vecs[v].issued && s.vecs[v].done == s.vecs[v].released
  }

  /** What is not quiet has a step to take. */
  lemma {:induction false} BusyMoves(c: Config, s: State) returns (step: Step)
    requires c.depth <= c.queueSize && Inv(c, s) && !Quiet(s)
    ensures !step.Arrive? && Apply(c, s, step) != s
  {
    if s.busy.With? {
      step := Issue;
      assert Apply(c, s, step).vecs[s.busy.v].issued != s.vecs[s.busy.v].issued;
    } else if s.queue != [] {
      step := Dequeue;
      assert s.queue[0] in s.queue;
      assert Apply(c, s, step).busy != s.busy;
    } else {
      var v :| 0 <= v < |s.vecs| && 
          (s.vecs[v].phase == Granted || s.vecs[v].released != s.vecs[v].issued
           || s.vecs[v].done != s.vecs[v].released);
      if s.vecs[v].phase == Granted {
        step := Enqueue(v);
        QueueHasRoom(c, s, v);
        assert Apply(c, s, step).vecs[v].phase != s.vecs[v].phase;
      } else if s.vecs[v].released != s.vecs[v].issued {
        step := Release(v);
        assert Apply(c, s, step).vecs[v].released != s.vecs[v].released;
      } else {
        step := Count(v);
        assert Apply(c, s, step).vecs[v].done != s.vecs[v].done;
      }
    }
  }

  /** When everything is quiet all credits are back, and whoever waits and fits is granted. */
  lemma {:induction false} QuietGrants(c: Config, s: State, v: nat)
    requires Inv(c, s) && Quiet(s) && v < |s.vecs| && s.vecs[v].size <= c.depth && s.vecs[v].ended != 1
    ensures Apply(c, s, Grant(v)) != s
  {
    forall w: nat | w < |s.vecs|
      ensures s.vecs[w].Owed() == 0 && (s.vecs[w].phase != Waiting ==> s.vecs[w].done == s.vecs[w].size)
    {
      assert s.vecs[w].phase == Queued ==> w in s.queue;
      assert s.vecs[w].phase == Taken ==> s.vecs[w].issued == s.vecs[w].size;
    }
    NothingOwed(s.vecs);
    assert s.vecs[v].phase == Waiting;
    assert Apply(c, s, Grant(v)).vecs[v].phase != s.vecs[v].phase;
  }

  /** No deadlock: unless every vector that fits has ended, some step of the protocol is enabled. */
  lemma {:induction false} NoDeadlock(c: Config, s: State) returns (step: Step)
    requires c.depth <= c.queueSize && Inv(c, s) && !AllEnded(c, s)
    ensures !step.Arrive? && Apply(c, s, step) != s
  {
    if !Quiet(s) {
      step := BusyMoves(c, s);
    } else {
      var v: nat :| v < |s.vecs| && s.vecs[v].size <= c.depth && s.vecs[v].ended != 1;
      step := Grant(v);
      QuietGrants(c, s, v);
    }
  }

  lemma {:induction false} RunFirst(c: Config, s: State, step: Step, rest: seq<Step>)
    ensures Run(c, s, [step] + rest) == Run(c, Apply(c, s, step), rest)
    decreases |rest|
  {
    if rest == [] {
      assert [step] + rest == [step] && [step][..0] == [];
    } else {
      var n := |rest| - 1;
      RunFirst(c, s, step, rest[..n]);
      assert ([step] + rest)[..|rest|] == [step] + rest[..n];
    }
  }

  /**
   * From every reachable state the protocol can be run, without new arrivals and in at most AllWork steps, until
   * end_req of every vector of at most QDEPTH requests has run exactly once.
   */
  lemma {:induction false} EveryVectorEnds(c: Config, s: State) returns (steps: seq<Step>)
    requires c.depth <= c.queueSize && Inv(c, s)
    ensures (forall i :: 0 <= i < |steps| ==> !steps[i].Arrive?) && |steps| <= AllWork(s.vecs)
    ensures var s' := Run(c, s, steps); Inv(c, s') && SameVectors(s, s') && AllEnded(c, s')
    decreases AllWork(s.vecs)
  {
    WorkIsNatural(s.vecs);
    if AllEnded(c, s) {
      steps := [];
    } else {
      var step := NoDeadlock(c, s);
      StepKeeps(c, s, step);
      StepWorks(c, s, step);
      WorkIsNatural(Apply(c, s, step).vecs);
      var rest := EveryVectorEnds(c, Apply(c, s, step));
      RunFirst(c, s, step, rest);
      steps := [step] + rest;
    }
  }

  /** Every step of the run changes something, and nothing arrives. */
  ghost predicate Working(c: Config, s: State, steps: seq<Step>) {
    steps == []
    || (var n := |steps| - 1;
        Working(c, s, steps[..n]) && !steps[n].Arrive? &&
            Apply(c, Run(c, s, steps[..n]), steps[n]) != Run(c, s, steps[..n]))
  }

  /**
   * However the steps are scheduled: a run of enabled steps is never longer than the work to do, and one that cannot be
   * continued has ended every vector that fits.
   */
  lemma {:induction false} EveryScheduleEnds(c: Config, s: State, steps: seq<Step>)
    requires c.depth <= c.queueSize && Inv(c, s) && Working(c, s, steps)
    ensures Inv(c, Run(c, s, steps)) && SameVectors(s, Run(c, s, steps))
    ensures |steps| + AllWork(Run(c, s, steps).vecs) == AllWork(s.vecs) && |steps| <= AllWork(s.vecs)
    ensures (forall step: Step :: !step.Arrive? ==> Apply(c, Run(c, s, steps), step) == Run(c, s, steps)) ==>
        AllEnded(c, Run(c, s, steps))
    decreases |steps|
  {
    if steps != [] {
      var n := |steps| - 1;
      EveryScheduleEnds(c, s, steps[..n]);
      StepKeeps(c, Run(c, s, steps[..n]), steps[n]);
      StepWorks(c, Run(c, s, steps[..n]), steps[n]);
    }
    var s' := Run(c, s, steps);
    WorkIsNatural(s'.vecs);
    if !AllEnded(c, s') {
      var step := NoDeadlock(c, s');
    }
  }
}
