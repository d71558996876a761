/** The linked queue of waiting requests (interface/queue.c). */
module LinkedQueue {

  class Node<T> {
    var data: T
    var next: Node?<T>

    constructor (data: T)
      ensures this.data == data && next == null
    {
      this.data := data;
      next := null;
    }
  }

  class Queue<T> {
    var head: Node?<T>
    var tail: Node?<T>
    var size: nat
    const maxSize: nat
    /** The nodes from head to tail. */
    ghost var spine: seq<Node<T>>
    ghost var contents: seq<T>
    ghost var Repr: set<Node<T>>

    ghost predicate Linked()
      reads this, Repr
    {
      && (forall i :: 0 <= i < |spine| ==> spine[i] in Repr)
      && (forall i, j :: 0 <= i < j < |spine| ==> spine[i] != spine[j])
      && (forall i, j :: 0 <= i && j == i + 1 < |spine| ==> spine[i].next == spine[j])
      && (spine != [] ==> spine[|spine| - 1].next == null && head == spine[0] && tail == spine[|spine| - 1])
      && (spine == [] ==> head == null)
    }

    ghost predicate Valid()
      reads this, Repr
    {
      && Linked() && size == |spine| == |contents| <= maxSize
      && forall i :: 0 <= i < |spine| ==> spine[i].data == contents[i]
    }

    /** q_init */
    constructor (maxSize: nat)
      ensures Valid() && contents == [] && this.maxSize == maxSize && Repr == {}
    {
      head, tail, size := null, null, 0;
      this.maxSize := maxSize;
      spine, contents, Repr := [], [], {};
    }

    /** q_enqueue: at the tail, refused exactly when the queue is full. */
    method Enqueue(x: T) returns (ok: bool)
      requires Valid()
      modifies this, Repr
      ensures Valid() && ok == (|old(contents)| < maxSize)
      ensures contents == if ok then old(contents) + [x] else old(contents)
      ensures fresh(Repr - old(Repr))
    {
      if size == maxSize {
        return false;
      }
      var node := new Node(x);
      if size == 0 {
        head, tail := node, node;
      } else {
        tail.next := node;
        tail := node;
      }
      spine, contents, Repr := spine + [node], contents + [x], Repr + {node};
      size := size + 1;
      ok := true;
    }

    /** q_enqueue_front: at the head, refused exactly when the queue is full. */
    method EnqueueFront(x: T) returns (ok: bool)
      requires Valid()
      modifies this
      ensures Valid() && ok == (|old(contents)| < maxSize)
      ensures contents == if ok then [x] + old(contents) else old(contents)
      ensures fresh(Repr - old(Repr))
    {
      if size == maxSize {
        return false;
      }
      var node := new Node(x);
      if size == 0 {
        head, tail := node, node;
      } else {
        node.next := head;
        head := node;
      }
      spine, contents, Repr := [node] + spine, [x] + contents, Repr + {node};
      size := size + 1;
      ok := true;
    }

    /** q_dequeue: the oldest entry, or nothing; tail is left behind when the queue runs empty. */
    method Dequeue() returns (x: Option<T>)
      requires Valid()
      modifies this
      ensures Valid() && (x == None <==> old(contents) == [])
      ensures x.Some? ==> old(contents) == [x.value] + contents
      ensures x.None? ==> contents == []
      ensures Repr == old(Repr)
    {
      if head == null || size == 0 {
        return None;
      }
      x := Some(head.data);
      head := head.next;
      size := size - 1;
      spine, contents := spine[1..], contents[1..];
    }

    /** q_pick */
    method Pick() returns (x: Option<T>)
      requires Valid()
      ensures x == if contents == [] then None else Some(contents[0])
    {
      if head == null || size == 0 {
        return None;
      }
      return Some(head.data);
    }
  }

  datatype Option<T> = None | Some(value: T)

  /** What the queue does to its contents. */
  datatype Op<T> = Back(x: T) | Front(x: T) | Take

  function Meaning<T>(op: Op<T>, contents: seq<T>, maxSize: nat): seq<T> {
    match op
    case Back(x) => if |contents| < maxSize then contents + [x] else contents
    case Front(x) => if |contents| < maxSize then [x] + contents else contents
    case Take => if contents == [] then [] else contents[1..]
  }

  function MeaningAll<T>(ops: seq<Op<T>>, contents: seq<T>, maxSize: nat): seq<T> {
    if ops == [] then contents
    else Meaning(ops[|ops| - 1], MeaningAll(ops[..|ops| - 1], contents, maxSize), maxSize)
  }

  /** What an operation answers: whether there was room, or the entry taken. */
  datatype Answer<T> = Room(ok: bool) | Got(x: Option<T>)

  function AnswerOf<T>(op: Op<T>, contents: seq<T>, maxSize: nat): Answer<T> {
    match op
    case Back(x) => Room(|contents| < maxSize)
    case Front(x) => Room(|contents| < maxSize)
    case Take => Got(if contents == [] then None else Some(contents[0]))
  }

  function AnswersAll<T>(ops: seq<Op<T>>, contents: seq<T>, maxSize: nat): seq<Answer<T>> {
    if ops == [] then []
    else
      var n := |ops| - 1;
      AnswersAll(ops[..n], contents, maxSize) + [AnswerOf(ops[n], MeaningAll(ops[..n], contents, maxSize), maxSize)]
  }

  /** Any sequence of operations on the linked nodes does and answers what it does and answers on a bounded list. */
  method Execute<T>(q: Queue<T>, ops: seq<Op<T>>) returns (answers: seq<Answer<T>>)
    requires q.Valid()
    modifies q, q.Repr
    ensures q.Valid() && q.contents == MeaningAll(ops, old(q.contents), q.maxSize)
    ensures answers == AnswersAll(ops, old(q.contents), q.maxSize)
  {
    ghost var contents0 := q.contents;
    answers := [];
    for i := 0 to |ops|
      invariant q.Valid() && q.contents == MeaningAll(ops[..i], contents0, q.maxSize)
      invariant answers == AnswersAll(ops[..i], contents0, q.maxSize)
      invariant fresh(q.Repr - old(q.Repr))
    {
      assert ops[..i + 1][..i] == ops[..i];
      match ops[i] {
        case Back(x) =>
          var ok := q.Enqueue(x);
          answers := answers + [Room(ok)];
        case Front(x) =>
          var ok := q.EnqueueFront(x);
          answers := answers + [Room(ok)];
        case Take =>
          var x := q.Dequeue();
          answers := answers + [Got(x)];
      }
    }
    assert ops[..|ops|] == ops;
  }

  /** The entries that were let in at the back, and those that were taken, in order. */
  ghost function Entered<T>(ops: seq<Op<T>>, answers: seq<Answer<T>>): seq<T>
    requires |ops| == |answers|
  {
    if ops == [] then []
    else
      var n := |ops| - 1;
      Entered(ops[..n], answers[..n]) + if ops[n].Back? && answers[n] == Room(true) then [ops[n].x] else []
  }

  ghost function Left<T>(answers: seq<Answer<T>>): seq<T> {
    if answers == [] then []
    else
      var n := |answers| - 1;
      Left(answers[..n]) + if answers[n].Got? && answers[n].x.Some? then [answers[n].x.value] else []
  }

  lemma {:induction false} AnswersLength<T>(ops: seq<Op<T>>, contents: seq<T>, maxSize: nat)
    ensures |AnswersAll(ops, contents, maxSize)| == |ops|
  {
    if ops != [] {
      AnswersLength(ops[..|ops| - 1], contents, maxSize);
    }
  }

  /** First in, first out: without q_enqueue_front, what left and what is there are what was there and what entered. */
  lemma {:induction false} Fifo<T>(ops: seq<Op<T>>, contents: seq<T>, maxSize: nat)
    requires forall i :: 0 <= i < |ops| ==> !ops[i].Front?
    ensures var answers := AnswersAll(ops, contents, maxSize);
            |answers| == |ops| && Left(answers) + MeaningAll(ops, contents, maxSize) == contents + Entered(ops, answers)
  {
    AnswersLength(ops, contents, maxSize);
    if ops != [] {
      var n := |ops| - 1;
      Fifo(ops[..n], contents, maxSize);
      var before, answers := AnswersAll(ops[..n], contents, maxSize), AnswersAll(ops, contents, maxSize);
      AnswersLength(ops[..n], contents, maxSize);
      assert answers[..n] == before;
      FifoStep(ops[n], MeaningAll(ops[..n], contents, maxSize), maxSize, Left(before), contents,
               Entered(ops[..n], before));
    }
  }

  lemma {:induction false} FifoStep<T>(op: Op<T>, here: seq<T>, maxSize: nat, left: seq<T>, contents: seq<T>,
                                       entered: seq<T>)
    requires !op.Front? && left + here == contents + entered
    ensures var a := AnswerOf(op, here, maxSize);
            (left + if a.Got? && a.x.Some? then [a.x.value] else []) + Meaning(op, here, maxSize)
            == contents + (entered + if op.Back? && a == Room(true) then [op.x] else [])
  {
    if op.Back? && |here| < maxSize {
      assert left + (here + [op.x]) == (left + here) + [op.x] == (contents + entered) + [op.x]
          == contents + (entered + [op.x]);
    } else {
      assert contents + (entered + []) == contents + entered;
      assert op.Take? && here != [] ==> (left + [here[0]]) + here[1..] == left + here;
      assert left + [] == left;
    }
  }
}
