/**
 * Reads that share a device read (algorithm/Page_ftl/page.c:83-117, 251-313): the first read of a page goes to the
 * device, reads of the same page that arrive before it returns wait for it. Methods are the critical sections, called
 * in any order; pages may be programmed anew at any time, also while they are being read.
 */
module SharedReads {

  /**
   * A user read, by the page it needs and its piece there (value->ppa / L2PGAP and % L2PGAP). On arrival it is noted
   * which version the page has, and whether the device already had the page in an older version.
   */
  datatype Read = Read(id: nat, page: nat, slot: nat, born: nat, late: bool)

  /** A completed read, the data it was given, and the version of the page that the data comes from. */
  datatype Reply = Reply(read: Read, data: int, version: nat)
  {
    /** The data is no older than the read. */
    predicate Current() {
      version >= read.born
    }
  }

  /** The contents of every page, version by version; the last one is on the device. */
  type History = seq<seq<seq<int>>>

  // ----- lists of reads

  predicate Has(list: seq<Read>, page: nat) {
    exists i :: 0 <= i < |list| && list[i].page == page
  }

  function Without(list: seq<Read>, page: nat): seq<Read> {
    if list == [] then [] else (if list[0].page == page then [] else [list[0]]) + Without(list[1..], page)
  }

  function Only(list: seq<Read>, page: nat): seq<Read> {
    if list == [] then [] else (if list[0].page == page then [list[0]] else []) + Only(list[1..], page)
  }

  /** A multimap insert: behind all reads of pages up to its own. */
  function Placed(list: seq<Read>, r: Read): seq<Read> {
    if list == [] || list[0].page > r.page then [r] + list else [list[0]] + Placed(list[1..], r)
  }

  ghost predicate ByPage(list: seq<Read>) {
    forall i, j :: 0 <= i < j < |list| ==> list[i].page <= list[j].page
  }

  ghost predicate OnePerPage(list: seq<Read>) {
    forall i, j :: 0 <= i < j < |list| ==> list[i].page != list[j].page
  }

  lemma {:induction false} HeadAndTail(list: seq<Read>)
    requires list != []
    ensures list == [list[0]] + list[1..] && forall x :: x in list <==> x == list[0] || x in list[1..]
    ensures multiset(list) == multiset{list[0]} + multiset(list[1..])
  {
    assert list == [list[0]] + list[1..];
  }

  lemma {:induction false} WithoutMembers(list: seq<Read>, page: nat)
    ensures forall x :: x in Without(list, page) <==> x in list && x.page != page
    ensures forall x :: x in Only(list, page) <==> x in list && x.page == page
    ensures multiset(list) == multiset(Without(list, page)) + multiset(Only(list, page))
  {
    if list != [] {
      HeadAndTail(list);
      WithoutMembers(list[1..], page);
    }
  }

  lemma {:induction false} WithoutByPage(list: seq<Read>, page: nat)
    requires ByPage(list)
    ensures ByPage(Without(list, page))
  {
    if list != [] {
      WithoutByPage(list[1..], page);
      WithoutMembers(list[1..], page);
      var rest := Without(list[1..], page);
      forall i | 0 <= i < |rest| ensures list[0].page <= rest[i].page {
        assert rest[i] in list[1..];
      }
    }
  }

  lemma {:induction false} WithoutOnePerPage(list: seq<Read>, page: nat)
    requires OnePerPage(list)
    ensures OnePerPage(Without(list, page))
  {
    if list != [] {
      WithoutOnePerPage(list[1..], page);
      WithoutMembers(list[1..], page);
      var rest := Without(list[1..], page);
      forall i | 0 <= i < |rest| ensures list[0].page != rest[i].page {
        assert rest[i] in list[1..];
      }
    }
  }

  /** The reads of one page stand next to each other. */
  ghost predicate IsStretch(list: seq<Read>, page: nat, k: nat, n: nat) {
    && k <= n <= |list|
    && (forall i :: 0 <= i < k ==> list[i].page != page)
    && (forall i :: k <= i < n ==> list[i].page == page)
    && (forall i :: n <= i < |list| ==> list[i].page != page)
  }

  lemma {:induction false} TailStretch(list: seq<Read>, page: nat, k: nat, n: nat, k': nat, n': nat)
    requires IsStretch(list, page, k, n) && list != []
    requires k' == (if k > 0 then k - 1 else 0) && n' == (if n > 0 then n - 1 else 0)
    ensures IsStretch(list[1..], page, k', n') && (list[0].page == page <==> k == 0 < n)
  {
  }

  lemma {:induction false} CutFirst(list: seq<Read>, k: nat, n: nat)
    requires list != [] && k <= n <= |list|
    ensures k > 0 ==> list[..k] + list[n..] == [list[0]] + (list[1..][..k - 1] + list[1..][n - 1..])
    ensures k > 0 ==> list[k..n] == list[1..][k - 1..n - 1]
    ensures k == 0 < n ==> list[..k] + list[n..] == list[1..][n - 1..] && list[k..n] == [list[0]] + list[1..][..n - 1]
    ensures n == 0 ==> list[..k] + list[n..] == [list[0]] + list[1..] && list[k..n] == []
  {
    if k > 0 {
      assert list[..k] == [list[0]] + list[1..][..k - 1] && list[n..] == list[1..][n - 1..];
    } else {
      assert list[..k] + list[n..] == list[n..];
    }
  }

  lemma {:induction false} StretchSplits(list: seq<Read>, page: nat, k: nat, n: nat)
    requires IsStretch(list, page, k, n)
    ensures Without(list, page) == list[..k] + list[n..] && Only(list, page) == list[k..n]
  {
    if list != [] {
      var k', n' := if k > 0 then k - 1 else 0, if n > 0 then n - 1 else 0;
      TailStretch(list, page, k, n, k', n');
      StretchSplits(list[1..], page, k', n');
      CutFirst(list, k, n);
    }
  }

  lemma {:induction false} PlacedMembers(list: seq<Read>, r: Read)
    ensures forall x :: x in Placed(list, r) <==> x in list || x == r
    ensures multiset(Placed(list, r)) == multiset(list) + multiset{r}
  {
    if list != [] {
      HeadAndTail(list);
      PlacedMembers(list[1..], r);
    }
  }

  lemma {:induction false} PlacedByPage(list: seq<Read>, r: Read)
    requires ByPage(list)
    ensures ByPage(Placed(list, r))
  {
    if list != [] && list[0].page <= r.page {
      PlacedByPage(list[1..], r);
      PlacedMembers(list[1..], r);
      var rest := Placed(list[1..], r);
      forall i | 0 <= i < |rest| ensures list[0].page <= rest[i].page {
        assert rest[i] in rest;
      }
    }
  }

  lemma {:induction false} PlacedAt(list: seq<Read>, r: Read, k: nat)
    requires k <= |list| && (forall i :: 0 <= i < k ==> list[i].page <= r.page)
    requires (k < |list| ==> r.page < list[k].page)
    ensures Placed(list, r) == list[..k] + [r] + list[k..]
  {
    if k > 0 {
      PlacedAt(list[1..], r, k - 1);
      assert list[..k] == [list[0]] + list[1..][..k - 1] && list[k..] == list[1..][k - 1..];
    }
  }

  lemma {:induction false} HasIs(list: seq<Read>, r: Read)
    requires r in list
    ensures Has(list, r.page)
  {
  }

  lemma {:induction false} HasMore(list: seq<Read>, r: Read, page: nat)
    ensures Has(list + [r], page) <==> Has(list, page) || r.page == page
  {
    assert (list + [r])[|list|] == r;
    if Has(list, page) {
      var i :| 0 <= i < |list| && list[i].page == page;
      assert (list + [r])[i].page == page;
    }
  }

  lemma {:induction false} HasWithout(list: seq<Read>, page: nat, q: nat)
    ensures Has(Without(list, page), q) <==> Has(list, q) && q != page
  {
    WithoutMembers(list, page);
    if Has(list, q) && q != page {
      var i :| 0 <= i < |list| && list[i].page == q;
      HasIs(Without(list, page), list[i]);
    }
    if Has(Without(list, page), q) {
      var i :| 0 <= i < |Without(list, page)| && Without(list, page)[i].page == q;
      assert Without(list, page)[i] in Without(list, page);
      HasIs(list, Without(list, page)[i]);
    }
  }

  // ----- the protocol on values

  function VersionOf(history: History, page: nat): nat {
    if page < |history| && history[page] != [] then |history[page]| - 1 else 0
  }

  function PageAt(history: History, page: nat, version: nat): seq<int> {
    if page < |history| && version < |history[page]| then history[page][version] else []
  }

  function PieceAt(data: seq<int>, slot: nat): int {
    if slot < |data| then data[slot] else 0
  }

  predicate InRange(history: History, page: nat, slot: nat) {
    page < |history| && history[page] != [] && slot < |history[page][0]|
  }

  function RepliesTo(rs: seq<Read>, data: seq<int>, version: nat): seq<Reply> {
    seq(|rs|, i requires 0 <= i < |rs| => Reply(rs[i], PieceAt(data, rs[i].slot), version))
  }

  function Reads(replies: seq<Reply>): seq<Read> {
    seq(|replies|, i requires 0 <= i < |replies| => replies[i].read)
  }

  datatype Op =
    | Arrive(id: nat, page: nat, slot: nat)
    | ToDevice(k: nat)
    | FromDevice(k: nat)
    | Leave(k: nat)
    | Rewrite(page: nat, data: seq<int>)

  /**
   * The device's pages; the reads it was or will be asked for (issue_req); those of them it has, and the versions it
   * read for them; the waiters (pending_req); the reads it returned that are about to end; the replies; all arrivals.
   */
  datatype Board = Board(history: History, issue: seq<Read>, reading: seq<Read>, sensed: map<nat, nat>,
                         pending: seq<Read>,
                         leaving: seq<Reply>, done: seq<Reply>, accepted: seq<Read>)
  {
    /** The device already has the page, in a version that is not the last one. */
    predicate Behind(page: nat) {
      Has(reading, page) && page in sensed && sensed[page] < VersionOf(history, page)
    }

    function Sensed(page: nat): nat {
      if page in sensed then sensed[page] else 0
    }

    function Coming(id: nat, page: nat, slot: nat): Read {
      Read(id, page, slot, VersionOf(history, page), Behind(page))
    }

    /** send_user_req: the device is asked for a page only when no read of it is in flight. */
    function Sent(r: Read): Board {
      if Has(issue, r.page) then this.(pending := Placed(pending, r), accepted := accepted + [r])
      else this.(issue := issue + [r], accepted := accepted + [r])
    }

    /** li->read: the device reads the page as it is. */
    function Submitted(r: Read): Board {
      this.(reading := reading + [r], sensed := sensed[r.page := VersionOf(history, r.page)])
    }

    /** page_end_req up to the release of the lock. */
    function Returned(r: Read): Board {
      var version := Sensed(r.page);
      var data := PageAt(history, r.page, version);
      this.(issue := Without(issue, r.page), reading := Without(reading, r.page), pending := Without(pending, r.page),
            leaving := leaving + RepliesTo([r], data, version),
            done := done + RepliesTo(Only(pending, r.page), data, version))
    }

    /** The rest of page_end_req. */
    function Ended(k: nat): Board
      requires k < |leaving|
    {
      this.(leaving := leaving[..k] + leaving[k + 1..], done := done + [leaving[k]])
    }

    function Rewritten(page: nat, data: seq<int>): Board
      requires page < |history|
    {
      this.(history := history[page := history[page] + [data]])
    }

    predicate Rewritable(page: nat, data: seq<int>) {
      page < |history| && history[page] != [] && |data| == |history[page][0]|
    }

    /** One step; a step that is not enabled changes nothing. */
    function Step(op: Op): Board {
      match op
      case Arrive(id, page, slot) => if InRange(history, page, slot) then Sent(Coming(id, page, slot)) else this
      case ToDevice(k) => if k < |issue| && issue[k] !in reading then Submitted(issue[k]) else this
      case FromDevice(k) => if k < |reading| then Returned(reading[k]) else this
      case Leave(k) => if k < |leaving| then Ended(k) else this
      case Rewrite(page, data) => if Rewritable(page, data) then Rewritten(page, data) else this
    }

    function Run(ops: seq<Op>): Board {
      if ops == [] then this else Run(ops[..|ops| - 1]).Step(ops[|ops| - 1])
    }

    // ----- what every state keeps

    /** At most one device read per page is in flight, and every waiter waits for one. */
    ghost predicate ListsOk() {
      && OnePerPage(issue) && OnePerPage(reading) && (forall r :: r in reading ==> r in issue)
      && ByPage(pending) && forall r :: r in pending ==> Has(issue, r.page)
    }

    /** Every reply holds its own piece, is current exactly as foretold, and every read is at exactly one place. */
    ghost predicate RepliesOk() {
      && AllTrue(leaving, history) && AllTrue(done, history)
      && multiset(accepted) == multiset(issue) + multiset(pending) + multiset(Reads(leaving)) + multiset(Reads(done))
    }

    ghost predicate Good() {
      && ListsOk() && Even(history) && ReadsOk(issue, history) && ReadsOk(pending, history)
      && AllSensed(reading, sensed, history) && NoneLate(issue) && FatesOk(pending, reading, sensed) && RepliesOk()
    }
  }

  /** Pages keep their size. */
  ghost predicate Even(history: History) {
    forall p {:trigger EvenPage(history[p])} :: 0 <= p < |history| ==> EvenPage(history[p])
  }

  ghost predicate EvenPage(versions: seq<seq<int>>) {
    versions != [] && forall v :: 0 <= v < |versions| ==> |versions[v]| == |versions[0]|
  }

  ghost predicate ReadOk(r: Read, history: History) {
    InRange(history, r.page, r.slot) && r.born < |history[r.page]|
  }

  ghost predicate ReadsOk(rs: seq<Read>, history: History) {
    forall r {:trigger ReadOk(r, history)} :: r in rs ==> ReadOk(r, history)
  }

  /** The device read a version that the page has had, and not before its read arrived. */
  ghost predicate SensedFor(r: Read, sensed: map<nat, nat>, history: History) {
    r.page in sensed && r.page < |history| && r.born <= sensed[r.page] < |history[r.page]|
  }

  ghost predicate AllSensed(reading: seq<Read>, sensed: map<nat, nat>, history: History) {
    forall r {:trigger SensedFor(r, sensed, history)} :: r in reading ==> SensedFor(r, sensed, history)
  }

  ghost predicate NoneLate(issue: seq<Read>) {
    forall r :: r in issue ==> !r.late
  }

  /**
   * A waiter with no device read yet will be current; one with a device read is late iff that is older than the
   * waiter.
   */
  ghost predicate Fate(x: Read, reading: seq<Read>, sensed: map<nat, nat>) {
    x.late <==> Has(reading, x.page) && x.page in sensed && sensed[x.page] < x.born
  }

  ghost predicate FatesOk(pending: seq<Read>, reading: seq<Read>, sensed: map<nat, nat>) {
    forall x {:trigger Fate(x, reading, sensed)} :: x in pending ==> Fate(x, reading, sensed)
  }

  /** Its own piece of the version it names, and a current one exactly when the read was not late. */
  ghost predicate TrueReply(x: Reply, history: History) {
    && x.read.page < |history| && x.version < |history[x.read.page]| && x.read.slot < |history[x.read.page][x.version]|
    && x.data == history[x.read.page][x.version][x.read.slot]
    && (x.Current() <==> !x.read.late)
  }

  ghost predicate AllTrue(replies: seq<Reply>, history: History) {
    forall x {:trigger TrueReply(x, history)} :: x in replies ==> TrueReply(x, history)
  }

  // ----- every step keeps it

  lemma {:induction false} ReadsAppend(replies: seq<Reply>, x: Reply)
    ensures Reads(replies + [x]) == Reads(replies) + [x.read]
  {
  }

  lemma {:induction false} ReadsConcat(a: seq<Reply>, b: seq<Reply>)
    ensures Reads(a + b) == Reads(a) + Reads(b)
  {
  }

  lemma {:induction false} ReadsOfReplies(rs: seq<Read>, data: seq<int>, version: nat)
    ensures Reads(RepliesTo(rs, data, version)) == rs
  {
  }

  /** A read arrives. */
  lemma {:induction false} ArriveKeeps(s: Board, r: Read)
    requires s.Good() && InRange(s.history, r.page, r.slot) && r == s.Coming(r.id, r.page, r.slot)
    ensures s.Sent(r).Good()
  {
    assert ReadOk(r, s.history);
    if Has(s.issue, r.page) {
      PlacedMembers(s.pending, r);
      PlacedByPage(s.pending, r);
      var pending := Placed(s.pending, r);
      forall x | x in pending ensures ReadOk(x, s.history) && Fate(x, s.reading, s.sensed) {
        assert x != r ==> ReadOk(x, s.history) && Fate(x, s.reading, s.sensed);
      }
    } else {
      NotReading(s, r.page);
      IssueMore(s, r);
    }
  }

  lemma {:induction false} NotReading(s: Board, page: nat)
    requires s.ListsOk() && !Has(s.issue, page)
    ensures !Has(s.reading, page)
  {
    forall i | 0 <= i < |s.reading| ensures s.reading[i].page != page {
      assert s.reading[i] in s.reading;
      HasIs(s.issue, s.reading[i]);
    }
  }

  lemma {:induction false} IssueMore(s: Board, r: Read)
    requires s.Good() && !Has(s.issue, r.page) && !r.late && ReadOk(r, s.history)
    ensures s.(issue := s.issue + [r], accepted := s.accepted + [r]).Good()
  {
    var issue := s.issue + [r];
    forall x | x in s.pending ensures Has(issue, x.page) {
      HasMore(s.issue, r, x.page);
    }
    forall x | x in issue ensures ReadOk(x, s.history) {
      assert x != r ==> ReadOk(x, s.history);
    }
  }

  /** The device reads the page for the first read of it. */
  lemma {:induction false} SubmitKeeps(s: Board, r: Read)
    requires s.Good() && r in s.issue && r !in s.reading
    ensures s.Submitted(r).Good()
  {
    var s' := s.Submitted(r);
    assert ReadOk(r, s.history);
    forall x | x in s.reading ensures x.page != r.page {
      assert x in s.issue;
    }
    forall x | x in s'.reading ensures SensedFor(x, s'.sensed, s.history) {
      assert x != r ==> SensedFor(x, s.sensed, s.history);
    }
    forall x | x in s.pending ensures Fate(x, s'.reading, s'.sensed) {
      SubmitFate(s, r, x);
    }
  }

  lemma {:induction false} SubmitFate(s: Board, r: Read, x: Read)
    requires x in s.pending && Fate(x, s.reading, s.sensed) && (forall y :: y in s.reading ==> y.page != r.page)
    requires ReadsOk(s.pending, s.history)
    ensures Fate(x, s.Submitted(r).reading, s.Submitted(r).sensed)
  {
    HasMore(s.reading, r, x.page);
    assert ReadOk(x, s.history);
    NoneOf(s.reading, r.page);
  }

  lemma {:induction false} NoneOf(list: seq<Read>, page: nat)
    requires forall x :: x in list ==> x.page != page
    ensures !Has(list, page)
  {
    forall i | 0 <= i < |list| ensures list[i].page != page {
      assert list[i] in list;
    }
  }

  lemma {:induction false} MoreTrue(a: seq<Reply>, b: seq<Reply>, history: History)
    requires AllTrue(a, history) && AllTrue(b, history)
    ensures AllTrue(a + b, history)
  {
  }

  /** The replies that the device's page gives. */
  lemma {:induction false} RepliesTrue(s: Board, r: Read, rs: seq<Read>)
    requires s.Good() && r in s.reading && forall x :: x in rs ==> x == r || (x in s.pending && x.page == r.page)
    ensures AllTrue(RepliesTo(rs, PageAt(s.history, r.page, s.Sensed(r.page)), s.Sensed(r.page)), s.history)
  {
    var version := s.Sensed(r.page);
    var data := PageAt(s.history, r.page, version);
    var replies := RepliesTo(rs, data, version);
    assert SensedFor(r, s.sensed, s.history) && r in s.issue;
    HasIs(s.reading, r);
    forall x | x in replies ensures TrueReply(x, s.history) {
      var i :| 0 <= i < |rs| && x == replies[i];
      assert rs[i] in rs;
      assert ReadOk(x.read, s.history) && EvenPage(s.history[r.page]);
      assert x.read != r ==> Fate(x.read, s.reading, s.sensed);
    }
  }

  /** The device returns a page. */
  lemma {:induction false} ReturnKeeps(s: Board, r: Read)
    requires s.Good() && r in s.reading
    ensures s.Returned(r).Good()
  {
    ReturnLists(s, r);
    ReturnFates(s, r);
    ReturnReplies(s, r);
    WithoutMembers(s.issue, r.page);
    WithoutMembers(s.reading, r.page);
    WithoutMembers(s.pending, r.page);
  }

  lemma {:induction false} ReturnLists(s: Board, r: Read)
    requires s.Good() && r in s.reading
    ensures s.Returned(r).ListsOk()
  {
    WithoutOnePerPage(s.issue, r.page);
    WithoutOnePerPage(s.reading, r.page);
    WithoutByPage(s.pending, r.page);
    WithoutMembers(s.issue, r.page);
    WithoutMembers(s.reading, r.page);
    WithoutMembers(s.pending, r.page);
    forall x | x in Without(s.pending, r.page) ensures Has(Without(s.issue, r.page), x.page) {
      HasWithout(s.issue, r.page, x.page);
    }
  }

  lemma {:induction false} ReturnFates(s: Board, r: Read)
    requires s.Good()
    ensures FatesOk(Without(s.pending, r.page), Without(s.reading, r.page), s.sensed)
  {
    WithoutMembers(s.pending, r.page);
    forall x | x in Without(s.pending, r.page) ensures Fate(x, Without(s.reading, r.page), s.sensed) {
      assert Fate(x, s.reading, s.sensed);
      HasWithout(s.reading, r.page, x.page);
    }
  }

  lemma {:induction false} ReturnReplies(s: Board, r: Read)
    requires s.Good() && r in s.reading
    ensures s.Returned(r).RepliesOk()
  {
    var version := s.Sensed(r.page);
    var data := PageAt(s.history, r.page, version);
    var own, replies := RepliesTo([r], data, version), RepliesTo(Only(s.pending, r.page), data, version);
    WithoutMembers(s.pending, r.page);
    RepliesTrue(s, r, [r]);
    RepliesTrue(s, r, Only(s.pending, r.page));
    MoreTrue(s.leaving, own, s.history);
    MoreTrue(s.done, replies, s.history);
    ReadsConcat(s.leaving, own);
    ReadsConcat(s.done, replies);
    ReadsOfReplies([r], data, version);
    ReadsOfReplies(Only(s.pending, r.page), data, version);
    OnlyOne(s.issue, r);
    WithoutMembers(s.issue, r.page);
    Shift(multiset(Without(s.issue, r.page)), multiset{r}, multiset(Without(s.pending, r.page)),
          multiset(Only(s.pending, r.page)),
          multiset(Reads(s.leaving)), multiset(Reads(s.done)));
  }

  /** The read in flight is the only one of its page. */
  lemma {:induction false} OnlyOne(list: seq<Read>, r: Read)
    requires OnePerPage(list) && r in list
    ensures Only(list, r.page) == [r]
  {
    var k :| 0 <= k < |list| && list[k] == r;
    assert IsStretch(list, r.page, k, k + 1);
    StretchSplits(list, r.page, k, k + 1);
  }

  lemma {:induction false} Shift<T>(issue: multiset<T>, r: multiset<T>, pending: multiset<T>, replies: multiset<T>,
                                    leaving: multiset<T>,
                                    done: multiset<T>)
    ensures issue + r + (pending + replies) + leaving + done == issue + pending + (leaving + r) + (done + replies)
  {
  }

  /** The read that went to the device ends. */
  lemma {:induction false} EndKeeps(s: Board, k: nat)
    requires s.Good() && k < |s.leaving|
    ensures s.Ended(k).Good()
  {
    var x := s.leaving[k];
    ReadsAppend(s.done, x);
    ReadsConcat(s.leaving[..k], s.leaving[k + 1..]);
    ReadsConcat(s.leaving[..k], [x] + s.leaving[k + 1..]);
    ReadsConcat([x], s.leaving[k + 1..]);
    assert s.leaving == s.leaving[..k] + ([x] + s.leaving[k + 1..]);
    assert Reads([x]) == [x.read];
    assert x in s.leaving;
  }

  /** A page is programmed anew. */
  lemma {:induction false} RewriteKeeps(s: Board, page: nat, data: seq<int>)
    requires s.Good() && s.Rewritable(page, data)
    ensures s.Rewritten(page, data).Good()
  {
    var history := s.Rewritten(page, data).history;
    forall p | 0 <= p < |history| ensures EvenPage(history[p]) {
      assert EvenPage(s.history[p]);
    }
    forall r | r in s.issue || r in s.pending ensures ReadOk(r, history) {
      assert ReadOk(r, s.history);
    }
    forall r | r in s.reading ensures SensedFor(r, s.sensed, history) {
      assert SensedFor(r, s.sensed, s.history);
    }
    forall x | x in s.leaving || x in s.done ensures TrueReply(x, history) {
      assert TrueReply(x, s.history);
    }
  }

  lemma {:induction false} StepKeeps(s: Board, op: Op)
    requires s.Good()
    ensures s.Step(op).Good()
  {
    match op {
      case Arrive(id, page, slot) =>
        if InRange(s.history, page, slot) {
          ArriveKeeps(s, s.Coming(id, page, slot));
          assert s.Step(op) == s.Sent(s.Coming(id, page, slot));
        }
      case ToDevice(k) =>
        if k < |s.issue| && s.issue[k] !in s.reading {
          SubmitKeeps(s, s.issue[k]);
          assert s.Step(op) == s.Submitted(s.issue[k]);
        }
      case FromDevice(k) =>
        if k < |s.reading| {
          ReturnKeeps(s, s.reading[k]);
          assert s.Step(op) == s.Returned(s.reading[k]);
        }
      case Leave(k) =>
        if k < |s.leaving| {
          EndKeeps(s, k);
        }
      case Rewrite(page, data) =>
        if s.Rewritable(page, data) {
          RewriteKeeps(s, page, data);
        }
    }
  }

  /** Any interleaving. */
  lemma {:induction false} RunKeeps(s: Board, ops: seq<Op>)
    requires s.Good()
    ensures s.Run(ops).Good()
  {
    if ops != [] {
      RunKeeps(s, ops[..|ops| - 1]);
      StepKeeps(s.Run(ops[..|ops| - 1]), ops[|ops| - 1]);
    }
  }

  // ----- what a run did

  /** The reads among the operations that are in range, by id, page and piece. */
  function Arrivals(history: History, ops: seq<Op>): seq<(nat, nat, nat)> {
    if ops == [] then []
    else
      var op := ops[|ops| - 1];
      Arrivals(history, ops[..|ops| - 1])
      + if op.Arrive? && InRange(history, op.page, op.slot) then [(op.id, op.page, op.slot)] else []
  }

  /** The contents programmed to a page, in order. */
  function Programs(history: History, ops: seq<Op>, page: nat): seq<seq<int>> {
    if ops == [] then []
    else
      var op := ops[|ops| - 1];
      Programs(history, ops[..|ops| - 1], page)
      + if op.Rewrite? && op.page == page && page < |history| && history[page] != []
           && |op.data| == |history[page][0]|
        then [op.data] else []
  }

  function Keys(rs: seq<Read>): seq<(nat, nat, nat)> {
    seq(|rs|, i requires 0 <= i < |rs| => (rs[i].id, rs[i].page, rs[i].slot))
  }

  /** The pages grew by exactly what was programmed to them. */
  ghost predicate GrewBy(was: History, now: History, ops: seq<Op>) {
    |now| == |was| && forall p {:trigger now[p]} :: 0 <= p < |was| ==> now[p] == was[p] + Programs(was, ops, p)
  }

  /** Exactly the reads in range were accepted, in order, and exactly the writes in range changed the pages. */
  lemma {:induction false} RunDid(s: Board, ops: seq<Op>)
    requires s.Good()
    ensures GrewBy(s.history, s.Run(ops).history, ops)
    ensures Keys(s.Run(ops).accepted) == Keys(s.accepted) + Arrivals(s.history, ops)
  {
    if ops != [] {
      var init, op := ops[..|ops| - 1], ops[|ops| - 1];
      RunDid(s, init);
      StepDid(s, s.Run(init), op, init, ops);
    }
  }

  /** The sizes that a range check looks at are those of the first version. */
  lemma {:induction false} SameRange(was: History, now: History, ops: seq<Op>, page: nat)
    requires GrewBy(was, now, ops) && Even(was)
    ensures page < |was| <==> page < |now|
    ensures page < |was| ==> was[page] != [] && now[page] != [] && now[page][0] == was[page][0]
  {
    if page < |was| {
      assert EvenPage(was[page]);
      assert now[page] == was[page] + Programs(was, ops, page);
    }
  }

  lemma {:induction false} StepDid(s: Board, t: Board, op: Op, init: seq<Op>, ops: seq<Op>)
    requires s.Good() && GrewBy(s.history, t.history, init) && ops != [] && ops[..|ops| - 1] == init
    requires ops[|ops| - 1] == op
    requires Keys(t.accepted) == Keys(s.accepted) + Arrivals(s.history, init)
    ensures GrewBy(s.history, t.Step(op).history, ops)
    ensures Keys(t.Step(op).accepted) == Keys(s.accepted) + Arrivals(s.history, ops)
  {
    if op.Arrive? || op.Rewrite? {
      SameRange(s.history, t.history, init, op.page);
    }
    if op.Arrive? {
      KeysMore(t.accepted, t.Coming(op.id, op.page, op.slot));
    }
    PagesDid(s.history, t, op, init, ops);
  }

  lemma {:induction false} PagesDid(was: History, t: Board, op: Op, init: seq<Op>, ops: seq<Op>)
    requires GrewBy(was, t.history, init) && ops != [] && ops[..|ops| - 1] == init && ops[|ops| - 1] == op
    requires op.Rewrite? ==> (op.page < |was| ==>
        was[op.page] != [] && t.history[op.page] != [] && t.history[op.page][0] == was[op.page][0])
    ensures GrewBy(was, t.Step(op).history, ops)
  {
    var now := t.Step(op).history;
    forall p | 0 <= p < |was| ensures now[p] == was[p] + Programs(was, ops, p) {
      assert t.history[p] == was[p] + Programs(was, init, p);
    }
  }

  lemma {:induction false} KeysMore(rs: seq<Read>, r: Read)
    ensures Keys(rs + [r]) == Keys(rs) + [(r.id, r.page, r.slot)]
  {
  }

  /**
   * The exact condition for a stale answer, visible when the read arrives: after any operations, a reply to the k-th
   * operation's read is older than the read exactly when at its arrival the device already had the page in a version
   * that was not the last one.
   */
  lemma {:induction false} StaleIff(s: Board, ops: seq<Op>, k: nat, x: Reply)
    requires s.Good() && k < |ops| && ops[k].Arrive? && InRange(s.Run(ops[..k]).history, ops[k].page, ops[k].slot)
    requires x in s.Run(ops).done && x.read == s.Run(ops[..k]).Coming(ops[k].id, ops[k].page, ops[k].slot)
    ensures !x.Current() <==> s.Run(ops[..k]).Behind(ops[k].page)
    ensures x.read.born == VersionOf(s.Run(ops[..k]).history, ops[k].page)
  {
    RunKeeps(s, ops);
    assert TrueReply(x, s.Run(ops).history);
  }

  /** A page programmed anew while the device has it: whoever joins that read gets a former version. */
  lemma {:induction false} LateWaiterIsStale(s: Board, k: nat, data: seq<int>, id: nat, slot: nat)
    requires s.Good() && k < |s.reading| && s.Rewritable(s.reading[k].page, data) && slot < |data|
    ensures var page := s.reading[k].page;
            var s' := s.Step(Rewrite(page, data)).Step(Arrive(id, page, slot)).Step(FromDevice(k));
            exists x :: x in s'.done && x.read.id == id && x.read.slot == slot && !x.Current()
  {
    var page := s.reading[k].page;
    var r := JoinLate(s, k, data, id, slot);
    var x := ReturnAnswers(s.Step(Rewrite(page, data)).Step(Arrive(id, page, slot)), k, r);
  }

  lemma {:induction false} JoinLate(s: Board, k: nat, data: seq<int>, id: nat, slot: nat) returns (r: Read)
    requires s.Good() && k < |s.reading| && s.Rewritable(s.reading[k].page, data) && slot < |data|
    ensures var page := s.reading[k].page;
            var s' := s.Step(Rewrite(page, data)).Step(Arrive(id, page, slot));
            s'.Good() && r in s'.pending && r.page == page && r.id == id && r.slot == slot && r.late &&
                s'.reading == s.reading
  {
    var page := s.reading[k].page;
    LeftBehind(s, s.reading[k], data);
    r := JoinBehind(s.Rewritten(page, data), page, id, slot);
  }

  /** A page programmed anew while the device has it leaves the device behind. */
  lemma {:induction false} LeftBehind(s: Board, x: Read, data: seq<int>)
    requires s.Good() && x in s.reading && s.Rewritable(x.page, data)
    ensures var s' := s.Rewritten(x.page, data); s'.Good() && s'.Behind(x.page) && Has(s'.issue, x.page)
  {
    RewriteKeeps(s, x.page, data);
    assert SensedFor(x, s.sensed, s.history) && x in s.issue;
    HasIs(s.reading, x);
    HasIs(s.issue, x);
  }

  lemma {:induction false} JoinBehind(s: Board, page: nat, id: nat, slot: nat) returns (r: Read)
    requires s.Good() && s.Behind(page) && Has(s.issue, page) && InRange(s.history, page, slot)
    ensures var s' := s.Step(Arrive(id, page, slot));
            s'.Good() && r in s'.pending && r.page == page && r.id == id && r.slot == slot && r.late &&
                s'.reading == s.reading
  {
    r := s.Coming(id, page, slot);
    ArriveKeeps(s, r);
    PlacedMembers(s.pending, r);
  }

  /** Every waiter of the page that the device returns is answered. */
  lemma {:induction false} ReturnAnswers(s: Board, k: nat, r: Read) returns (x: Reply)
    requires s.Good() && k < |s.reading| && r in s.pending && r.page == s.reading[k].page
    ensures x in s.Step(FromDevice(k)).done && x.read == r && (x.Current() <==> !r.late)
  {
    var page := s.reading[k].page;
    WithoutMembers(s.pending, page);
    StepKeeps(s, FromDevice(k));
    var rs := Only(s.pending, page);
    var i :| 0 <= i < |rs| && rs[i] == r;
    var replies := RepliesTo(rs, PageAt(s.history, page, s.Sensed(page)), s.Sensed(page));
    x := replies[i];
    assert x in replies;
    assert TrueReply(x, s.Step(FromDevice(k)).history);
  }

  // ----- the read buffer

  class ReadBuffer {
    /** The device's pages, by version. */
    var history: History
    /** issue_req: the reads the device was or will be asked for. */
    var issue: seq<Read>
    /** Which of them the device has, and the versions it read for them. */
    var reading: seq<Read>
    var sensed: map<nat, nat>
    /** pending_req, a multimap ordered by page. */
    var pending: seq<Read>
    /** Reads the device returned, whose waiters were answered, and which are about to end themselves. */
    var leaving: seq<Reply>
    var done: seq<Reply>
    ghost var accepted: seq<Read>

    ghost function State(): Board
      reads this
    {
      Board(history, issue, reading, sensed, pending, leaving, done, accepted)
    }

    ghost predicate Valid()
      reads this
    {
      State().Good()
    }

    /** A device of pages of one size each, and nothing in flight. */
    constructor (flash: seq<seq<int>>)
      ensures Valid() && accepted == [] && done == [] && issue == [] && reading == [] && pending == [] && leaving == []
      ensures history == seq(|flash|, p requires 0 <= p < |flash| => [flash[p]])
    {
      history := seq(|flash|, p requires 0 <= p < |flash| => [flash[p]]);
      issue, reading, pending, leaving, done, accepted := [], [], [], [], [], [];
      sensed := map[];
    }

    /** The page is programmed anew, after its segment was erased. */
    method Program(page: nat, data: seq<int>)
      requires Valid() && State().Rewritable(page, data)
      modifies this`history
      ensures Valid() && State() == old(State()).Rewritten(page, data)
    {
      RewriteKeeps(State(), page, data);
      history := history[page := history[page] + [data]];
    }

    /** issue_req->find */
    method Find(list: seq<Read>, page: nat) returns (found: bool)
      ensures found <==> Has(list, page)
    {
      for i := 0 to |list|
        invariant forall j :: 0 <= j < i ==> list[j].page != page
      {
        if list[i].page == page {
          return true;
        }
      }
      return false;
    }

    /** send_user_req: the device is asked for a page only when no read of it is in flight. */
    method Send(id: nat, page: nat, slot: nat) returns (first: bool)
      requires Valid() && InRange(history, page, slot)
      modifies this`issue, this`pending, this`accepted
      ensures Valid() && State() == old(State()).Sent(old(State()).Coming(id, page, slot))
      ensures (first <==> !Has(old(issue), page))
    {
      var found := Find(issue, page);
      var has := Find(reading, page);
      var r := Read(id, page, slot, VersionOf(history, page),
                    has && page in sensed && sensed[page] < VersionOf(history, page));
      ArriveKeeps(State(), r);
      if !found {
        issue := issue + [r];
      } else {
        pending := Place(pending, r);
      }
      accepted := accepted + [r];
      return !found;
    }

    /** li->read of a read that is first for its page: the device reads the page as it is. */
    method Submit(r: Read)
      requires Valid() && r in issue && r !in reading
      modifies this`reading, this`sensed
      ensures Valid() && State() == old(State()).Submitted(r)
    {
      SubmitKeeps(State(), r);
      reading, sensed := reading + [r], sensed[r.page := VersionOf(history, r.page)];
    }

    /**
     * page_end_req up to the release of the lock: all waiters of the page are answered, and no read of it is in
     * flight.
     */
    method Return(r: Read)
      requires Valid() && r in reading
      modifies this`issue, this`reading, this`pending, this`leaving, this`done
      ensures Valid() && State() == old(State()).Returned(r)
      ensures !Has(issue, r.page) && |issue| == |old(issue)| - 1
    {
      ghost var next := State().Returned(r);
      ReturnKeeps(State(), r);
      ReturnFrees(State(), r);
      issue, reading, pending, leaving, done := AfterReturn(r);
      assert State() == next;
    }

    /** The lists without the page, and the replies it gives. */
    method AfterReturn(r: Read)
      returns (issue': seq<Read>, reading': seq<Read>, pending': seq<Read>, leaving': seq<Reply>, done': seq<Reply>)
      requires State().ListsOk() && r in reading
      ensures issue' == Without(issue, r.page) && reading' == Without(reading, r.page)
      ensures pending' == Without(pending, r.page)
      ensures leaving' == State().Returned(r).leaving && done' == State().Returned(r).done
    {
      var version := if r.page in sensed then sensed[r.page] else 0;
      var data := PageAt(history, r.page, version);
      issue' := Erase(issue, r);
      reading' := Erase(reading, r);
      var replies;
      pending', replies := Answer(pending, r.page, data, version);
      leaving', done' := leaving + [Reply(r, PieceAt(data, r.slot), version)], done + replies;
      assert RepliesTo([r], data, version) == [Reply(r, PieceAt(data, r.slot), version)];
    }

    /** page_end_req: the read that went to the device ends last, with its own piece. */
    method End(k: nat)
      requires Valid() && k < |leaving|
      modifies this`leaving, this`done
      ensures Valid() && State() == old(State()).Ended(k)
    {
      EndKeeps(State(), k);
      leaving, done := leaving[..k] + leaving[k + 1..], done + [leaving[k]];
    }

    method Perform(op: Op)
      requires Valid()
      modifies this
      ensures Valid() && State() == old(State()).Step(op)
    {
      match op {
        case Arrive(id, page, slot) =>
          if InRange(history, page, slot) {
            var _ := Send(id, page, slot);
          }
        case ToDevice(k) =>
          if k < |issue| && issue[k] !in reading {
            Submit(issue[k]);
          }
        case FromDevice(k) =>
          if k < |reading| {
            Return(reading[k]);
          }
        case Leave(k) =>
          if k < |leaving| {
            End(k);
          }
        case Rewrite(page, data) =>
          if page < |history| && history[page] != [] && |data| == |history[page][0]| {
            Program(page, data);
          }
      }
    }

    /**
     * Any interleaving of the critical sections and of page writes ends as it does on the values: exactly the reads in
     * range were accepted, and every reply is current exactly when its read did not join a device read that was behind.
     */
    method Execute(ops: seq<Op>)
      requires Valid()
      modifies this
      ensures Valid() && State() == old(State()).Run(ops)
      ensures Keys(accepted) == Keys(old(accepted)) + Arrivals(old(history), ops) && GrewBy(old(history), history, ops)
      ensures forall x :: x in done ==> (x.Current() <==> !x.read.late)
    {
      RunDid(State(), ops);
      for i := 0 to |ops|
        invariant Valid() && State() == old(State()).Run(ops[..i])
      {
        assert ops[..i + 1][..i] == ops[..i];
        Perform(ops[i]);
      }
      assert ops[..|ops|] == ops;
      forall x | x in done ensures x.Current() <==> !x.read.late {
        assert TrueReply(x, history);
      }
    }

    /** The reads in flight always run to completion, and then everything accepted has been answered. */
    method Drain()
      requires Valid()
      modifies this
      ensures Valid() && accepted == old(accepted) && multiset(Reads(done)) == multiset(accepted)
    {
      while issue != []
        invariant Valid() && accepted == old(accepted)
        decreases |issue|
      {
        var r := issue[0];
        if r !in reading {
          Submit(r);
        }
        Return(r);
      }
      while leaving != []
        invariant Valid() && accepted == old(accepted) && issue == []
        decreases |leaving|
      {
        End(0);
      }
      AllAnswered(State());
    }
  }

  lemma {:induction false} ReturnFrees(s: Board, r: Read)
    requires s.Good() && r in s.reading
    ensures var s' := s.Returned(r);
            && !Has(s'.issue, r.page) && |s'.issue| == |s.issue| - 1
            && forall x :: x in s'.pending <==> x in s.pending && x.page != r.page
  {
    HasWithout(s.issue, r.page, r.page);
    OnlyOne(s.issue, r);
    WithoutMembers(s.issue, r.page);
    WithoutMembers(s.pending, r.page);
    assert |multiset(s.issue)| == |multiset(Without(s.issue, r.page))| + |multiset([r])|;
  }

  /** At most one device read per page is in flight, every waiter waits for one, and no read was answered twice. */
  lemma {:induction false} Shared(s: Board, r: Read, x: Read)
    requires s.Good()
    ensures r in s.reading && x in s.reading && r.page == x.page ==> r == x
    ensures r in s.pending ==> Has(s.issue, r.page)
    ensures multiset(s.accepted)[r] == 1 ==> multiset(Reads(s.done))[r] <= 1
    ensures multiset(Reads(s.done))[r] >= 1 && multiset(s.accepted)[r] == 1 ==>
              r !in s.issue && r !in s.pending && r !in Reads(s.leaving)
  {
    if r in s.reading && x in s.reading && r.page == x.page {
      var i :| 0 <= i < |s.reading| && s.reading[i] == r;
      var j :| 0 <= j < |s.reading| && s.reading[j] == x;
    }
  }

  /** Once no read is in flight or leaving, nobody waits and every accepted read was answered. */
  lemma {:induction false} AllAnswered(s: Board)
    requires s.Good() && s.issue == [] && s.leaving == []
    ensures s.pending == [] && multiset(Reads(s.done)) == multiset(s.accepted)
  {
    assert s.pending != [] ==> s.pending[0] in s.pending && Has(s.issue, s.pending[0].page);
  }

  /** pending_req->insert */
  method Place(pending: seq<Read>, r: Read) returns (pending': seq<Read>)
    ensures pending' == Placed(pending, r)
  {
    var k := 0;
    while k < |pending| && pending[k].page <= r.page
      invariant k <= |pending| && forall i :: 0 <= i < k ==> pending[i].page <= r.page
    {
      k := k + 1;
    }
    PlacedAt(pending, r, k);
    pending' := pending[..k] + [r] + pending[k..];
  }

  /** Takes the one read of a page out. */
  method Erase(list: seq<Read>, r: Read) returns (rest: seq<Read>)
    requires OnePerPage(list) && r in list
    ensures rest == Without(list, r.page)
  {
    var k := 0;
    while list[k].page != r.page
      invariant k < |list| && r in list[k..] && forall i :: 0 <= i < k ==> list[i].page != r.page
      decreases |list| - k
    {
      k := k + 1;
    }
    StretchSplits(list, r.page, k, k + 1);
    rest := list[..k] + list[k + 1..];
  }

  /** The loop over the waiters of a page: each gets its own piece and leaves the multimap. */
  method Answer(pending: seq<Read>, page: nat, data: seq<int>, version: nat)
    returns (rest: seq<Read>, replies: seq<Reply>)
    requires ByPage(pending)
    ensures rest == Without(pending, page) && replies == RepliesTo(Only(pending, page), data, version)
  {
    var k := 0;
    while k < |pending| && pending[k].page != page
      invariant k <= |pending| && forall i :: 0 <= i < k ==> pending[i].page != page
    {
      k := k + 1;
    }
    var n := k;
    replies := [];
    while n < |pending| && pending[n].page == page
      invariant k <= n <= |pending| && replies == RepliesTo(pending[k..n], data, version)
      invariant forall i :: k <= i < n ==> pending[i].page == page
    {
      var x := pending[n];
      replies := replies + [Reply(x, PieceAt(data, x.slot), version)];
      n := n + 1;
    }
    rest := pending[..k] + pending[n..];
    StretchEnds(pending, page, k, n);
    StretchSplits(pending, page, k, n);
  }

  lemma {:induction false} StretchEnds(pending: seq<Read>, page: nat, k: nat, n: nat)
    requires ByPage(pending) && k <= n <= |pending|
    requires forall i :: 0 <= i < k ==> pending[i].page != page
    requires forall i :: k <= i < n ==> pending[i].page == page
    requires k < |pending| ==> pending[k].page == page
    requires n < |pending| ==> pending[n].page != page
    ensures IsStretch(pending, page, k, n)
  {
    forall i | n <= i < |pending| ensures pending[i].page != page {
      if k < n {
        assert pending[k].page <= pending[n].page <= pending[i].page;
      }
    }
  }
}
