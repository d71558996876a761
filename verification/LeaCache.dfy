/**
 * The byte-bounded LRU of cached groups (algorithm/leaFTL/lea_cache.cc, group.cc:665-716, 760-792). The bytes counted
 * are always the sizes of the cached groups, so eviction never runs out of victims, and a group that was evicted and
 * read back still answers with the last writer of every lba.
 */
module LeaCache {
  import opened Layout
  import opened LeaLevel
  import opened LeaPush
  import opened LeaGroup

  datatype Flag = Uncached | Cached | Flying

  /** cache_flag of a group, and whether it has a translation page (ppa != INITIAL_STATE_PADDR). */
  datatype Head = Head(flag: Flag, onFlash: bool)

  // ----- sums over the LRU list

  ghost function Total(lru: seq<nat>, sizes: seq<int>): int
    requires Within(lru, |sizes|)
  {
    if lru == [] then 0 else sizes[lru[0]] + Total(lru[1..], sizes)
  }

  ghost predicate Within(lru: seq<nat>, n: nat) {
    forall k :: 0 <= k < |lru| ==> lru[k] < n
  }

  ghost predicate Distinct(lru: seq<nat>) {
    forall i, j :: 0 <= i < j < |lru| ==> lru[i] != lru[j]
  }

  lemma {:induction false} SumConcat(a: seq<nat>, b: seq<nat>, sizes: seq<int>)
    requires Within(a, |sizes|) && Within(b, |sizes|)
    ensures Within(a + b, |sizes|) && Total(a + b, sizes) == Total(a, sizes) + Total(b, sizes)
  {
    if a == [] {
      assert a + b == b;
    } else {
      assert (a + b)[1..] == a[1..] + b;
      SumConcat(a[1..], b, sizes);
    }
  }

  /** One size changes. */
  lemma {:induction false} SumStore(lru: seq<nat>, sizes: seq<int>, g: nat, size: int)
    requires Distinct(lru) && g < |sizes| && Within(lru, |sizes|)
    ensures Total(lru, sizes[g := size]) == Total(lru, sizes) + if g in lru then size - sizes[g] else 0
  {
    if lru != [] {
      SumStore(lru[1..], sizes, g, size);
      assert g in lru <==> g == lru[0] || g in lru[1..];
      assert g == lru[0] ==> g !in lru[1..];
    }
  }

  /** The least recently used group leaves. */
  lemma {:induction false} SumPop(lru: seq<nat>, sizes: seq<int>)
    requires lru != [] && Within(lru, |sizes|)
    ensures Total(lru, sizes) == Total(lru[..|lru| - 1], sizes) + sizes[lru[|lru| - 1]]
  {
    var n := |lru| - 1;
    assert lru == lru[..n] + [lru[n]];
    SumConcat(lru[..n], [lru[n]], sizes);
  }

  /** A group moves to the front. */
  lemma {:induction false} SumMove(front: seq<nat>, g: nat, back: seq<nat>, sizes: seq<int>)
    requires g < |sizes| && Within(front, |sizes|) && Within(back, |sizes|)
    ensures Within(front + ([g] + back), |sizes|) && Within([g] + (front + back), |sizes|)
    ensures Total([g] + (front + back), sizes) == Total(front + ([g] + back), sizes)
  {
    SumConcat([g], back, sizes);
    SumConcat(front, [g] + back, sizes);
    SumConcat(front, back, sizes);
    SumConcat([g], front + back, sizes);
  }

  // ----- the list of cached groups

  /** The list holds the cached groups, each once. */
  ghost predicate ListOk(lru: seq<nat>, heads: seq<Head>) {
    && Distinct(lru) && Within(lru, |heads|)
    && forall i :: 0 <= i < |heads| ==> (heads[i].flag == Cached <==> i in lru)
  }

  lemma {:induction false} ListPop(lru: seq<nat>, heads: seq<Head>, head: Head)
    requires ListOk(lru, heads) && lru != [] && head.flag != Cached
    ensures var n := |lru| - 1;
            lru[n] < |heads| && heads[lru[n]].flag == Cached && ListOk(lru[..n], heads[lru[n] := head])
  {
    var n := |lru| - 1;
    assert lru[n] in lru;
    assert lru == lru[..n] + [lru[n]];
  }

  lemma {:induction false} ListPush(lru: seq<nat>, heads: seq<Head>, g: nat, head: Head)
    requires head.flag == Cached && ListOk(lru, heads) && g < |heads| && heads[g].flag != Cached
    ensures ListOk([g] + lru, heads[g := head])
  {
  }

  lemma {:induction false} ListMove(front: seq<nat>, g: nat, back: seq<nat>, heads: seq<Head>)
    requires ListOk(front + ([g] + back), heads)
    ensures ListOk([g] + (front + back), heads)
  {
    var was, now := front + ([g] + back), [g] + (front + back);
    assert forall i :: i in now <==> i in was;
    assert was[|front|] == g;
    assert forall k :: 0 <= k < |front| ==> was[k] == front[k] && now[k + 1] == front[k];
    assert forall k :: 0 <= k < |back| ==> was[|front| + 1 + k] == back[k] && now[|front| + 1 + k] == back[k];
    forall k | 0 <= k < |now| ensures now[k] < |heads| {
      assert now[k] in was;
    }
  }

  // ----- a group and its place in the cache

  /** A flat array that names nothing. */
  ghost function Nulls(n: nat): (list: seq<Entry>)
    ensures |list| == n && forall i :: 0 <= i < n ==> list[i] == Null
  {
    seq(n, _ => Null)
  }

  /** The group has taken the pieces ps, and is where its head says. */
  ghost predicate GroupOk(gp: Group, head: Head, size: int, ps: seq<Piece>)
    reads gp, gp.segList
  {
    && gp.Valid() && gp.size == size && Taken(gp, ps)
    && Placed(head, gp.loaded, gp.clean, ps)
  }

  ghost predicate Taken(gp: Group, ps: seq<Piece>)
    reads gp, gp.segList
  {
    && gp.made == |ps| && (forall k :: 0 <= k < |ps| ==> ps[k].Ok(gp.segList.Length))
    && NamesLast(Nulls(gp.segList.Length), gp.segList[..], ps, 0)
  }

  /**
   * A group with a translation page has its levels in place exactly while it is cached; one without a page that was not
   * inserted into since it was cached was never inserted into.
   */
  ghost predicate Placed(head: Head, loaded: bool, clean: bool, ps: seq<Piece>) {
    && (head.flag == Flying ==> head.onFlash)
    && (head.onFlash ==> (loaded <==> head.flag == Cached))
    && (!clean ==> loaded && head.flag == Cached)
    && (!head.onFlash && clean ==> ps == [])
  }

  /** One more piece. */
  lemma {:induction false} TakenNext(list: seq<Entry>, before: seq<Entry>, after: seq<Entry>, ps: seq<Piece>,
                                     piece: Piece)
    requires piece.Ok(|list|) && NamesLast(list, before, ps, 0) && Listed(before, after, piece.lbas, piece.Make(|ps|))
    ensures NamesLast(list, after, ps + [piece], 0)
  {
    var now := ps + [piece];
    assert now[..|ps|] == ps && now[..|ps| + 1] == now;
    NameNext(list, before, after, now, |ps|, 0);
  }

  /** A group of per lbas as it is made. */
  ghost predicate Blank(gp: Group, per: nat)
    reads gp, gp.segList
  {
    GroupOk(gp, Head(Uncached, false), 0, []) && gp.segList.Length == per
  }

  method NewGroup(per: nat) returns (gp: Group)
    ensures fresh(gp) && fresh(gp.segList) && Blank(gp, per)
  {
    gp := new Group(per);
    assert gp.segList[..] == Nulls(per);
  }

  method AddGroup(groups: seq<Group>, per: nat) returns (groups': seq<Group>)
    requires Apart(groups) && forall i :: 0 <= i < |groups| ==> Blank(groups[i], per)
    ensures |groups'| == |groups| + 1 && groups <= groups' && fresh(groups'[|groups|])
    ensures fresh(groups'[|groups|].segList)
    ensures Apart(groups') && forall i :: 0 <= i < |groups'| ==> Blank(groups'[i], per)
  {
    var gp := NewGroup(per);
    groups' := groups + [gp];
  }

  method MakeGroups(n: nat, per: nat) returns (groups: seq<Group>)
    ensures |groups| == n && Apart(groups) && (forall i :: 0 <= i < n ==> fresh(groups[i]) && fresh(groups[i].segList))
    ensures forall i :: 0 <= i < n ==> Blank(groups[i], per)
  {
    groups := [];
    while |groups| < n
      invariant |groups| <= n && Apart(groups)
      invariant (forall i :: 0 <= i < |groups| ==> fresh(groups[i]) && fresh(groups[i].segList))
      invariant forall i :: 0 <= i < |groups| ==> Blank(groups[i], per)
    {
      groups := AddGroup(groups, per);
    }
  }

  /** No two groups share anything. */
  ghost predicate Apart(groups: seq<Group>) {
    forall i, j :: 0 <= i < j < |groups| ==> groups[i] != groups[j] && groups[i].segList != groups[j].segList
  }

  // ----- the cache

  class Cache {
    /** main_gp */
    const groups: seq<Group>
    const heads: array<Head>
    const meter: Meter
    const maxByte: nat
    var reserve: int
    /** Most recently used first. */
    var lru: seq<nat>
    /** The bytes of every group, and the pieces inserted into it. */
    ghost var sizes: seq<int>
    ghost var pieces: seq<seq<Piece>>

    ghost function Lists(): set<array<Entry>> {
      set gp | gp in groups :: gp.segList
    }

    ghost predicate Shape() {
      && heads.Length == |groups| && Apart(groups)
      && forall i :: 0 <= i < |groups| ==> groups[i].segList as object != heads as object
    }

    /** The bytes counted are those of the cached groups and of evicted ones not yet taken off the count. */
    ghost predicate Holds(evicted: int)
      reads this, heads, meter, groups, Lists()
    {
      Shape() && AllOk() && ListOk(lru, heads[..]) && meter.now == Total(lru, sizes) + evicted
    }

    ghost predicate AllOk()
      requires Shape()
      reads this`sizes, this`pieces, heads, groups, Lists()
    {
      && |sizes| == |pieces| == |groups|
      && forall i :: 0 <= i < |groups| ==> MemberOk(i)
    }

    ghost predicate MemberOk(i: nat)
      requires Shape() && |sizes| == |pieces| == |groups| && i < |groups|
      reads this`sizes, this`pieces, heads, groups[i], groups[i].segList
    {
      GroupOk(groups[i], heads[i], sizes[i], pieces[i])
    }

    ghost predicate Valid()
      reads this, heads, meter, groups, Lists()
    {
      Holds(0)
    }

    /** lea_create: n empty groups of per lbas, none of them cached. */
    constructor (n: nat, per: nat, maxByte: nat)
      ensures Valid() && |groups| == n && lru == [] && this.maxByte == maxByte && meter.now == 0
      ensures forall i :: 0 <= i < n ==> groups[i].segList.Length == per && pieces[i] == []
      ensures fresh(heads) && fresh(meter) && forall i :: 0 <= i < n ==> fresh(groups[i]) && fresh(groups[i].segList)
    {
      var gps := MakeGroups(n, per);
      groups := gps;
      heads := new Head[n](_ => Head(Uncached, false));
      meter := new Meter();
      this.maxByte := maxByte;
      reserve, lru := 0, [];
      sizes, pieces := seq(n, _ => 0), seq(n, _ => []);
      new;
      forall i | 0 <= i < n ensures MemberOk(i) {
      }
    }

    // ----- eviction

    /** The victim's levels are put aside. */
    method StoreVictim(v: nat)
      requires Shape() && AllOk() && v < |groups| && heads[v].flag == Cached
      modifies groups[v], heads
      ensures AllOk() && heads[v].flag == Uncached && heads[..] == old(heads[..])[v := heads[v]]
    {
      assert MemberOk(v);
      var head := Park(groups[v], heads[v], sizes[v], pieces[v]);
      heads[v] := head;
      forall i | 0 <= i < |groups| ensures MemberOk(i) {
        assert i != v ==> old(MemberOk(i));
      }
    }

    /** One victim. */
    method PopVictim(ghost evicted: int) returns (bytes: nat)
      requires Holds(evicted) && lru != []
      modifies this`lru, heads, groups
      ensures Holds(evicted + bytes) && lru == old(lru)[..|old(lru)| - 1]
      ensures Within(old(lru), |sizes|) && bytes == sizes[old(lru)[|old(lru)| - 1]]
    {
      ghost var before := heads[..];
      var v := lru[|lru| - 1];
      assert MemberOk(v);
      bytes := groups[v].size;
      ListPop(lru, before, Head(Uncached, true));
      StoreVictim(v);
      ListPop(lru, before, heads[v]);
      SumPop(lru, sizes);
      lru := lru[..|lru| - 1];
    }

    /**
     * __lea_cache_evict_body: pops least recently used groups until enough bytes are free. The list is never empty when
     * it is popped, and no more groups are popped than needed.
     */
    method EvictBody(size: nat)
      requires Valid() && size <= meter.now
      modifies this`lru, heads, groups, meter
      ensures Valid() && meter.now <= old(meter.now) - size
      ensures lru <= old(lru) && (size == 0 ==> lru == old(lru))
      ensures Within(old(lru), |sizes|)
      ensures |lru| < |old(lru)| ==> old(meter.now) - meter.now - sizes[old(lru)[|lru|]] < size
    {
      var space := 0;
      while space < size
        invariant space >= 0 && Holds(space) && meter.now == old(meter.now) && lru <= old(lru)
        invariant size == 0 ==> lru == old(lru)
        invariant |lru| < |old(lru)| ==> space - sizes[old(lru)[|lru|]] < size
        invariant |lru| == |old(lru)| ==> space == 0
        decreases |lru|
      {
        assert lru != [];
        var bytes := PopVictim(space);
        space := space + bytes;
      }
      meter.Update(space, true);
    }

    /** lea_cache_evict_force: down to the limit. */
    method EvictForce()
      requires Valid()
      modifies this`lru, heads, groups, meter
      ensures Valid() && meter.now <= maxByte && lru <= old(lru)
      ensures old(meter.now) <= maxByte ==> lru == old(lru)
    {
      if meter.now < maxByte {
        return;
      }
      EvictBody(meter.now - maxByte);
    }

    /** The sum the code computes in 64 unsigned bits. */
    function Demand(g: nat): int
      requires g < |groups|
      reads this, groups, meter
    {
      (groups[g].size + reserve + meter.now) % 0x1_0000_0000_0000_0000
    }

    /** lea_cache_evict: room for a group about to be cached, or false when even an empty cache could not give it. */
    method Evict(g: nat) returns (ok: bool)
      requires Valid() && g < |groups|
      modifies this`lru, this`reserve, heads, groups, meter
      ensures Valid() && lru <= old(lru)
      ensures !ok <==> old(heads[g]).flag != Cached && old(Demand(g)) >= maxByte && old(meter.now) < sizes[g]
      ensures !ok || old(heads[g]).flag == Cached || old(Demand(g)) < maxByte ==>
          lru == old(lru) && meter.now == old(meter.now)
      ensures ok && !(old(heads[g]).flag == Cached || old(Demand(g)) < maxByte) ==>
                meter.now + sizes[g] <= old(meter.now) && reserve == old(reserve) + sizes[g]
    {
      assert MemberOk(g);
      if heads[g].flag == Cached {
        return true;
      }
      if Demand(g) < maxByte {
        return true;
      }
      if meter.now < groups[g].size {
        return false;
      }
      var size := groups[g].size;
      EvictBody(size);
      assert MemberOk(g);
      reserve := reserve + groups[g].size;
      return true;
    }

    // ----- caching

    /** lea_cache_insert of a group just marked cached; mapped when its translation page was read. */
    method Insert(g: nat, mapped: bool)
      requires Valid() && g < |groups| && heads[g].flag != Cached && heads[g].onFlash == mapped
      modifies this`reserve, this`lru, heads, groups[g], meter
      ensures Valid() && lru == [g] + old(lru) && heads[g].flag == Cached
      ensures meter.now == old(meter.now) + sizes[g]
      ensures forall i :: 0 <= i < heads.Length && i != g ==> heads[i] == old(heads[i])
    {
      ghost var before := heads[..];
      LoadGroup(g, mapped);
      if mapped {
        TakeReserve(groups[g].size);
      }
      Enlist(g, before);
    }

    method TakeReserve(bytes: int)
      modifies this`reserve
      ensures reserve == if old(reserve) < 0 then 0 else old(reserve) - bytes
    {
      if reserve < 0 {
        reserve := 0;
      } else {
        reserve := reserve - bytes;
      }
    }

    /** The group is counted and becomes the most recently used one. */
    method Enlist(g: nat, ghost before: seq<Head>)
      requires Shape() && AllOk() && g < |groups| == |before| && ListOk(lru, before) && before[g].flag != Cached
      requires heads[g].flag == Cached && heads[..] == before[g := heads[g]] && meter.now == Total(lru, sizes)
      requires groups[g].size == sizes[g] >= 0
      modifies this`lru, meter
      ensures Valid() && lru == [g] + old(lru) && meter.now == old(meter.now) + sizes[g]
    {
      meter.Update(groups[g].size, false);
      ListPush(lru, before, g, heads[g]);
      assert ([g] + lru)[1..] == lru;
      lru := [g] + lru;
    }

    /** The group is marked cached, with its levels in place when it has any. */
    method LoadGroup(g: nat, mapped: bool)
      requires Shape() && AllOk() && g < |groups| && heads[g].flag != Cached && heads[g].onFlash == mapped
      modifies groups[g], heads
      ensures AllOk() && heads[g].flag == Cached && heads[..] == old(heads[..])[g := heads[g]]
      ensures groups[g].size == sizes[g] >= 0
    {
      assert MemberOk(g);
      var head := Unpark(groups[g], heads[g], mapped, sizes[g], pieces[g]);
      heads[g] := head;
      forall i | 0 <= i < |groups| ensures MemberOk(i) {
        assert i != g ==> old(MemberOk(i));
      }
    }

    /** group_get_map_read_grp: whether a read of the translation page has to be issued. */
    method MapRead(g: nat, done: bool) returns (issue: bool)
      requires Valid() && g < |groups|
      modifies this`reserve, this`lru, heads, groups[g], meter
      ensures Valid() && (issue <==> old(heads[g]).flag == Uncached && old(heads[g]).onFlash)
      ensures heads[g].flag == if issue then Flying
                               else if old(heads[g]).flag == Flying && !done then Flying
                               else Cached
      ensures forall i :: 0 <= i < heads.Length && i != g ==> heads[i] == old(heads[i])
    {
      issue := false;
      if heads[g].flag == Cached {
        return;
      }
      assert MemberOk(g);
      if !heads[g].onFlash {
        Insert(g, false);
        return;
      }
      if heads[g].flag == Uncached {
        Fly(g);
        return true;
      } else if done {
        Insert(g, true);
      }
    }

    /** Before an insertion or a lookup: the group is asked for until it is cached, its page read when it has one. */
    method MakeCached(g: nat)
      requires Valid() && g < |groups|
      modifies this`reserve, this`lru, heads, groups[g], meter
      ensures Valid() && heads[g].flag == Cached
    {
      var issue := MapRead(g, true);
      if issue {
        issue := MapRead(g, true);
      }
    }

    method Fly(g: nat)
      requires Valid() && g < |groups| && heads[g].flag == Uncached && heads[g].onFlash
      modifies heads
      ensures Valid() && heads[..] == old(heads[..])[g := old(heads[g]).(flag := Flying)]
    {
      ghost var before := heads[..];
      assert MemberOk(g);
      heads[g] := heads[g].(flag := Flying);
      forall i | 0 <= i < |groups| ensures MemberOk(i) {
        assert old(MemberOk(i));
      }
      assert heads[..] == before[g := before[g].(flag := Flying)];
    }

    /** lea_cache_promote */
    method Promote(g: nat)
      requires Valid() && g < |groups| && heads[g].flag == Cached
      modifies this`lru
      ensures Valid() && lru != [] && lru[0] == g && multiset(lru) == multiset(old(lru))
    {
      var k := 0;
      while lru[k] != g
        invariant k < |lru| && g in lru[k..]
        decreases |lru| - k
      {
        k := k + 1;
      }
      var front, back := lru[..k], lru[k + 1..];
      assert lru == front + ([g] + back);
      ListMove(front, g, back, heads[..]);
      SumMove(front, g, back, sizes);
      lru := [g] + (front + back);
    }

    /** group_insert of a cached group: the count follows the group's own size. */
    method Grow(g: nat, piece: Piece)
      requires Valid() && g < |groups| && heads[g].flag == Cached && piece.Ok(groups[g].segList.Length)
      modifies this`sizes, this`pieces, meter, groups[g], groups[g].segList
      ensures Valid() && pieces == old(pieces)[g := old(pieces)[g] + [piece]]
    {
      ghost var sizes0, pieces0 := sizes, pieces;
      assert MemberOk(g);
      ghost var size := Learn(groups[g], heads[g], piece, meter, sizes[g], pieces[g]);
      SumStore(lru, sizes0, g, size);
      sizes, pieces := sizes0[g := size], pieces0[g := pieces0[g] + [piece]];
      forall i | 0 <= i < |groups| ensures MemberOk(i) {
        assert i != g ==> old(MemberOk(i));
      }
    }

    /**
     * A lookup in a cached group: the last writer, when that was accurate, whatever happened to the group meanwhile.
     */
    method Lookup(g: nat, lba: nat) returns (e: Entry)
      requires Valid() && g < |groups| && heads[g].flag == Cached && lba < groups[g].segList.Length
      ensures LastWriterFound(e, pieces[g], lba)
    {
      assert MemberOk(g);
      e := LookIn(groups[g], lba, heads[g], sizes[g], pieces[g]);
    }
  }

  // ----- one group

  /** group_store_levellist of a victim; a dirty one gets a translation page. */
  method Park(gp: Group, head: Head, ghost size: int, ghost ps: seq<Piece>) returns (head': Head)
    requires GroupOk(gp, head, size, ps) && head.flag == Cached
    modifies gp
    ensures GroupOk(gp, head', size, ps) && head'.flag == Uncached
  {
    gp.Store();
    if gp.clean {
      head' := head.(flag := Uncached);
    } else {
      gp.clean := true;
      head' := Head(Uncached, true);
    }
  }

  /** The levels come back when the translation page was read; a group without one has none to bring back. */
  method Unpark(gp: Group, head: Head, mapped: bool, ghost size: int, ghost ps: seq<Piece>) returns (head': Head)
    requires GroupOk(gp, head, size, ps) && head.flag != Cached && head.onFlash == mapped
    modifies gp
    ensures GroupOk(gp, head', size, ps) && head' == head.(flag := Cached)
  {
    if mapped {
      gp.Load();
    }
    gp.clean := true;
    head' := head.(flag := Cached);
  }

  method Learn(gp: Group, head: Head, piece: Piece, meter: Meter, ghost size: int,
               ghost ps: seq<Piece>) returns (ghost size': int)
    requires GroupOk(gp, head, size, ps) && head.flag == Cached && piece.Ok(gp.segList.Length)
    modifies gp, gp.segList, meter
    ensures GroupOk(gp, head, size', ps + [piece]) && meter.now - old(meter.now) == size' - size
  {
    ghost var before := gp.segList[..];
    gp.Insert(piece, meter);
    TakenNext(Nulls(gp.segList.Length), before, gp.segList[..], ps, piece);
    size' := gp.size;
  }

  /** e is the segment made of the last of the pieces that has lba, when there is one and it is accurate. */
  ghost predicate LastWriterFound(e: Entry, ps: seq<Piece>, lba: nat) {
    var k := LastWriter(ps, lba);
    && (k == -1 ==> e == Null)
    && (k >= 0 && ps[k].body.Accurate? ==> ps[k].lbas != [] && |ps[k].ppas| == |ps[k].lbas| && e == Seg(ps[k].Make(k)))
  }

  method LookIn(gp: Group, lba: nat, ghost head: Head, ghost size: int, ghost ps: seq<Piece>) returns (e: Entry)
    requires GroupOk(gp, head, size, ps) && head.flag == Cached && lba < gp.segList.Length
    ensures LastWriterFound(e, ps, lba)
  {
    e := gp.Get(lba, false);
    assert gp.segList[..][lba] == NamedBy(Null, ps, lba, 0);
    ghost var k := LastWriter(ps, lba);
    if k >= 0 {
      assert ps[k].Ok(gp.segList.Length);
    }
  }

  // ----- runs

  datatype Op = Make(g: nat) | Force | Read(g: nat, done: bool) | Touch(g: nat) | Update(g: nat, piece: Piece)

  ghost predicate Allowed(c: Cache, op: Op) {
    && (!op.Force? ==> op.g < |c.groups|)
    && (op.Update? ==> op.piece.Ok(c.groups[op.g].segList.Length))
  }

  /** The pieces of the insertions into group g, in order. */
  function Updates(ops: seq<Op>, g: nat): seq<Piece> {
    if ops == [] then []
    else
      var n := |ops| - 1;
      Updates(ops[..n], g) + if ops[n].Update? && ops[n].g == g then [ops[n].piece] else []
  }

  /** Every group has taken its insertions. */
  ghost predicate AllTaken(was: seq<seq<Piece>>, now: seq<seq<Piece>>, ops: seq<Op>) {
    |now| == |was| && forall g {:trigger now[g]} :: 0 <= g < |was| ==> now[g] == was[g] + Updates(ops, g)
  }

  lemma {:induction false} TakenMore(start: seq<seq<Piece>>, was: seq<seq<Piece>>, now: seq<seq<Piece>>,
                                     ops: seq<Op>, i: nat)
    requires i < |ops| && AllTaken(start, was, ops[..i]) && (ops[i].Update? ==> ops[i].g < |was|)
    requires now == if ops[i].Update? then was[ops[i].g := was[ops[i].g] + [ops[i].piece]] else was
    ensures AllTaken(start, now, ops[..i + 1])
  {
    assert ops[..i + 1][..i] == ops[..i];
    forall g | 0 <= g < |start| ensures now[g] == start[g] + Updates(ops[..i + 1], g) {
      assert was[g] == start[g] + Updates(ops[..i], g);
    }
  }

  /** What the last operation leaves: forced eviction the limit kept, an insertion its group cached. */
  ghost predicate Settled(c: Cache, op: Op)
    requires Allowed(c, op) && c.Shape()
    reads c, c.heads, c.meter
  {
    (op.Force? ==> c.meter.now <= c.maxByte) && (op.Update? ==> c.heads[op.g].flag == Cached)
  }

  method Perform(c: Cache, op: Op)
    requires c.Valid() && Allowed(c, op)
    modifies c, c.heads, c.meter, c.groups, c.Lists()
    ensures c.Valid() && Settled(c, op)
    ensures c.pieces == if op.Update? then old(c.pieces)[op.g := old(c.pieces)[op.g] + [op.piece]] else old(c.pieces)
  {
    match op {
      case Make(g) => var _ := c.Evict(g);
      case Force => c.EvictForce();
      case Read(g, done) => var _ := c.MapRead(g, done);
      case Touch(g) =>
        if c.heads[g].flag == Cached {
          c.Promote(g);
        }
      case Update(g, piece) =>
        c.MakeCached(g);
        c.Grow(g, piece);
    }
  }

  /**
   * Any sequence of cache operations and insertions: the count stays exactly the bytes of the cached groups' segments
   * and approximate lbas, no empty list is popped, and every group has taken all its insertions, in order, wherever its
   * levels have been in between.
   */
  method Execute(c: Cache, ops: seq<Op>)
    requires c.Valid() && forall i :: 0 <= i < |ops| ==> Allowed(c, ops[i])
    modifies c, c.heads, c.meter, c.groups, c.Lists()
    ensures c.Valid() && AllTaken(old(c.pieces), c.pieces, ops)
    ensures ops != [] ==> Settled(c, ops[|ops| - 1])
  {
    for i := 0 to |ops|
      invariant c.Valid() && |c.pieces| == |c.groups| && AllTaken(old(c.pieces), c.pieces, ops[..i])
      invariant i > 0 ==> Settled(c, ops[i - 1])
    {
      ghost var was := c.pieces;
      Perform(c, ops[i]);
      TakenMore(old(c.pieces), was, c.pieces, ops, i);
    }
    assert ops[..|ops|] == ops;
  }

  ghost predicate AllowedIn(op: Op, n: nat, per: nat) {
    (!op.Force? ==> op.g < n) && (op.Update? ==> op.piece.Ok(per))
  }

  /**
   * From an empty cache, after any sequence of operations, reading group g back finds for every lba the last writer
   * among the insertions into the group; accurate insertions of consecutive addresses give the address last written.
   */
  method Serve(n: nat, per: nat, maxByte: nat, ops: seq<Op>, g: nat, lba: nat) returns (e: Entry)
    requires g < n && lba < per && forall i :: 0 <= i < |ops| ==> AllowedIn(ops[i], n, per)
    ensures LastWriterFound(e, Updates(ops, g), lba)
    ensures (forall k :: 0 <= k < |Updates(ops, g)| ==> Consecutive(Updates(ops, g)[k])) ==>
              && (e.Seg? ==> e.seg.body.Accurate? && e.seg.start <= lba)
              && AddressOf(e, lba) == Written(Updates(ops, g), lba)
  {
    var c := new Cache(n, per, maxByte);
    Execute(c, ops);
    assert c.pieces[g] == Updates(ops, g);
    c.MakeCached(g);
    assert c.MemberOk(g);
    e := c.Lookup(g, lba);
    LookGivesAddress(e, c.pieces[g], lba, per);
  }

  lemma {:induction false} LookGivesAddress(e: Entry, ps: seq<Piece>, lba: nat, per: nat)
    requires LastWriterFound(e, ps, lba) && forall k :: 0 <= k < |ps| ==> ps[k].Ok(per)
    ensures (forall k :: 0 <= k < |ps| ==> Consecutive(ps[k])) ==>
              (e.Seg? ==> e.seg.body.Accurate? && e.seg.start <= lba) && AddressOf(e, lba) == Written(ps, lba)
  {
    if (forall k :: 0 <= k < |ps| ==> Consecutive(ps[k])) && LastWriter(ps, lba) != -1 {
      AddressWritten(ps, lba, per);
    }
  }

  /** lru_now_byte after any run, group by group: the bytes of its segments and four for every approximate lba. */
  ghost function Cost(gp: Group): int
    reads gp
  {
    Bytes(gp.Content()) + CrbBytes(gp.crb)
  }

  lemma {:induction false} CountIsCost(c: Cache)
    requires c.Valid()
    ensures |c.sizes| == |c.groups| && Within(c.lru, |c.groups|) && c.meter.now == Total(c.lru, c.sizes)
    ensures forall i :: 0 <= i < |c.groups| ==> c.sizes[i] == Cost(c.groups[i])
  {
    forall i | 0 <= i < |c.groups| ensures c.sizes[i] == Cost(c.groups[i]) {
      assert c.MemberOk(i);
    }
  }
}
