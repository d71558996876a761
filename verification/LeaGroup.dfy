/**
 * A group of the learned index: the levels, the flat last-writer array of the same lbas, the bytes they take, and where
 * the levels are kept while the group is not cached (algorithm/leaFTL/group.cc, CRB.cc). lbas count from the first
 * lba of the group.
 */
module LeaGroup {
  import opened Layout
  import opened LeaSegment
  import opened LeaLevel
  import opened LeaPush

  /** lru_now_byte */
  class Meter {
    var now: int

    constructor ()
      ensures now == 0
    {
      now := 0;
    }

    /** lea_cache_size_update */
    method Update(bytes: nat, decrease: bool)
      modifies this
      ensures now == if decrease then old(now) - bytes else old(now) + bytes
    {
      if decrease {
        now := now - bytes;
      } else {
        now := now + bytes;
      }
    }
  }

  /** One insertion: temp_map and the body of the segment made of it. */
  datatype Piece = Piece(lbas: seq<nat>, ppas: seq<nat>, body: Body)
  {
    ghost predicate Ok(per: nat) {
      && lbas != [] && |ppas| == |lbas| && (forall k :: 0 <= k < |lbas| ==> lbas[k] < per)
      && (forall i, j :: 0 <= i < j < |lbas| ==> lbas[i] < lbas[j])
      && (body.Accurate? ==> Progression(lbas, body.step))
    }

    /** segment_make */
    function Make(seqno: nat): Segment
      requires lbas != [] && |ppas| == |lbas|
    {
      Segment(lbas[0], lbas[|lbas| - 1], ppas[0], body, seqno)
    }

    lemma {:induction false} MakeOk(per: nat, seqno: nat)
      requires Ok(per)
      ensures Make(seqno).Ok() && forall lba: nat :: Make(seqno).Answers(lba) <==> body.Accurate? && lba in lbas
    {
      if body.Accurate? {
        MakesMembers(lbas, ppas[0], body.step, seqno);
      }
    }
  }

  /** The index of the last piece that has lba, or -1. */
  ghost function LastWriter(pieces: seq<Piece>, lba: nat): (k: int)
    ensures -1 <= k < |pieces| && (k >= 0 ==> lba in pieces[k].lbas)
  {
    if pieces == [] then -1
    else
      var n := |pieces| - 1;
      if lba in pieces[n].lbas then n else LastWriter(pieces[..n], lba)
  }

  // ----- agreement of the levels with the flat array

  /** The search gives what the flat array holds, unless that is an approximate segment. */
  ghost predicate Agrees(levels: seq<Level>, e: Entry, lba: nat) {
    Search(levels, Answering(lba)) == e || (e.Seg? && e.seg.body.Approximate?)
  }

  ghost predicate AllAgree(levels: seq<Level>, list: seq<Entry>) {
    forall lba {:trigger Agrees(levels, list[lba], lba)} :: 0 <= lba < |list| ==> Agrees(levels, list[lba], lba)
  }

  /** No segment is live twice, or live and freed. */
  ghost predicate Once(all: multiset<Segment>, made: nat) {
    forall x :: x in all ==> all[x] == 1 && x.seqno < made
  }

  ghost predicate Sound(levels: seq<Level>, list: seq<Entry>, made: nat, freed: multiset<Segment>) {
    && LevelsOk(levels) && NewerAbove(levels) && MadeBefore(levels, made)
    && AllAgree(levels, list) && Once(Live(levels) + freed, made)
  }

  /** SET_SEG_FAST_SEARCH */
  ghost predicate Listed(list: seq<Entry>, list': seq<Entry>, lbas: seq<nat>, seg: Segment) {
    && |list'| == |list|
    && forall lba :: 0 <= lba < |list| ==> list'[lba] == if lba in lbas then Seg(seg) else list[lba]
  }

  lemma {:induction false} PushedSound(levels: seq<Level>, list: seq<Entry>, list': seq<Entry>, made: nat,
                                       freed: multiset<Segment>,
                    piece: Piece, a: nat, b: nat)
    requires Sound(levels, list, made, freed) && levels != [] && piece.Ok(|list|)
    requires Window(levels[0], piece.Make(made), a, b) && Listed(list, list', piece.lbas, piece.Make(made))
    ensures Sound(Pushed(levels, piece.Make(made), a, b), list', made + 1,
                  freed + multiset(Freed(levels[0][a..b], Staying(piece.Make(made)))))
  {
    var newer := piece.Make(made);
    piece.MakeOk(|list|, made);
    PushedOk(levels, newer, a, b);
    PushedNewerAbove(levels, newer, a, b);
    var r := Pushed(levels, newer, a, b);
    forall lba | 0 <= lba < |list'| ensures Agrees(r, list'[lba], lba) {
      PushedSearch(levels, newer, a, b, lba);
      assert Agrees(levels, list[lba], lba);
    }
    PushedLive(levels, newer, a, b);
    OnceMore(Live(levels), Live(r), freed, multiset(Freed(levels[0][a..b], Staying(newer))), newer, made);
  }

  lemma {:induction false} OnceMore(live: multiset<Segment>, live': multiset<Segment>, freed: multiset<Segment>,
                                    more: multiset<Segment>,
                 newer: Segment, made: nat)
    requires Once(live + freed, made) && newer.seqno == made && live' + more == live + multiset{newer}
    ensures Once(live' + (freed + more), made + 1)
  {
    assert live' + (freed + more) == live' + more + freed == live + freed + multiset{newer};
    assert newer !in live + freed;
  }

  /** What the flat array names is a live segment, never a freed one, unless it is approximate. */
  lemma {:induction false} NamesLive(levels: seq<Level>, list: seq<Entry>, made: nat, freed: multiset<Segment>,
                                     lba: nat)
    requires Sound(levels, list, made, freed) && lba < |list| && list[lba].Seg? && list[lba].seg.body.Accurate?
    ensures list[lba].seg in Live(levels) && list[lba].seg !in freed && list[lba].seg.Answers(lba)
  {
    assert Agrees(levels, list[lba], lba);
    SearchFindsLive(levels, lba);
    LiveIs(levels, list[lba].seg);
    var x := list[lba].seg;
    assert x in Live(levels) + freed;
  }

  /** The level search returns what the flat array holds exactly when that is not an approximate segment. */
  lemma {:induction false} SearchIsListIff(levels: seq<Level>, list: seq<Entry>, made: nat, freed: multiset<Segment>,
                                           lba: nat)
    requires Sound(levels, list, made, freed) && lba < |list|
    ensures Search(levels, Answering(lba)) == list[lba] <==> !(list[lba].Seg? && list[lba].seg.body.Approximate?)
  {
    assert Agrees(levels, list[lba], lba);
    if Search(levels, Answering(lba)).Seg? {
      SearchFindsLive(levels, lba);
    }
  }

  // ----- bytes

  /** crb_size */
  function CrbBytes(crb: set<nat>): nat {
    4 * |crb|
  }

  /** group_level_size */
  method LevelSize(lev: Level) returns (bytes: nat)
    ensures bytes == LevelBytes(lev)
  {
    bytes := 0;
    for i := 0 to |lev|
      invariant bytes == LevelBytes(lev[..i])
    {
      assert lev[..i + 1][..i] == lev[..i];
      bytes := bytes + lev[i].Bytes();
    }
    assert lev[..|lev|] == lev;
  }

  /** master_crb: lbas served by approximate segments. */
  function CrbAfter(crb: set<nat>, piece: Piece): set<nat> {
    if piece.body.Approximate? then crb + Elements(piece.lbas) else crb - Elements(piece.lbas)
  }

  /** The new top level, and below it a level of the segments that went down. */
  method PushLevels(levels: seq<Level>, piece: Piece, made: nat, ghost list: seq<Entry>, ghost list': seq<Entry>,
                    ghost freed: multiset<Segment>)
    returns (levels': seq<Level>, top: Level, godown: Level, ghost gone: seq<Segment>)
    requires levels != [] && piece.Ok(|list|)
    requires Sound(levels, list, made, freed) && Listed(list, list', piece.lbas, piece.Make(made))
    ensures Sound(levels', list', made + 1, freed + multiset(gone))
    ensures Bytes(levels') == Bytes(levels) - LevelBytes(levels[0]) + LevelBytes(top) + LevelBytes(godown)
    ensures Bytes(levels') + LevelBytes(gone) == Bytes(levels) + piece.Make(made).Bytes()
  {
    var target := piece.Make(made);
    piece.MakeOk(|list|, made);
    ghost var a, b;
    top, godown, a, b := SegmentUpdate(levels[0], target);
    levels' := [top] + if |godown| > 0 then [godown] + levels[1..] else levels[1..];
    gone := Freed(levels[0][a..b], Staying(target));
    PushedParts(levels, target, a, b);
    PushedBytes(levels, target, a, b);
    PushedSound(levels, list, list', made, freed, piece, a, b);
  }

  class Group {
    const segList: array<Entry>
    var loaded: bool
    var levels: seq<Level>
    var parked: seq<Level>
    var crb: set<nat>
    var size: int
    var made: nat
    var clean: bool
    ghost var freed: multiset<Segment>
    ghost var freedBytes: nat

    /** The levels, wherever they are. */
    ghost function Content(): seq<Level>
      reads this
    {
      if loaded then levels else parked
    }

    ghost predicate Valid()
      reads this, segList
    {
      && Sound(Content(), segList[..], made, freed)
      && size == Bytes(Content()) + CrbBytes(crb)
      && (loaded ==> parked == []) && (!loaded ==> levels == []) && (made == 0 ==> Content() == [])
    }

    /** group_init */
    constructor (per: nat)
      ensures Valid() && fresh(segList) && segList.Length == per && size == 0 && loaded && levels == [] && made == 0
      ensures clean
      ensures forall lba :: 0 <= lba < per ==> segList[lba] == Null
    {
      segList := new Entry[per](_ => Null);
      loaded, levels, parked, crb, size, made, clean := true, [], [], {}, 0, 0, true;
      freed, freedBytes := multiset{}, 0;
    }

    /** SET_SEG_FAST_SEARCH */
    method List(piece: Piece, seg: Segment)
      requires piece.Ok(segList.Length)
      modifies segList
      ensures Listed(old(segList[..]), segList[..], piece.lbas, seg)
    {
      for i := 0 to |piece.lbas|
        invariant forall lba :: 0 <= lba < segList.Length ==>
                    segList[lba] == if lba in piece.lbas[..i] then Seg(seg) else old(segList[lba])
      {
        assert piece.lbas[..i + 1] == piece.lbas[..i] + [piece.lbas[i]];
        segList[piece.lbas[i]] := Seg(seg);
      }
      assert piece.lbas[..|piece.lbas|] == piece.lbas;
    }

    /**
     * group_insert: the levels and the flat array take the piece, and the bytes charged to the cache change by what
     * the group's own size changes by.
     */
    method Insert(piece: Piece, meter: Meter)
      requires Valid() && piece.Ok(segList.Length) && (loaded || parked == [])
      modifies this, segList, meter
      ensures Valid() && loaded && !clean && made == old(made) + 1
      ensures Listed(old(segList[..]), segList[..], piece.lbas, piece.Make(old(made)))
      ensures meter.now - old(meter.now) == size - old(size)
      ensures crb == CrbAfter(old(crb), piece) && old(freed) <= freed
      ensures Bytes(Content()) + freedBytes == old(Bytes(Content()) + freedBytes) + piece.Make(old(made)).Bytes()
    {
      ghost var list0, list1 := Begin(piece);
      Push(piece, meter, list0, list1);
      clean := false;
    }

    /** The flat array is set before the levels. */
    method Begin(piece: Piece) returns (ghost list0: seq<Entry>, ghost list1: seq<Entry>)
      requires Valid() && piece.Ok(segList.Length) && (loaded || parked == [])
      modifies this`loaded, this`levels, segList
      ensures list0 == old(segList[..]) && list1 == segList[..] && Listed(list0, list1, piece.lbas, piece.Make(made))
      ensures loaded && parked == [] && levels != [] && Sound(levels, list0, made, freed)
      ensures size == Bytes(levels) + CrbBytes(crb)
      ensures Bytes(levels) == old(Bytes(Content()))
    {
      list0 := segList[..];
      StartLevels(list0);
      List(piece, piece.Make(made));
      list1 := segList[..];
    }

    /** The levels and the byte counts of an insertion. */
    method Push(piece: Piece, meter: Meter, ghost list: seq<Entry>, ghost list': seq<Entry>)
      requires loaded && levels != [] && size == Bytes(levels) + CrbBytes(crb)
      requires piece.Ok(|list|) && Sound(levels, list, made, freed) && Listed(list, list', piece.lbas, piece.Make(made))
      modifies this`levels, this`crb, this`size, this`made, this`freed, this`freedBytes, meter
      ensures Sound(levels, list', made, freed) && made == old(made) + 1 && old(freed) <= freed
      ensures Bytes(levels) + freedBytes == old(Bytes(levels) + freedBytes) + piece.Make(old(made)).Bytes()
      ensures crb == CrbAfter(old(crb), piece) && size == Bytes(levels) + CrbBytes(crb)
      ensures meter.now - old(meter.now) == size - old(size)
    {
      Uncharge(meter);
      crb := CrbAfter(crb, piece);
      var top, godown;
      ghost var gone;
      levels, top, godown, gone := PushLevels(levels, piece, made, list, list', freed);
      made, freed, freedBytes := made + 1, freed + multiset(gone), freedBytes + LevelBytes(gone);
      Recharge(top, godown, meter);
    }

    /** The top level and the approximate lbas are taken off the counts. */
    method Uncharge(meter: Meter)
      requires levels != []
      modifies this`size, meter
      ensures size == old(size) - LevelBytes(levels[0]) - CrbBytes(crb)
      ensures meter.now - old(meter.now) == size - old(size)
    {
      var bytes := LevelSize(levels[0]);
      bytes := bytes + CrbBytes(crb);
      size := size - bytes;
      meter.Update(bytes, true);
    }

    /** The new top level, the level that went down and the approximate lbas are counted. */
    method Recharge(top: Level, godown: Level, meter: Meter)
      modifies this`size, meter
      ensures size == old(size) + LevelBytes(top) + LevelBytes(godown) + CrbBytes(crb)
      ensures meter.now - old(meter.now) == size - old(size)
    {
      var bytes := LevelSize(top);
      bytes := bytes + CrbBytes(crb);
      size := size + bytes;
      meter.Update(bytes, false);
      if |godown| > 0 {
        bytes := LevelSize(godown);
        size := size + bytes;
        meter.Update(bytes, false);
      }
    }

    /** A group without levels starts with an empty one. */
    method StartLevels(ghost list: seq<Entry>)
      requires loaded || parked == []
      requires Sound(Content(), list, made, freed) && size == Bytes(Content()) + CrbBytes(crb)
      requires (loaded ==> parked == []) && (!loaded ==> levels == [])
      modifies this`loaded, this`levels
      ensures loaded && parked == [] && levels != [] && Sound(levels, list, made, freed)
      ensures size == Bytes(levels) + CrbBytes(crb)
    {
      if !loaded {
        loaded, levels := true, [];
      }
      if |levels| == 0 {
        levels := [[]];
        EmptyTop(list, made, freed);
      }
    }

    /** One more insertion of a run of them. */
    method InsertNext(pieces: seq<Piece>, i: nat, meter: Meter, ghost list0: seq<Entry>, ghost made0: nat)
      requires Valid() && (loaded || parked == []) && i < |pieces| && pieces[i].Ok(segList.Length)
      requires made == made0 + i && NamesLast(list0, segList[..], pieces[..i], made0)
      modifies this, segList, meter
      ensures Valid() && loaded && made == old(made) + 1 && meter.now - old(meter.now) == size - old(size)
      ensures NamesLast(list0, segList[..], pieces[..i + 1], made0)
    {
      ghost var before := segList[..];
      Insert(pieces[i], meter);
      NameNext(list0, before, segList[..], pieces, i, made0);
    }

    /** Insertions one after the other: every lba is named by the last piece that has it. */
    method InsertAll(pieces: seq<Piece>, meter: Meter)
      requires Valid() && loaded && forall k :: 0 <= k < |pieces| ==> pieces[k].Ok(segList.Length)
      modifies this, segList, meter
      ensures Valid() && loaded && meter.now - old(meter.now) == size - old(size)
      ensures NamesLast(old(segList[..]), segList[..], pieces, old(made))
    {
      ghost var list0, made0 := segList[..], made;
      for i := 0 to |pieces|
        invariant Valid() && loaded && made == made0 + i && meter.now - old(meter.now) == size - old(size)
        invariant NamesLast(list0, segList[..], pieces[..i], made0)
      {
        InsertNext(pieces, i, meter, list0, made0);
      }
      assert pieces[..|pieces|] == pieces;
    }

    /** group_get_segment, by the flat array or by the levels. */
    method Get(lba: nat, fast: bool) returns (e: Entry)
      requires Valid() && lba < segList.Length
      ensures !loaded ==> e == Null
      ensures loaded && fast ==> e == segList[lba]
      ensures loaded && !fast ==> e == Search(levels, Answering(lba))
      ensures loaded ==> (e == segList[lba] <==> fast || !(segList[lba].Seg? && segList[lba].seg.body.Approximate?))
    {
      if !loaded {
        return Null;
      }
      SearchIsListIff(levels, segList[..], made, freed, lba);
      if fast {
        return segList[lba];
      }
      e := GetSegment(levels, lba);
    }

    /** group_store_levellist: nothing of value is in the slot that is overwritten. */
    method Store()
      requires Valid() && (loaded || parked == [])
      modifies this`loaded, this`levels, this`parked
      ensures Valid() && !loaded && Content() == old(Content())
    {
      parked, levels, loaded := levels, [], false;
    }

    /** group_load_levellist */
    method Load()
      requires Valid() && !loaded
      modifies this`loaded, this`levels, this`parked
      ensures Valid() && loaded && Content() == old(Content())
    {
      levels, parked, loaded := parked, [], true;
    }
  }

  ghost predicate NamesLast(list: seq<Entry>, list': seq<Entry>, pieces: seq<Piece>, made: nat)
  {
    && |list'| == |list|
    && forall lba :: 0 <= lba < |list| ==> list'[lba] == NamedBy(list[lba], pieces, lba, made)
  }

  /** The flat array's entry: made from the last piece that has lba, the k-th segment made since. */
  ghost function NamedBy(e: Entry, pieces: seq<Piece>, lba: nat, made: nat): Entry {
    var k := LastWriter(pieces, lba);
    if k == -1 then e
    else if |pieces[k].ppas| == |pieces[k].lbas| then Seg(pieces[k].Make(made + k))
    else Null
  }

  lemma {:induction false} NameNext(list: seq<Entry>, before: seq<Entry>, after: seq<Entry>, pieces: seq<Piece>,
                                    i: nat, made: nat)
    requires i < |pieces| && pieces[i].Ok(|list|)
    requires NamesLast(list, before, pieces[..i], made)
    requires Listed(before, after, pieces[i].lbas, pieces[i].Make(made + i))
    ensures NamesLast(list, after, pieces[..i + 1], made)
  {
    var now := pieces[..i + 1];
    assert now[..i] == pieces[..i] && now[i] == pieces[i];
    forall lba | 0 <= lba < |list| ensures after[lba] == NamedBy(list[lba], now, lba, made) {
      if lba !in pieces[i].lbas {
        assert LastWriter(now, lba) == LastWriter(pieces[..i], lba);
      }
    }
  }

  // ----- addresses

  /** group_get of an accurate segment: the address of lba, or not found. */
  function AddressOf(e: Entry, lba: nat): (r: Addr)
    requires e.Seg? ==> e.seg.body.Accurate? && e.seg.start <= lba
  {
    if e.Null? then Unmapped
    else if e.seg.start == lba then At(e.seg.ppa)
    else At(e.seg.Addr(lba))
  }

  /** An accurate piece whose addresses are consecutive. */
  ghost predicate Consecutive(piece: Piece) {
    piece.body.Accurate? && forall i :: 0 <= i < |piece.ppas| ==> piece.ppas[i] == piece.ppas[0] + i
  }

  /** The address lba was last written to. */
  ghost function Written(pieces: seq<Piece>, lba: nat): Addr {
    var k := LastWriter(pieces, lba);
    if k == -1 then Unmapped
    else
      var i :| 0 <= i < |pieces[k].lbas| && pieces[k].lbas[i] == lba;
      if i < |pieces[k].ppas| then At(pieces[k].ppas[i]) else Unmapped
  }

  /** Any sequence of accurate insertions: the levels translate every lba to the address it was last written to. */
  method Replay(per: nat, pieces: seq<Piece>) returns (g: Group, meter: Meter)
    requires forall k :: 0 <= k < |pieces| ==> pieces[k].Ok(per) && Consecutive(pieces[k])
    ensures g.Valid() && g.loaded && g.segList.Length == per && meter.now == g.size
    ensures forall lba: nat :: lba < per ==> Search(g.levels, Answering(lba)) == g.segList[lba]
    ensures forall lba: nat :: lba < per && g.segList[lba].Seg? ==>
              g.segList[lba].seg.body.Accurate? && g.segList[lba].seg.start <= lba && g.segList[lba].seg !in g.freed
    ensures forall lba: nat :: lba < per ==> AddressOf(g.segList[lba], lba) == Written(pieces, lba)
  {
    meter := new Meter();
    g := new Group(per);
    g.InsertAll(pieces, meter);
    forall lba: nat | lba < per
      ensures Search(g.levels, Answering(lba)) == g.segList[lba]
      ensures g.segList[lba].Seg? ==>
                g.segList[lba].seg.body.Accurate? && g.segList[lba].seg.start <= lba && g.segList[lba].seg !in g.freed
      ensures AddressOf(g.segList[lba], lba) == Written(pieces, lba)
    {
      assert g.segList[..][lba] == NamedBy(Null, pieces, lba, 0);
      SearchIsListIff(g.levels, g.segList[..], g.made, g.freed, lba);
      var k := LastWriter(pieces, lba);
      if k != -1 {
        NamesLive(g.levels, g.segList[..], g.made, g.freed, lba);
        AddressWritten(pieces, lba, per);
      }
    }
  }

  lemma {:induction false} AddressWritten(pieces: seq<Piece>, lba: nat, per: nat)
    requires LastWriter(pieces, lba) != -1
    requires forall k :: 0 <= k < |pieces| ==> pieces[k].Ok(per) && Consecutive(pieces[k])
    ensures var k := LastWriter(pieces, lba);
            k >= 0 && pieces[k].Ok(per) && pieces[k].Make(k).body.Accurate? && pieces[k].Make(k).start <= lba
            && AddressOf(Seg(pieces[k].Make(k)), lba) == Written(pieces, lba)
  {
    var k := LastWriter(pieces, lba);
    var p := pieces[k];
    var i :| 0 <= i < |p.lbas| && p.lbas[i] == lba;
    AddrExact(p.lbas, p.ppas, p.body.step, k, i);
    forall j | 0 <= j < |p.lbas| && p.lbas[j] == lba ensures j == i {
    }
  }

  lemma {:induction false} EmptyTop(list: seq<Entry>, made: nat, freed: multiset<Segment>)
    requires Sound([], list, made, freed)
    ensures Sound([[]], list, made, freed) && Bytes([[]]) == 0
  {
    var top: Level, deeper: seq<Level> := [], [];
    assert [top] + deeper == [top];
    forall lba | 0 <= lba < |list| ensures Agrees([[]], list[lba], lba) {
      SearchCons(top, deeper, Answering(lba));
      assert Agrees(deeper, list[lba], lba);
    }
    ConsLevel(top, deeper);
  }

  /** A lookup that the two forms answer differently: the last writer is approximate. */
  method ApproximateIsMissed() returns (byLevels: Entry, byArray: Entry)
    ensures byArray.Seg? && byLevels != byArray
  {
    var meter := new Meter();
    var g := new Group(1);
    var piece := Piece([0], [0], Approximate(1, 8));
    g.Insert(piece, meter);
    assert 0 in piece.lbas;
    assert g.segList[..][0] == Seg(piece.Make(0));
    byLevels := g.Get(0, false);
    byArray := g.Get(0, true);
  }
}
