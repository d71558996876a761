/**
 * One shortcut directory: the owner of every lba of a fixed range, kept as a bitmap of run heads
 * plus a packed table with one slot per run (algorithm/layeredLSM/shortcut_dir.cpp, SC_MEM_OPT).
 * The specification is the flat array of owners that the other build keeps as sc_map.
 */
module ShortcutCodec {
  import opened Layout

  /** uint8_t table entries; the largest value means that no run owns the lba. */
  type Slot = x: int | 0 <= x < 256

  const NOT_ASSIGNED: Slot := 255

  datatype Prev = Start | After(slot: Slot)

  /** What x adds to the table when it follows p. */
  function Head(p: Prev, x: Slot): seq<Slot> {
    if p == After(x) then [] else [x]
  }

  function Last(p: Prev, s: seq<Slot>): Prev {
    if s == [] then p else After(s[|s| - 1])
  }

  /** The packed table of s when s follows p: one entry per maximal run of equal owners. */
  function Pack(p: Prev, s: seq<Slot>): seq<Slot>
    decreases |s|
  {
    if s == [] then [] else Head(p, s[0]) + Pack(After(s[0]), s[1..])
  }

  predicate IsHead(s: seq<Slot>, i: nat)
    requires i < |s|
  {
    i == 0 || s[i] != s[i - 1]
  }

  /** The directory whose bitmap is bits and whose table is table holds exactly the owners flat. */
  ghost predicate Represents(bits: seq<bool>, table: seq<Slot>, flat: seq<Slot>) {
    && |bits| == |flat|
    && (forall i :: 0 <= i < |flat| ==> bits[i] == IsHead(flat, i))
    && table == Pack(Start, flat)
  }

  /** Number of set bits below i. */
  function Rank(bits: seq<bool>, i: nat): nat
    requires i <= |bits|
  {
    if i == 0 then 0 else Rank(bits, i - 1) + if bits[i - 1] then 1 else 0
  }

  lemma {:induction false} PackConcat(p: Prev, a: seq<Slot>, b: seq<Slot>)
    ensures Pack(p, a + b) == Pack(p, a) + Pack(Last(p, a), b)
    decreases |a|
  {
    if a == [] {
      assert a + b == b;
    } else {
      assert (a + b)[1..] == a[1..] + b;
      PackConcat(After(a[0]), a[1..], b);
    }
  }

  /** One more owner adds exactly one table entry when it is a run head and none otherwise. */
  lemma {:induction false} PackStep(s: seq<Slot>, i: nat)
    requires i < |s|
    ensures Pack(Start, s[..i + 1]) == Pack(Start, s[..i]) + (if IsHead(s, i) then [s[i]] else [])
  {
    assert s[..i + 1] == s[..i] + [s[i]];
    PackConcat(Start, s[..i], [s[i]]);
    var p := Last(Start, s[..i]);
    assert Pack(p, [s[i]]) == Head(p, s[i]) + Pack(After(s[i]), [s[i]][1..]);
  }

  /** Rank over the bitmap is length of the packed prefix. */
  lemma {:induction false} RankIsPackedLength(bits: seq<bool>, table: seq<Slot>, flat: seq<Slot>, i: nat)
    requires Represents(bits, table, flat) && i <= |flat|
    ensures Rank(bits, i) == |Pack(Start, flat[..i])|
  {
    if i > 0 {
      RankIsPackedLength(bits, table, flat, i - 1);
      PackStep(flat, i - 1);
    }
  }

  lemma {:induction false} PackLast(p: Prev, s: seq<Slot>)
    ensures Last(p, Pack(p, s)) == Last(p, s)
    decreases |s|
  {
    if s != [] {
      PackLast(After(s[0]), s[1..]);
      assert Last(p, s) == Last(After(s[0]), s[1..]);
    }
  }

  /** The table entry of the run holding offset is that offset's owner. */
  lemma {:induction false} PackedOwner(flat: seq<Slot>, offset: nat)
    requires offset < |flat|
    ensures var k := |Pack(Start, flat[..offset + 1])|;
            1 <= k <= |Pack(Start, flat)| && Pack(Start, flat)[k - 1] == flat[offset]
  {
    assert flat == flat[..offset + 1] + flat[offset + 1..];
    PackConcat(Start, flat[..offset + 1], flat[offset + 1..]);
    PackLast(Start, flat[..offset + 1]);
  }

  /** The part of the table that the owner at i starts. */
  function Entry(s: seq<Slot>, i: nat): seq<Slot> {
    if i < |s| && IsHead(s, i) then [s[i]] else []
  }

  /** The table cut around offset o: prefix, the entry o starts, the entry its successor starts, rest. */
  lemma {:induction false} PackSplit(flat: seq<Slot>, o: nat)
    requires o < |flat|
    ensures Pack(Start, flat[..o + 1]) == Pack(Start, flat[..o]) + Entry(flat, o)
    ensures Pack(Start, flat) == Pack(Start, flat[..o]) + Entry(flat, o) + (Entry(flat, o + 1) + Tail(flat, o + 1))
  {
    PackCut(flat, o);
    PackStep(flat, o);
    TailSplit(flat, o);
  }

  lemma {:induction false} PackCut(flat: seq<Slot>, o: nat)
    requires o < |flat|
    ensures Pack(Start, flat) == Pack(Start, flat[..o + 1]) + Pack(After(flat[o]), flat[o + 1..])
  {
    assert flat == flat[..o + 1] + flat[o + 1..];
    PackConcat(Start, flat[..o + 1], flat[o + 1..]);
  }

  lemma {:induction false} TailSplit(flat: seq<Slot>, o: nat)
    requires o < |flat|
    ensures Pack(After(flat[o]), flat[o + 1..]) == Entry(flat, o + 1) + Tail(flat, o + 1)
  {
    if o + 1 < |flat| {
      assert flat[o + 1..][1..] == flat[o + 2..];
    }
  }

  /** The table entries started strictly after i. */
  function Tail(s: seq<Slot>, i: nat): seq<Slot> {
    if i < |s| then Pack(After(s[i]), s[i + 1..]) else []
  }

  /** Overwriting offset o keeps the table outside the entries that o and its successor start. */
  lemma {:induction false} OverwriteSplit(flat: seq<Slot>, o: nat, sc: Slot) returns (a: seq<Slot>, c: seq<Slot>)
    requires o < |flat|
    ensures Pack(Start, flat) == a + Entry(flat, o) + (Entry(flat, o + 1) + c)
    ensures Pack(Start, flat[o := sc]) == a + Entry(flat[o := sc], o) + (Entry(flat[o := sc], o + 1) + c)
    ensures |Pack(Start, flat[..o + 1])| == |a + Entry(flat, o)|
    ensures o == 0 <==> a == []
    ensures o > 0 ==> a[|a| - 1] == flat[o - 1]
  {
    var flat' := flat[o := sc];
    PackSplit(flat, o);
    PackSplit(flat', o);
    a, c := Pack(Start, flat[..o]), Tail(flat, o + 1);
    assert flat'[..o] == flat[..o];
    if o + 1 < |flat| {
      assert flat'[o + 2..] == flat[o + 2..];
    }
    PackLast(Start, flat[..o]);
  }

  // ----- canonical form

  /** What every reachable directory looks like, said without the flat array. */
  ghost predicate Canonical(bits: seq<bool>, table: seq<Slot>) {
    && |bits| > 0 && bits[0]
    && Rank(bits, |bits|) == |table|
    && forall k :: 0 <= k < |table| - 1 ==> table[k] != table[k + 1]
  }

  lemma {:induction false} RankMonotone(bits: seq<bool>, i: nat, j: nat)
    requires i <= j <= |bits|
    ensures Rank(bits, i) <= Rank(bits, j)
    decreases j
  {
    if i < j {
      RankMonotone(bits, i, j - 1);
    }
  }

  /** sc_dir_query_lba on any canonical bitmap and table. */
  function Query(bits: seq<bool>, table: seq<Slot>, offset: nat): Slot
    requires Canonical(bits, table) && offset < |bits|
  {
    RankMonotone(bits, offset + 1, |bits|);
    RankMonotone(bits, 1, offset + 1);
    table[Rank(bits, offset + 1) - 1]
  }

  lemma {:induction false} PackAdjacentDiffer(p: Prev, s: seq<Slot>)
    ensures forall k :: 0 <= k < |Pack(p, s)| - 1 ==> Pack(p, s)[k] != Pack(p, s)[k + 1]
    ensures Pack(p, s) != [] ==> p != After(Pack(p, s)[0])
    decreases |s|
  {
    if s != [] {
      PackAdjacentDiffer(After(s[0]), s[1..]);
    }
  }

  /** Every representation is canonical and its query reads the flat array. */
  lemma {:induction false} RepresentationIsCanonical(bits: seq<bool>, table: seq<Slot>, flat: seq<Slot>)
    requires Represents(bits, table, flat) && |flat| > 0
    ensures Canonical(bits, table)
    ensures forall o :: 0 <= o < |flat| ==> Query(bits, table, o) == flat[o]
  {
    RankIsPackedLength(bits, table, flat, |flat|);
    assert flat[..|flat|] == flat;
    PackAdjacentDiffer(Start, flat);
    forall o | 0 <= o < |flat|
      ensures Query(bits, table, o) == flat[o]
    {
      RankIsPackedLength(bits, table, flat, o + 1);
      PackedOwner(flat, o);
    }
  }

  /** In canonical form a bit is set exactly where the queried owner changes. */
  lemma {:induction false} BitIsOwnerChange(bits: seq<bool>, table: seq<Slot>, i: nat)
    requires Canonical(bits, table) && 0 < i < |bits|
    ensures bits[i] <==> Query(bits, table, i) != Query(bits, table, i - 1)
  {
    RankMonotone(bits, 1, i);
    RankMonotone(bits, i + 1, |bits|);
    var k := Rank(bits, i) - 1;
    if bits[i] {
      assert table[k] != table[k + 1];
    }
  }

  /**
   * Equal contents have identical bitmaps and tables, whatever order of inserts produced them;
   * memory use (5 bytes a table entry) is therefore a function of the contents.
   */
  lemma {:induction false} CanonicalFormIsUnique(bits: seq<bool>, table: seq<Slot>, bits': seq<bool>, table': seq<Slot>)
    requires Canonical(bits, table) && Canonical(bits', table') && |bits| == |bits'|
    requires forall o :: 0 <= o < |bits| ==> Query(bits, table, o) == Query(bits', table', o)
    ensures bits == bits' && table == table'
  {
    forall i | 0 <= i < |bits| ensures bits[i] == bits'[i] {
      if i > 0 {
        BitIsOwnerChange(bits, table, i);
        BitIsOwnerChange(bits', table', i);
      }
    }
    assert bits == bits';
    forall k | 0 <= k < |table| ensures table[k] == table'[k] {
      var o := OffsetOfEntry(bits, |bits|, k);
      assert Query(bits, table, o) == Query(bits', table', o);
    }
  }

  /** The offset whose head bit is the k-th set bit. */
  lemma {:induction false} OffsetOfEntry(bits: seq<bool>, n: nat, k: nat) returns (o: nat)
    requires n <= |bits| && k < Rank(bits, n)
    ensures o < n && Rank(bits, o + 1) == k + 1
  {
    if Rank(bits, n - 1) == k {
      o := n - 1;
    } else {
      o := OffsetOfEntry(bits, n - 1, k);
    }
  }

  /** Conversely every canonical pair is the representation of what it answers. */
  lemma {:induction false} CanonicalRepresents(bits: seq<bool>, table: seq<Slot>, flat: seq<Slot>)
    requires Canonical(bits, table) && |flat| == |bits|
    requires forall o :: 0 <= o < |bits| ==> flat[o] == Query(bits, table, o)
    ensures Represents(bits, table, flat)
  {
    var bits' := seq(|flat|, i requires 0 <= i < |flat| => IsHead(flat, i));
    RepresentationIsCanonical(bits', Pack(Start, flat), flat);
    CanonicalFormIsUnique(bits, table, bits', Pack(Start, flat));
  }

  /** Rank below i depends only on the bits below i. */
  lemma {:induction false} RankPrefix(bits: seq<bool>, bits': seq<bool>, i: nat)
    requires i <= |bits| == |bits'|
    requires forall k :: 0 <= k < i ==> bits[k] == bits'[k]
    ensures Rank(bits, i) == Rank(bits', i)
  {
    if i > 0 {
      RankPrefix(bits, bits', i - 1);
    }
  }

  ghost predicate Increasing(s: seq<nat>) {
    forall i, j :: 0 <= i < j < |s| ==> s[i] < s[j]
  }

  /** os are the offsets, from base, of the lbas from start on. */
  ghost predicate IsOffsets(os: seq<nat>, lbas: seq<nat>, start: nat, base: nat, per: nat) {
    && start + |os| <= |lbas|
    && forall k :: 0 <= k < |os| ==> os[k] < per && lbas[start + k] == base + os[k]
  }

  /** Where the next offset may lie: after the last one. */
  function NextFree(os: seq<nat>): nat {
    if os == [] then 0 else os[|os| - 1] + 1
  }

  lemma {:induction false} OffsetsStep(os: seq<nat>, lbas: seq<nat>, start: nat, next: nat, dir: nat, per: nat,
                                       offset: nat)
    requires per > 0 && IsOffsets(os, lbas, start, Base(dir, per), per) && next == start + |os|
    requires next < |lbas| && lbas[next] / per == dir && Increasing(lbas) && offset == lbas[next] % per
    ensures NextFree(os) <= offset < per && IsOffsets(os + [offset], lbas, start, Base(dir, per), per)
    ensures (os + [offset])[..|os|] == os
  {
    Split(per, lbas[next], dir);
    if os != [] {
      assert lbas[next - 1] < lbas[next];
    }
  }

  // ----- the flat form: owners with their slot counters

  /** Owners and the counters of every slot: what sc_map and info_set hold in the uncompressed build. */
  datatype Books = Books(owners: seq<Slot>, linked: seq<int>, unlinked: seq<int>)
  {
    ghost predicate Ok() {
      && |linked| == |unlinked| <= NOT_ASSIGNED
      && forall o :: 0 <= o < |owners| ==> owners[o] < |linked| || owners[o] == NOT_ASSIGNED
    }

    /** Link one lba to slot sc, counting the loss of its former owner when unlink is set. */
    ghost function Link(o: nat, sc: Slot, unlink: bool): (b: Books)
      requires Ok() && o < |owners| && sc < |linked|
      ensures b.Ok() && |b.owners| == |owners| && |b.linked| == |linked|
    {
      Books(owners[o := sc], linked[sc := linked[sc] + 1],
            if unlink && owners[o] != NOT_ASSIGNED then unlinked[owners[o] := unlinked[owners[o]] + 1] else unlinked)
    }

    /** Give an lba up, charged to slot sc. */
    ghost function Unlink(o: nat, sc: Slot): (b: Books)
      requires Ok() && o < |owners| && sc < |unlinked|
      ensures b.Ok() && |b.owners| == |owners| && |b.linked| == |linked|
    {
      Books(owners[o := NOT_ASSIGNED], linked, unlinked[sc := unlinked[sc] + 1])
    }

    /** Link a list of lbas one after the other. */
    ghost function LinkAll(os: seq<nat>, sc: Slot, unlink: bool): (b: Books)
      requires Ok() && sc < |linked| && forall k :: 0 <= k < |os| ==> os[k] < |owners|
      ensures b.Ok() && |b.owners| == |owners| && |b.linked| == |linked|
      decreases |os|
    {
      if os == [] then this
      else LinkAll(os[..|os| - 1], sc, unlink).Link(os[|os| - 1], sc, unlink)
    }

    /** Count n entries as unlinked at slot sc, whoever owns them. */
    ghost function Charge(sc: Slot, n: nat): (b: Books)
      requires Ok() && sc < |unlinked|
      ensures b.Ok() && |b.owners| == |owners| && |b.linked| == |linked|
    {
      this.(unlinked := unlinked[sc := unlinked[sc] + n])
    }

    /** The slot is given back: its counters start over, and whatever it still owned stays owned. */
    ghost function Release(sc: Slot): (b: Books)
      requires Ok() && sc < |linked|
      ensures b.Ok() && |b.owners| == |owners| && |b.linked| == |linked|
    {
      this.(linked := linked[sc := 0], unlinked := unlinked[sc := 0])
    }

    /** linked minus unlinked of slot s, beyond the lbas it owns. */
    ghost function Excess(s: Slot): int
      requires s < |linked| == |unlinked|
    {
      linked[s] - unlinked[s] - multiset(owners)[s]
    }
  }

  /** A bulk link changes exactly the listed owners, adds the list's length to linked, and conserves every excess. */
  lemma {:induction false} LinkAllEffect(b: Books, os: seq<nat>, sc: Slot, unlink: bool)
    requires b.Ok() && sc < |b.linked| && forall k :: 0 <= k < |os| ==> os[k] < |b.owners|
    ensures var b' := b.LinkAll(os, sc, unlink);
            && (forall o :: 0 <= o < |b.owners| ==> b'.owners[o] == if o in os then sc else b.owners[o])
            && b'.linked == b.linked[sc := b.linked[sc] + |os|]
            && (unlink ==> forall s :: 0 <= s < |b.linked| ==> b'.Excess(s) == b.Excess(s))
            && (!unlink ==> b'.unlinked == b.unlinked)
    decreases |os|
  {
    if os != [] {
      var init, o := os[..|os| - 1], os[|os| - 1];
      var b1 := b.LinkAll(init, sc, unlink);
      LinkAllEffect(b, init, sc, unlink);
      assert os == init + [o];
      LinkExcess(b1, o, sc);
    }
  }

  /** Linking with unlink moves linked minus unlinked of every slot exactly as its number of owned lbas. */
  lemma {:induction false} LinkExcess(b: Books, o: nat, sc: Slot)
    requires b.Ok() && sc < |b.linked| && o < |b.owners|
    ensures forall s :: 0 <= s < |b.linked| ==> b.Link(o, sc, true).Excess(s) == b.Excess(s)
  {
    assert multiset(b.owners[o := sc]) == multiset(b.owners) - multiset{b.owners[o]} + multiset{sc};
  }

  /** A plain link keeps every slot's counters honest exactly when the lba had no owner. */
  lemma {:induction false} LinkKeepsExcessIff(b: Books, o: nat, sc: Slot)
    requires b.Ok() && sc < |b.linked| && o < |b.owners|
    ensures (forall s :: 0 <= s < |b.linked| ==> b.Link(o, sc, false).Excess(s) == b.Excess(s))
            <==> b.owners[o] == NOT_ASSIGNED
  {
    var b' := b.Link(o, sc, false);
    assert multiset(b'.owners) == multiset(b.owners) - multiset{b.owners[o]} + multiset{sc};
    if b.owners[o] != NOT_ASSIGNED {
      assert b'.Excess(b.owners[o]) != b.Excess(b.owners[o]);
    }
  }

  /**
   * Giving an lba up keeps every slot's counters honest exactly when the charged slot owned it. The empty test in
   * shortcut_unlink_lba does not guard this: unlinking an unassigned lba overcounts.
   */
  lemma {:induction false} UnlinkKeepsExcessIff(b: Books, o: nat, sc: Slot)
    requires b.Ok() && sc < |b.unlinked| && o < |b.owners|
    ensures (forall s :: 0 <= s < |b.linked| ==> b.Unlink(o, sc).Excess(s) == b.Excess(s)) <==> b.owners[o] == sc
  {
    var b' := b.Unlink(o, sc);
    assert multiset(b'.owners) == multiset(b.owners) - multiset{b.owners[o]} + multiset{NOT_ASSIGNED};
    if b.owners[o] != sc {
      assert b'.Excess(sc) != b.Excess(sc);
    }
  }

  /** A plain link of an owned lba leaves its former owner one link ahead. */
  lemma {:induction false} PlainLinkMiscounts()
    ensures var b := Books([0], [1, 0], [0, 0]);
            b.Ok() && b.Excess(0) == 0 && b.Link(0, 1, false).Excess(0) == 1
  {
    var owners: seq<Slot> := [0];
    assert multiset(owners) == multiset{0};
    assert owners[0 := 1] == [1];
    assert multiset([1 as Slot]) == multiset{1};
  }

  /** Unlinking an unassigned lba leaves the charged slot one unlink ahead. */
  lemma {:induction false} EmptyUnlinkMiscounts()
    ensures var b := Books([NOT_ASSIGNED], [0], [0]);
            b.Ok() && b.Excess(0) == 0 && b.Unlink(0, 0).Excess(0) == -1
  {
    var owners: seq<Slot> := [NOT_ASSIGNED];
    assert owners[0 := NOT_ASSIGNED] == owners;
    assert multiset(owners) == multiset{NOT_ASSIGNED};
  }

  lemma {:induction false} PackConstant(x: Slot, n: nat)
    ensures Pack(After(x), seq(n, _ => x)) == []
  {
    if n > 0 {
      var s := seq(n, _ => x);
      assert s[1..] == seq(n - 1, _ => x);
      PackConstant(x, n - 1);
    }
  }
}

module ShortcutDir {
  import opened Layout
  import opened ShortcutCodec

  class Directory {
    const bmap: array<bool>
    const idx: nat
    var table: seq<Slot>
    /** The owners this directory stands for: sc_map of the uncompressed build. */
    ghost var contents: seq<Slot>

    ghost predicate Valid()
      reads this, bmap
    {
      bmap.Length > 0 && Represents(bmap[..], table, contents)
    }

    /** sc_dir_init: everything unassigned, one run. */
    constructor (perDir: nat, idx: nat)
      requires perDir > 0
      ensures table == [NOT_ASSIGNED]
      ensures Valid() && fresh(bmap) && this.idx == idx && bmap.Length == perDir
      ensures contents == seq(perDir, _ => NOT_ASSIGNED)
    {
      var bits := new bool[perDir](_ => false);
      bits[0] := true;
      bmap := bits;
      this.idx := idx;
      table := [NOT_ASSIGNED];
      contents := seq(perDir, _ => NOT_ASSIGNED);
      new;
      PackConstant(NOT_ASSIGNED, perDir - 1);
      assert contents[1..] == seq(perDir - 1, _ => NOT_ASSIGNED);
    }

    /** __dir_map_insert: grow by one, shift the tail up, store. */
    method TableInsert(index: nat, sc: Slot)
      requires index <= |table|
      modifies this`table
      ensures table == old(table)[..index] + [sc] + old(table)[index..]
    {
      var n := |table|;
      table := table + [0];
      if n != 0 {
        table := table[..index + 1] + table[index..n];
      }
      table := table[index := sc];
    }

    /** __dir_map_erase: the last entry is saved before the buffer shrinks, and put back after the shift. */
    method TableErase(index: nat)
      requires index < |table|
      modifies this`table
      ensures table == old(table)[..index] + old(table)[index + 1..]
    {
      if index != |table| - 1 {
        var last := table[|table| - 1];
        table := table[..|table| - 1];
        table := table[..index] + table[index + 1..] + [table[|table| - 1]];
        table := table[|table| - 1 := last];
      } else {
        table := table[..|table| - 1];
      }
    }

    /** compression_target, the check of the next offset: merge with it or give it its own entry. */
    method CompressNext(targetIdx: nat, offset: nat, sc: Slot, original: Slot,
                        ghost u: seq<Slot>, ghost y: seq<Slot>, ghost y': seq<Slot>, ghost c: seq<Slot>)
      requires offset < bmap.Length && table == u + (y + c) && |u| == targetIdx + 1
      requires if offset + 1 == bmap.Length then y == y' == []
               else if !bmap[offset + 1] then y == [] && y' == [original]
               else |y| == 1 && y' == if y[0] == sc then [] else y
      modifies this`table, bmap
      ensures table == u + (y' + c)
      ensures offset + 1 < bmap.Length ==> bmap[offset + 1] == (y' != [])
      ensures forall i :: 0 <= i < bmap.Length && i != offset + 1 ==> bmap[i] == old(bmap[i])
    {
      if offset != bmap.Length - 1 {
        if bmap[offset + 1] {
          if table[targetIdx + 1] == sc {
            bmap[offset + 1] := false;
            TableErase(targetIdx + 1);
          }
        } else {
          bmap[offset + 1] := true;
          TableInsert(targetIdx + 1, original);
        }
      }
    }

    /** compression_target, the check of the previous entry and the final store. */
    method CompressPrevious(targetIdx: nat, offset: nat, sc: Slot,
                            ghost a: seq<Slot>, ghost h: seq<Slot>, ghost h': seq<Slot>, ghost rest: seq<Slot>)
      requires offset < bmap.Length && table == a + h + rest && |a| + |h| == targetIdx + 1
      requires |h| == if bmap[offset] then 1 else 0
      requires a != [] && a[|a| - 1] == sc ==> bmap[offset]
      requires h' == if a != [] && a[|a| - 1] == sc then [] else [sc]
      modifies this`table, bmap
      ensures table == a + h' + rest
      ensures bmap[offset] == (h' != [])
      ensures forall i :: 0 <= i < bmap.Length && i != offset ==> bmap[i] == old(bmap[i])
    {
      if targetIdx != 0 && table[targetIdx - 1] == sc && bmap[offset] {
        bmap[offset] := false;
        TableErase(targetIdx);
      } else if bmap[offset] {
        table := table[targetIdx := sc];
      } else {
        bmap[offset] := true;
        TableInsert(targetIdx + 1, sc);
      }
    }

    /** compression_target: overwrite one owner, splitting and merging runs around it. */
    method CompressionTarget(targetIdx: nat, offset: nat, sc: Slot)
      requires Valid() && offset < bmap.Length
      requires targetIdx + 1 == |Pack(Start, contents[..offset + 1])|
      modifies this`table, this`contents, bmap
      ensures Valid() && contents == old(contents)[offset := sc]
      ensures forall i :: 0 <= i < bmap.Length && i != offset && i != offset + 1 ==> bmap[i] == old(bmap[i])
    {
      ghost var flat, flat' := contents, contents[offset := sc];
      ghost var a, c := OverwriteSplit(flat, offset, sc);
      ghost var h, y := Entry(flat, offset), Entry(flat, offset + 1);
      ghost var h', y' := Entry(flat', offset), Entry(flat', offset + 1);
      contents := flat';
      var original := table[targetIdx];
      assert original == flat[offset];
      if original == sc {
        assert flat' == flat;
        return;
      }
      CompressNext(targetIdx, offset, sc, original, a + h, y, y', c);
      CompressPrevious(targetIdx, offset, sc, a, h, h', y' + c);
    }

    /** The counting loop of sc_dir_insert_lba and sc_dir_query_lba. */
    method TableIndex(offset: nat) returns (targetIdx: int)
      requires Valid() && offset < bmap.Length
      ensures targetIdx == Rank(bmap[..], offset + 1) - 1
      ensures targetIdx + 1 == |Pack(Start, contents[..offset + 1])|
      ensures 0 <= targetIdx < |table| && table[targetIdx] == contents[offset]
    {
      targetIdx := -1;
      for i := 0 to offset + 1
        invariant targetIdx == Rank(bmap[..], i) - 1
      {
        if bmap[i] {
          targetIdx := targetIdx + 1;
        }
      }
      RankIsPackedLength(bmap[..], table, contents, offset + 1);
      PackedOwner(contents, offset);
    }

    method QueryLba(offset: nat) returns (sc: Slot)
      requires Valid() && offset < bmap.Length
      ensures sc == contents[offset]
    {
      var targetIdx := TableIndex(offset);
      sc := table[targetIdx];
    }

    /** sc_dir_insert_lba, without the cursor notification. */
    method InsertLba(offset: nat, sc: Slot)
      requires Valid() && offset < bmap.Length
      modifies this`table, this`contents, bmap
      ensures Valid() && contents == old(contents)[offset := sc]
      ensures forall i :: 0 <= i < bmap.Length && i != offset && i != offset + 1 ==> bmap[i] == old(bmap[i])
    {
      var targetIdx := TableIndex(offset);
      CompressionTarget(targetIdx, offset, sc);
    }

    /** Goes on counting set bits. */
    method CountOn(from: nat, to: nat, fromIdx: int) returns (tableIdx: int)
      requires from <= to <= bmap.Length && fromIdx == Rank(bmap[..], from) - 1
      ensures tableIdx == Rank(bmap[..], to) - 1
    {
      tableIdx := fromIdx;
      for i := from to to
        invariant tableIdx == Rank(bmap[..], i) - 1
      {
        if bmap[i] {
          tableIdx := tableIdx + 1;
        }
      }
    }

    /** The owner of an offset, counting on from an offset at or before the next one. */
    method OwnerFrom(from: nat, offset: nat, fromIdx: int) returns (tableIdx: int, sc: Slot)
      requires Valid() && from <= offset + 1 <= bmap.Length && fromIdx == Rank(bmap[..], from) - 1
      ensures tableIdx == Rank(bmap[..], offset + 1) - 1 && sc == contents[offset]
    {
      tableIdx := CountOn(from, offset + 1, fromIdx);
      RankIsPackedLength(bmap[..], table, contents, offset + 1);
      PackedOwner(contents, offset);
      sc := table[tableIdx];
    }

    /** Continue the count of set bits from one offset to a later one. */
    method AdvanceIndex(offset: nat, from: nat, fromIdx: int) returns (tableIdx: int)
      requires Valid() && from <= offset < bmap.Length && fromIdx == Rank(bmap[..], from) - 1
      ensures tableIdx == Rank(bmap[..], offset + 1) - 1
      ensures tableIdx + 1 == |Pack(Start, contents[..offset + 1])|
      ensures 0 <= tableIdx < |table| && table[tableIdx] == contents[offset]
    {
      tableIdx := CountOn(from, offset, fromIdx);
      if bmap[offset] {
        tableIdx := tableIdx + 1;
      }
      RankIsPackedLength(bmap[..], table, contents, offset + 1);
      PackedOwner(contents, offset);
    }

    /** One round of sc_dir_insert_lba_dp: move the table index on to offset, then overwrite it. */
    method LinkNext(sc: Slot, offset: nat, from: nat, fromIdx: int, unlink: bool,
                    linked: array<int>, unlinked: array<int>)
      returns (tableIdx: int)
      requires Valid() && from <= offset < bmap.Length && fromIdx == Rank(bmap[..], from) - 1
      requires linked != unlinked && Flat(linked, unlinked).Ok() && sc < linked.Length
      modifies this`table, this`contents, bmap, linked, unlinked
      ensures Valid() && contents == old(contents)[offset := sc]
      ensures tableIdx == Rank(bmap[..], offset + 1) - 1
      ensures Flat(linked, unlinked) == old(Flat(linked, unlinked)).Link(offset, sc, unlink)
    {
      tableIdx := AdvanceIndex(offset, from, fromIdx);
      var wasHead := bmap[offset];
      if unlink {
        CountLoss(table[tableIdx], unlinked);
      }
      ghost var losses := unlinked[..];
      tableIdx := Overwrite(sc, offset, tableIdx, wasHead);
      Bump(linked, sc);
      assert unlinked[..] == losses;
    }

    /** The former owner, if there is one, loses an lba. */
    method CountLoss(info: Slot, unlinked: array<int>)
      requires info < unlinked.Length || info == NOT_ASSIGNED
      modifies unlinked
      ensures unlinked[..] == if info == NOT_ASSIGNED || info >= unlinked.Length then old(unlinked[..])
                              else old(unlinked[..])[info := old(unlinked[..])[info] + 1]
    {
      if info != NOT_ASSIGNED {
        Bump(unlinked, info);
      }
    }

    method Bump(counts: array<int>, sc: Slot)
      requires sc < counts.Length
      modifies counts
      ensures counts[..] == old(counts[..])[sc := old(counts[sc]) + 1]
    {
      counts[sc] := counts[sc] + 1;
    }

    /** The overwrite, and the table index of the offset afterwards. */
    method Overwrite(sc: Slot, offset: nat, idx: int, wasHead: bool) returns (tableIdx: int)
      requires Valid() && offset < bmap.Length && idx == Rank(bmap[..], offset + 1) - 1 && wasHead == bmap[offset]
      requires idx >= 0 && idx + 1 == |Pack(Start, contents[..offset + 1])|
      modifies this`table, this`contents, bmap
      ensures Valid() && contents == old(contents)[offset := sc] && tableIdx == Rank(bmap[..], offset + 1) - 1
    {
      ghost var bits := bmap[..];
      tableIdx := idx;
      CompressionTarget(idx, offset, sc);
      RankPrefix(bits, bmap[..], offset);
      if bmap[offset] {
        if !wasHead {
          tableIdx := tableIdx + 1;
        }
      } else if wasHead {
        tableIdx := tableIdx - 1;
      }
    }

    /**
     * sc_dir_insert_lba_dp: link the lbas of this directory from start on, carrying the table index from one
     * offset to the next instead of counting from zero. Cursors are notified by the caller.
     */
    method InsertLbas(sc: Slot, lbas: seq<nat>, start: nat, unlink: bool, linked: array<int>, unlinked: array<int>)
      returns (next: nat, ghost os: seq<nat>)
      requires Valid() && Increasing(lbas) && start <= |lbas|
      requires linked != unlinked && Flat(linked, unlinked).Ok() && sc < linked.Length
      modifies this`table, this`contents, bmap, linked, unlinked
      ensures Valid() && next == start + |os| && IsOffsets(os, lbas, start, Base(idx, bmap.Length), bmap.Length)
      ensures next < |lbas| ==> lbas[next] / bmap.Length != idx
      ensures Flat(linked, unlinked) == old(Flat(linked, unlinked)).LinkAll(os, sc, unlink)
    {
      var from: nat, tableIdx := 0, -1;
      ghost var before, base := Flat(linked, unlinked), Base(idx, bmap.Length);
      next, os := start, [];
      while next < |lbas| && lbas[next] / bmap.Length == idx
        invariant next == start + |os| && Valid() && IsOffsets(os, lbas, start, base, bmap.Length)
        invariant from <= bmap.Length && tableIdx == Rank(bmap[..], from) - 1
        invariant from == NextFree(os)
        invariant Flat(linked, unlinked) == before.LinkAll(os, sc, unlink)
      {
        os, tableIdx := LinkRound(sc, lbas, start, next, from, tableIdx, unlink, linked, unlinked, os, before);
        from := lbas[next] % bmap.Length + 1;
        next := next + 1;
      }
    }

    /** The lba at next, which lies in this directory behind the ones already linked. */
    method LinkRound(sc: Slot, lbas: seq<nat>, start: nat, next: nat, from: nat, fromIdx: int, unlink: bool,
                     linked: array<int>, unlinked: array<int>, ghost os: seq<nat>, ghost before: Books)
      returns (ghost os': seq<nat>, tableIdx: int)
      requires Valid() && Increasing(lbas) && next == start + |os| && next < |lbas| && lbas[next] / bmap.Length == idx
      requires IsOffsets(os, lbas, start, Base(idx, bmap.Length), bmap.Length) && from == NextFree(os)
      requires from <= bmap.Length && fromIdx == Rank(bmap[..], from) - 1
      requires linked != unlinked && before.Ok() && sc < linked.Length == |before.linked|
      requires |before.owners| == bmap.Length
      requires Flat(linked, unlinked) == before.LinkAll(os, sc, unlink)
      modifies this`table, this`contents, bmap, linked, unlinked
      ensures Valid() && |os'| == |os| + 1 && IsOffsets(os', lbas, start, Base(idx, bmap.Length), bmap.Length)
      ensures NextFree(os') == lbas[next] % bmap.Length + 1 <= bmap.Length
      ensures tableIdx == Rank(bmap[..], NextFree(os')) - 1
      ensures Flat(linked, unlinked) == before.LinkAll(os', sc, unlink)
    {
      var offset := lbas[next] % bmap.Length;
      OffsetsStep(os, lbas, start, next, idx, bmap.Length, offset);
      os' := os + [offset];
      tableIdx := LinkNext(sc, offset, from, fromIdx, unlink, linked, unlinked);
    }

    ghost function Flat(linked: array<int>, unlinked: array<int>): Books
      reads this, linked, unlinked
    {
      Books(contents, linked[..], unlinked[..])
    }
  }
}
