/**
 * The shortcut: every lba's owning run, spread over directories, with the incremental cursors that the merge
 * uses for its lookups, the per-slot counters and the memory accounting
 * (algorithm/layeredLSM/shortcut.cpp and the cursor half of shortcut_dir.cpp).
 */
module ShortcutMaster {
  import opened Layout
  import opened ShortcutCodec
  import opened ShortcutDir

  /** sc_dir_dp */
  class Cursor {
    var prevOffset: nat
    var prevDirIdx: nat
    var prevTableIdx: int
    var reinit: bool

    constructor () {
      prevOffset, prevDirIdx, prevTableIdx, reinit := 0, 0, 0, false;
    }
  }

  function Sum(s: seq<int>): int {
    if s == [] then 0 else s[0] + Sum(s[1..])
  }

  lemma {:induction false} SumUpdate(s: seq<int>, i: nat, x: int)
    requires i < |s|
    ensures Sum(s[i := x]) == Sum(s) - s[i] + x
  {
    if i == 0 {
      assert s[i := x][1..] == s[1..];
    } else {
      assert s[i := x][1..] == s[1..][i - 1 := x];
      SumUpdate(s[1..], i - 1, x);
    }
  }

  lemma {:induction false} SumOnes(n: nat)
    ensures Sum(seq(n, _ => 1)) == n
  {
    if n > 0 {
      assert seq(n, _ => 1)[1..] == seq(n - 1, _ => 1);
      SumOnes(n - 1);
    }
  }

  // ----- one directory inside the whole

  /** The books of the directory that starts at base. */
  ghost function Window(b: Books, base: nat, per: nat): Books
    requires base + per <= |b.owners|
  {
    Books(Slice(b.owners, base, per), b.linked, b.unlinked)
  }

  /** Linking inside a directory is linking in the whole, seen through the directory's window. */
  lemma {:induction false} WindowLinkAll(b: Books, base: nat, per: nat, os: seq<nat>, ls: seq<nat>, sc: Slot,
                                         unlink: bool)
    requires b.Ok() && base + per <= |b.owners| && sc < |b.linked|
    requires |ls| == |os| && forall k :: 0 <= k < |os| ==> os[k] < per && ls[k] == base + os[k]
    ensures Window(b, base, per).Ok()
    ensures var b' := b.LinkAll(ls, sc, unlink);
            && Window(b', base, per) == Window(b, base, per).LinkAll(os, sc, unlink)
            && b'.owners[..base] == b.owners[..base] && b'.owners[base + per..] == b.owners[base + per..]
    decreases |os|
  {
    if os == [] {
      WindowOk(b, base, per);
    } else {
      var n := |os| - 1;
      WindowLinkAll(b, base, per, os[..n], ls[..n], sc, unlink);
      WindowLink(b.LinkAll(ls[..n], sc, unlink), base, per, os[n], ls[n], sc, unlink);
    }
  }

  lemma {:induction false} WindowLink(b: Books, base: nat, per: nat, o: nat, l: nat, sc: Slot, unlink: bool)
    requires b.Ok() && base + per <= |b.owners| && sc < |b.linked| && o < per && l == base + o
    ensures Window(b, base, per).Ok()
    ensures Window(b.Link(l, sc, unlink), base, per) == Window(b, base, per).Link(o, sc, unlink)
    ensures b.Link(l, sc, unlink).owners[..base] == b.owners[..base]
    ensures b.Link(l, sc, unlink).owners[base + per..] == b.owners[base + per..]
  {
    WindowOk(b, base, per);
    SliceStore(b.owners, base, per, l, sc);
  }

  lemma {:induction false} WindowOk(b: Books, base: nat, per: nat)
    requires b.Ok() && base + per <= |b.owners|
    ensures Window(b, base, per).Ok()
  {
  }

  lemma {:induction false} OwnerStored(b: Books, l: nat, sc: Slot)
    requires b.Ok() && l < |b.owners| && (sc < |b.linked| || sc == NOT_ASSIGNED)
    ensures b.(owners := b.owners[l := sc]).Ok()
  {
  }

  /** A change confined to the window of directory d leaves the other directories' slices alone. */
  lemma {:induction false} OtherSlice(owners: seq<Slot>, owners': seq<Slot>, per: nat, n: nat, d: nat, e: nat)
    requires |owners| == |owners'| == Base(n, per) && d < n && e < n && d != e && Base(d, per) + per <= |owners|
    requires owners[..Base(d, per)] == owners'[..Base(d, per)]
    requires owners[Base(d, per) + per..] == owners'[Base(d, per) + per..]
    ensures Base(e, per) + per <= |owners|
    ensures Slice(owners, Base(e, per), per) == Slice(owners', Base(e, per), per)
  {
    BaseOrder(e, n, per);
    var b, c := Base(e, per), Base(d, per);
    if e < d {
      BaseOrder(e, d, per);
    } else {
      BaseOrder(d, e, per);
    }
    forall i | b <= i < b + per ensures owners[i] == owners'[i] {
      if i < c {
        assert owners[..c][i] == owners'[..c][i];
      } else {
        assert owners[c + per..][i - c - per] == owners'[c + per..][i - c - per];
      }
    }
  }

  /** What a bulk link into directory d does to the whole: its window follows, every other slice stays. */
  lemma {:induction false} DirectoryLinkAll(b: Books, per: nat, n: nat, d: nat, os: seq<nat>, lbas: seq<nat>,
                                            start: nat,
                         sc: Slot, unlink: bool)
    requires b.Ok() && |b.owners| == Base(n, per) && d < n && sc < |b.linked|
    requires forall k :: 0 <= k < |lbas| ==> lbas[k] < |b.owners|
    requires IsOffsets(os, lbas, start, Base(d, per), per)
    ensures Base(d, per) + per <= |b.owners| && Window(b, Base(d, per), per).Ok()
    ensures var b' := b.LinkAll(lbas[start..start + |os|], sc, unlink);
            && Window(b', Base(d, per), per) == Window(b, Base(d, per), per).LinkAll(os, sc, unlink)
            && forall e :: 0 <= e < n && e != d ==>
                 Base(e, per) + per <= |b.owners| &&
                     Slice(b.owners, Base(e, per), per) == Slice(b'.owners, Base(e, per), per)
  {
    BaseOrder(d, n, per);
    var b' := b.LinkAll(lbas[start..start + |os|], sc, unlink);
    WindowLinkAll(b, Base(d, per), per, os, lbas[start..start + |os|], sc, unlink);
    forall e | 0 <= e < n && e != d
      ensures Base(e, per) + per <= |b.owners|
      ensures Slice(b.owners, Base(e, per), per) == Slice(b'.owners, Base(e, per), per)
    {
      OtherSlice(b.owners, b'.owners, per, n, d, e);
    }
  }

  lemma {:induction false} LinkAllConcat(b: Books, xs: seq<nat>, ys: seq<nat>, sc: Slot, unlink: bool)
    requires b.Ok() && sc < |b.linked|
    requires forall k :: 0 <= k < |xs| ==> xs[k] < |b.owners|
    requires forall k :: 0 <= k < |ys| ==> ys[k] < |b.owners|
    ensures forall k :: 0 <= k < |xs + ys| ==> (xs + ys)[k] < |b.owners|
    ensures b.LinkAll(xs + ys, sc, unlink) == b.LinkAll(xs, sc, unlink).LinkAll(ys, sc, unlink)
    decreases |ys|
  {
    if ys == [] {
      assert xs + ys == xs;
    } else {
      var n := |ys| - 1;
      LinkAllConcat(b, xs, ys[..n], sc, unlink);
      assert (xs + ys)[..|xs + ys| - 1] == xs + ys[..n];
    }
  }

  // ----- the cursor tree

  ghost predicate EachOnce(tree: seq<(nat, Cursor)>) {
    forall k, l :: 0 <= k < l < |tree| ==> tree[k].1 != tree[l].1
  }

  /** Taking out the only entry of a cursor. */
  lemma {:induction false} RemoveEntry(tree: seq<(nat, Cursor)>, k: nat)
    requires EachOnce(tree) && k < |tree|
    ensures var tree' := tree[..k] + tree[k + 1..];
            EachOnce(tree') && forall e :: e in tree' <==> e in tree && e.1 != tree[k].1
  {
    var tree' := tree[..k] + tree[k + 1..];
    forall e | e in tree && e.1 != tree[k].1 ensures e in tree' {
      var l :| 0 <= l < |tree| && tree[l] == e;
      assert e == tree'[if l < k then l else l - 1];
    }
  }

  /** Putting in an entry for a cursor that has none. */
  lemma {:induction false} AddEntry(tree: seq<(nat, Cursor)>, at: nat, e: (nat, Cursor))
    requires EachOnce(tree) && at <= |tree| && forall x :: x in tree ==> x.1 != e.1
    ensures var tree' := tree[..at] + [e] + tree[at..];
            EachOnce(tree') && forall x :: x in tree' <==> x in tree || x == e
  {
    var tree' := tree[..at] + [e] + tree[at..];
    assert tree == tree[..at] + tree[at..];
    forall k | 0 <= k < |tree| ensures tree[k] in tree {
    }
    assert tree'[at] == e;
  }

  method MakeDirectories(n: nat, perDir: nat) returns (ds: seq<Directory>)
    requires perDir > 0
    ensures |ds| == n && fresh(set d | d in ds) && fresh(set d | d in ds :: d.bmap)
    ensures forall i :: 0 <= i < n ==> ds[i].Valid() && ds[i].idx == i && ds[i].bmap.Length == perDir
    ensures forall i :: 0 <= i < n ==> |ds[i].table| == 1 && ds[i].contents == seq(perDir, _ => NOT_ASSIGNED)
    ensures forall i, j :: 0 <= i < j < n ==> ds[i] != ds[j] && ds[i].bmap != ds[j].bmap
  {
    ds := [];
    while |ds| < n
      invariant |ds| <= n && fresh(set d | d in ds) && fresh(set d | d in ds :: d.bmap)
      invariant forall i :: 0 <= i < |ds| ==> ds[i].Valid() && ds[i].idx == i && ds[i].bmap.Length == perDir
      invariant forall i :: 0 <= i < |ds| ==> |ds[i].table| == 1 && ds[i].contents == seq(perDir, _ => NOT_ASSIGNED)
      invariant forall i, j :: 0 <= i < j < |ds| ==> ds[i] != ds[j] && ds[i].bmap != ds[j].bmap
    {
      var d := new Directory(perDir, |ds|);
      ds := ds + [d];
    }
  }

  class Master {
    const perDir: nat
    const dirs: seq<Directory>
    const linked: array<int>
    const unlinked: array<int>
    /** dir_dp_tree: a multimap, in iteration order. */
    var tree: seq<(nat, Cursor)>
    var memoryUsage: int
    /** What the shortcut stands for: sc_map and the counters of the uncompressed build. */
    ghost var books: Books
    ghost var sizes: seq<int>

    ghost function Bitmaps(): set<object> {
      set d | d in dirs :: d.bmap
    }

    ghost function Cursors(): set<Cursor>
      reads this`tree
    {
      set e | e in tree :: e.1
    }

    ghost predicate Shape() {
      && perDir > 0 && linked != unlinked
      && (forall i :: 0 <= i < |dirs| ==> dirs[i].idx == i && dirs[i].bmap.Length == perDir)
      && (forall i, j :: 0 <= i < j < |dirs| ==> dirs[i] != dirs[j] && dirs[i].bmap != dirs[j].bmap)
    }

    ghost predicate DirOk(i: nat, owners: seq<Slot>, sizes: seq<int>)
      requires i < |dirs|
      reads dirs[i], dirs[i].bmap
    {
      && Base(i, perDir) + perDir <= |owners|
      && |sizes| == |dirs|
      && dirs[i].Valid()
      && dirs[i].contents == Slice(owners, Base(i, perDir), perDir)
      && sizes[i] == |dirs[i].table|
    }

    ghost predicate DirsOk(owners: seq<Slot>, sizes: seq<int>)
      reads dirs, Bitmaps()
    {
      && |owners| == Base(|dirs|, perDir)
      && forall i :: 0 <= i < |dirs| ==> DirOk(i, owners, sizes)
    }

    ghost predicate CountsOk()
      reads this`books, this`sizes, this`memoryUsage, linked, unlinked
    {
      books.Ok() && books.linked == linked[..] && books.unlinked == unlinked[..]
      && memoryUsage == 5 * Sum(sizes) + perDir * |dirs|
    }

    /** An unflagged cursor knows the table index of its offset. */
    ghost predicate CursorOk(key: nat, c: Cursor)
      reads c, dirs, Bitmaps()
    {
      && key == c.prevDirIdx < |dirs|
      && c.prevOffset < perDir == dirs[key].bmap.Length
      && (!c.reinit ==> c.prevTableIdx == Rank(dirs[key].bmap[..], c.prevOffset + 1) - 1)
    }

    ghost predicate CursorsOk()
      reads this`tree, Cursors(), dirs, Bitmaps()
    {
      EachOnce(tree) && forall e :: e in tree ==> CursorOk(e.0, e.1)
    }

    ghost predicate Valid()
      reads this, Cursors(), dirs, Bitmaps(), linked, unlinked
    {
      Shape() && DirsOk(books.owners, sizes) && CountsOk() && CursorsOk()
    }

    /** shortcut_init: n directories, every lba unassigned, every counter zero. */
    constructor (n: nat, perDir: nat, slots: nat)
      requires perDir > 0 && slots <= NOT_ASSIGNED
      ensures Valid() && tree == [] && |dirs| == n && this.perDir == perDir
      ensures books == Books(seq(Base(n, perDir), _ => NOT_ASSIGNED), seq(slots, _ => 0), seq(slots, _ => 0))
    {
      var ds := MakeDirectories(n, perDir);
      this.perDir, dirs, tree, memoryUsage := perDir, ds, [], n * (5 + perDir);
      linked := new int[slots](_ => 0);
      unlinked := new int[slots](_ => 0);
      books := Books(seq(Base(n, perDir), _ => NOT_ASSIGNED), seq(slots, _ => 0), seq(slots, _ => 0));
      sizes := seq(n, _ => 1);
      new;
      SumOnes(n);
      forall i | 0 <= i < n ensures DirOk(i, books.owners, sizes) {
        BaseOrder(i, n, perDir);
      }
    }

    // ----- notification of cursors

    /** multimap find: the first entry with the key, or the end. */
    method Find(key: nat) returns (k: nat)
      ensures k <= |tree| && (forall l :: 0 <= l < k ==> tree[l].0 != key) && (k < |tree| ==> tree[k].0 == key)
    {
      k := 0;
      while k < |tree| && tree[k].0 != key
        invariant k <= |tree| && forall l :: 0 <= l < k ==> tree[l].0 != key
      {
        k := k + 1;
      }
    }

    /**
     * The flagging loop at the end of both inserts: from the first cursor of the directory to the end of the
     * tree, every cursor at or after the given offset must start over.
     */
    method Flag(key: nat, offset: nat)
      modifies Cursors()`reinit
      ensures forall e :: e in tree ==> (old(e.1.reinit) ==> e.1.reinit)
      ensures forall e :: e in tree && e.0 == key && e.1.prevOffset >= offset ==> e.1.reinit
    {
      var k := Find(key);
      ghost var first := k;
      while k < |tree|
        invariant first <= k <= |tree|
        invariant forall e :: e in tree ==> (old(e.1.reinit) ==> e.1.reinit)
        invariant forall l :: first <= l < k && tree[l].1.prevOffset >= offset ==> tree[l].1.reinit
      {
        if tree[k].1.prevOffset >= offset {
          tree[k].1.reinit := true;
        }
        k := k + 1;
      }
    }

    /** A cursor before the first changed bit keeps its table index. */
    lemma {:induction false} CursorKept(key: nat, c: Cursor, bits: seq<bool>, offset: nat)
      requires key < |dirs| && |bits| == dirs[key].bmap.Length == perDir && offset <= perDir
      requires forall i :: 0 <= i < offset ==> bits[i] == dirs[key].bmap[i]
      requires c.prevOffset < offset && c.prevDirIdx == key
      requires !c.reinit ==> c.prevTableIdx == Rank(bits, c.prevOffset + 1) - 1
      ensures CursorOk(key, c)
    {
      RankPrefix(bits, dirs[key].bmap[..], c.prevOffset + 1);
    }

    // ----- link, unlink, query

    /** sc_dir_insert_lba inside its directory, with the memory accounting around it. */
    method StoreOwner(d: nat, o: nat, sc: Slot)
      requires Shape() && DirsOk(books.owners, sizes) && CountsOk() && d < |dirs| && o < perDir
      requires Base(d, perDir) + o < |books.owners| && (sc < linked.Length || sc == NOT_ASSIGNED)
      modifies this`memoryUsage, this`books, this`sizes, dirs[d], dirs[d].bmap
      ensures DirsOk(books.owners, sizes) && CountsOk()
      ensures books == old(books).(owners := old(books).owners[Base(d, perDir) + o := sc])
      ensures forall i :: 0 <= i < o ==> dirs[d].bmap[i] == old(dirs[d].bmap[i])
    {
      ghost var owners, b' := InsertOwner(d, o, sc);
      DirsAgain(d, owners, b'.owners);
      SumUpdate(sizes, d, |dirs[d].table|);
      sizes, books := sizes[d := |dirs[d].table|], b';
    }

    method InsertOwner(d: nat, o: nat, sc: Slot) returns (ghost owners: seq<Slot>, ghost b': Books)
      requires Shape() && DirsOk(books.owners, sizes) && CountsOk() && d < |dirs| && o < perDir
      requires Base(d, perDir) + o < |books.owners| && (sc < linked.Length || sc == NOT_ASSIGNED)
      modifies this`memoryUsage, dirs[d], dirs[d].bmap
      ensures owners == books.owners && b' == books.(owners := owners[Base(d, perDir) + o := sc])
      ensures b'.Ok() && b'.linked == linked[..] && b'.unlinked == unlinked[..] && |b'.owners| == |owners|
      ensures memoryUsage == old(memoryUsage) + 5 * |dirs[d].table| - 5 * old(|dirs[d].table|)
      ensures |sizes| == |dirs| && sizes[d] == old(|dirs[d].table|)
      ensures OthersKeep(d, owners, b'.owners)
      ensures dirs[d].Valid() && Base(d, perDir) + perDir <= |b'.owners|
      ensures dirs[d].contents == Slice(b'.owners, Base(d, perDir), perDir)
      ensures forall i :: 0 <= i < o ==> dirs[d].bmap[i] == old(dirs[d].bmap[i])
    {
      owners, b' := books.owners, books.(owners := books.owners[Base(d, perDir) + o := sc]);
      OwnerStored(books, Base(d, perDir) + o, sc);
      assert DirOk(d, books.owners, sizes);
      memoryUsage := memoryUsage - (|dirs[d].table| * 5 + perDir);
      dirs[d].InsertLba(o, sc);
      memoryUsage := memoryUsage + (|dirs[d].table| * 5 + perDir);
      forall i | 0 <= i < |dirs| && i != d ensures Kept(i, owners, b'.owners) {
        assert old(DirOk(i, books.owners, sizes));
        SliceOfOther(owners, perDir, |dirs|, d, o, i, sc);
      }
      SliceOfOther(owners, perDir, |dirs|, d, o, d, sc);
    }

    /** sc_dir_insert_lba at the directory of lba: store the owner, then notify the cursors. */
    method InsertLba(lba: nat, sc: Slot)
      requires Valid() && lba < |books.owners| && (sc < linked.Length || sc == NOT_ASSIGNED)
      modifies this`memoryUsage, this`books, this`sizes, dirs, Bitmaps(), Cursors()`reinit
      ensures Valid() && books == old(books).(owners := old(books).owners[lba := sc])
    {
      Locate(lba, perDir, |dirs|);
      var d, o := lba / perDir, lba % perDir;
      ghost var bits := dirs[d].bmap[..];
      StoreOwner(d, o, sc);
      Flag(d, o);
      forall e | e in tree ensures CursorOk(e.0, e.1) {
        assert old(CursorOk(e.0, e.1));
        if e.0 == d && !e.1.reinit {
          CursorKept(d, e.1, bits, o);
        }
      }
    }

    /** shortcut_link_lba */
    method LinkLba(lba: nat, sc: Slot)
      requires Valid() && lba < |books.owners| && sc < linked.Length
      modifies this`memoryUsage, this`books, this`sizes, dirs, Bitmaps(), Cursors()`reinit, linked
      ensures Valid() && books == old(books).Link(lba, sc, false)
    {
      linked[sc] := linked[sc] + 1;
      books := books.(linked := linked[..]);
      InsertLba(lba, sc);
    }

    /**
     * shortcut_unlink_lba of this build: its test of the owner guards an empty statement, so it never returns early.
     */
    method UnlinkLba(lba: nat, sc: Slot)
      requires Valid() && lba < |books.owners| && sc < unlinked.Length
      modifies this`memoryUsage, this`books, this`sizes, dirs, Bitmaps(), Cursors()`reinit, unlinked
      ensures Valid() && books == old(books).Unlink(lba, sc)
    {
      unlinked[sc] := unlinked[sc] + 1;
      books := books.(unlinked := unlinked[..]);
      InsertLba(lba, NOT_ASSIGNED);
    }

    /** shortcut_query, up to the run behind the slot. */
    method Query(lba: nat) returns (sc: Slot)
      requires Valid() && lba < |books.owners|
      ensures sc == books.owners[lba]
    {
      Locate(lba, perDir, |dirs|);
      assert DirOk(lba / perDir, books.owners, sizes);
      sc := dirs[lba / perDir].QueryLba(lba % perDir);
    }

    // ----- cursors

    ghost predicate Registered(c: Cursor)
      reads this`tree
    {
      c in Cursors()
    }

    /** Where dp stands in the tree, searched from the first entry of its own directory on. */
    method Position(dp: Cursor) returns (k: nat)
      requires CursorsOk()
      ensures k <= |tree| && (k < |tree| <==> Registered(dp)) && (k < |tree| ==> tree[k].1 == dp)
    {
      k := Find(dp.prevDirIdx);
      ghost var first := k;
      while k < |tree| && tree[k].1 != dp
        invariant first <= k <= |tree|
        invariant forall l :: 0 <= l < k ==> tree[l].1 != dp
      {
        k := k + 1;
      }
    }

    /** multimap erase: drop dp's entry, if it has one. */
    method Unregister(dp: Cursor)
      requires CursorsOk()
      modifies this`tree
      ensures EachOnce(tree) && forall e :: e in tree <==> e in old(tree) && e.1 != dp
    {
      var k := Position(dp);
      if k < |tree| {
        RemoveEntry(tree, k);
        tree := tree[..k] + tree[k + 1..];
      }
    }

    /** multimap insert: after the entries with the same key. */
    method Register(d: nat, dp: Cursor)
      requires EachOnce(tree) && forall e :: e in tree ==> e.1 != dp
      modifies this`tree
      ensures EachOnce(tree) && forall e :: e in tree <==> e in old(tree) || e == (d, dp)
    {
      var at := 0;
      while at < |tree| && tree[at].0 <= d
        invariant at <= |tree|
      {
        at := at + 1;
      }
      AddEntry(tree, at, (d, dp));
      tree := tree[..at] + [(d, dp)] + tree[at..];
    }

    /** The field assignments of dp_reinit. */
    method Reset(dp: Cursor, d: nat)
      requires Shape() && d < |dirs|
      modifies dp
      ensures CursorOk(d, dp) && dp.prevOffset == 0 && !dp.reinit
    {
      dp.prevOffset := 0;
      dp.prevTableIdx := -1;
      dp.reinit := false;
      if dirs[d].bmap[0] {
        dp.prevTableIdx := dp.prevTableIdx + 1;
      }
      dp.prevDirIdx := d;
    }

    /** dp_reinit: start over at the head of directory d, and re-register under it. */
    method Reinit(dp: Cursor, d: nat)
      requires Valid() && d < |dirs|
      modifies this`tree, dp
      ensures Valid() && (d, dp) in tree && Cursors() == old(Cursors()) + {dp}
      ensures dp.prevDirIdx == d && dp.prevOffset == 0 && !dp.reinit
    {
      Unregister(dp);
      Reset(dp, d);
      Register(d, dp);
    }

    /** The counting loop of sc_dir_dp_get_sc. */
    method Advance(dp: Cursor, o: nat) returns (sc: Slot)
      requires Shape() && DirsOk(books.owners, sizes) && CursorOk(dp.prevDirIdx, dp)
      requires !dp.reinit && dp.prevOffset <= o < perDir
      modifies dp
      ensures CursorOk(dp.prevDirIdx, dp) && dp.prevDirIdx == old(dp.prevDirIdx)
      ensures |dirs[dp.prevDirIdx].contents| == perDir
      ensures sc == dirs[dp.prevDirIdx].contents[o]
    {
      var dir := dirs[dp.prevDirIdx];
      assert DirOk(dp.prevDirIdx, books.owners, sizes);
      var idx;
      idx, sc := dir.OwnerFrom(dp.prevOffset + 1, o, dp.prevTableIdx);
      dp.prevTableIdx, dp.prevOffset := idx, o;
    }

    /** Start over unless the cursor can continue to offset o of directory d. */
    method Aim(dp: Cursor, d: nat, o: nat)
      requires Valid() && Registered(dp) && d < |dirs| && o < perDir
      modifies this`tree, dp
      ensures Valid() && (d, dp) in tree && Cursors() == old(Cursors())
      ensures !dp.reinit && dp.prevOffset <= o
    {
      ghost var e :| e in tree && e.1 == dp;
      assert CursorOk(e.0, dp);
      if dp.reinit || d != dp.prevDirIdx || dp.prevOffset > o {
        Reinit(dp, d);
      }
    }

    /**
     * sc_dir_dp_get_sc: continue from the last offset when the cursor may, start over otherwise. The answer is
     * the one of a plain query.
     */
    method GetSc(dp: Cursor, lba: nat) returns (sc: Slot)
      requires Valid() && Registered(dp) && lba < |books.owners|
      modifies this`tree, dp
      ensures Valid() && Registered(dp) && Cursors() == old(Cursors())
      ensures sc == books.owners[lba]
    {
      Locate(lba, perDir, |dirs|);
      var d, o := lba / perDir, lba % perDir;
      assert DirOk(d, books.owners, sizes);
      ghost var want := books.owners[lba];
      assert dirs[d].contents[o] == want;
      Aim(dp, d, o);
      assert CursorOk(d, dp);
      sc := Advance(dp, o);
      assert forall e :: e in tree && e.1 == dp ==> e == (d, dp);
    }

    // ----- bulk link

    /** The lbas of one directory, from start on, with the memory accounting around sc_dir_insert_lba_dp. */
    method StoreOwners(d: nat, lbas: seq<nat>, start: nat, sc: Slot, unlink: bool) returns (next: nat)
      requires Shape() && DirsOk(books.owners, sizes) && CountsOk() && d < |dirs| && sc < linked.Length
      requires Increasing(lbas) && start < |lbas| && lbas[start] / perDir == d
      requires forall k :: 0 <= k < |lbas| ==> lbas[k] < |books.owners|
      modifies this`memoryUsage, this`books, this`sizes, dirs[d], dirs[d].bmap, linked, unlinked
      ensures DirsOk(books.owners, sizes) && CountsOk() && start < next <= |lbas|
      ensures books == old(books).LinkAll(lbas[start..next], sc, unlink)
    {
      ghost var b, b';
      next, b, b' := InsertDir(d, lbas, start, sc, unlink);
      DirsAgain(d, b.owners, b'.owners);
      SumUpdate(sizes, d, |dirs[d].table|);
      sizes, books := sizes[d := |dirs[d].table|], b';
    }

    /** The directories other than d stand for their slices of the owners, which did not change. */
    ghost predicate OthersKeep(d: nat, owners: seq<Slot>, owners': seq<Slot>)
      reads this`sizes, dirs, Bitmaps()
    {
      forall i {:trigger Kept(i, owners, owners')} :: 0 <= i < |dirs| && i != d ==> Kept(i, owners, owners')
    }

    ghost predicate Kept(i: nat, owners: seq<Slot>, owners': seq<Slot>)
      requires i < |dirs|
      reads this`sizes, dirs[i], dirs[i].bmap
    {
      && DirOk(i, owners, sizes) && |owners'| == |owners|
      && Slice(owners, Base(i, perDir), perDir) == Slice(owners', Base(i, perDir), perDir)
    }

    /** One directory has its new slice of the owners, the others keep theirs. */
    lemma {:induction false} DirsAgain(d: nat, owners: seq<Slot>, owners': seq<Slot>)
      requires d < |dirs| && |owners'| == |owners| == Base(|dirs|, perDir) && |sizes| == |dirs|
      requires OthersKeep(d, owners, owners')
      requires dirs[d].Valid() && Base(d, perDir) + perDir <= |owners'|
      requires dirs[d].contents == Slice(owners', Base(d, perDir), perDir)
      ensures DirsOk(owners', sizes[d := |dirs[d].table|])
    {
      var sizes' := sizes[d := |dirs[d].table|];
      forall i | 0 <= i < |dirs| ensures DirOk(i, owners', sizes') {
        if i != d {
          assert Kept(i, owners, owners');
        }
      }
    }

    /** sc_dir_insert_lba_dp in its directory, with the memory accounting around it; b' are the books afterwards. */
    method InsertDir(d: nat, lbas: seq<nat>, start: nat, sc: Slot, unlink: bool)
      returns (next: nat, ghost b: Books, ghost b': Books)
      requires Shape() && d < |dirs| && DirsOk(books.owners, sizes) && CountsOk() && sc < linked.Length
      requires Increasing(lbas) && start < |lbas| && lbas[start] / perDir == d
      requires forall k :: 0 <= k < |lbas| ==> lbas[k] < |books.owners|
      modifies this`memoryUsage, dirs[d], dirs[d].bmap, linked, unlinked
      ensures b == books && start < next <= |lbas| && b' == b.LinkAll(lbas[start..next], sc, unlink)
      ensures b'.Ok() && b'.linked == linked[..] && b'.unlinked == unlinked[..] && |b'.owners| == |b.owners|
      ensures memoryUsage == old(memoryUsage) + 5 * |dirs[d].table| - 5 * old(|dirs[d].table|)
      ensures |sizes| == |dirs| && sizes[d] == old(|dirs[d].table|)
      ensures OthersKeep(d, b.owners, b'.owners)
      ensures dirs[d].Valid() && Base(d, perDir) + perDir <= |b'.owners|
      ensures dirs[d].contents == Slice(b'.owners, Base(d, perDir), perDir)
    {
      b := books;
      ghost var os;
      assert DirOk(d, books.owners, sizes);
      WindowOk(books, Base(d, perDir), perDir);
      memoryUsage := memoryUsage - (|dirs[d].table| * 5 + perDir);
      next, os := dirs[d].InsertLbas(sc, lbas, start, unlink, linked, unlinked);
      memoryUsage := memoryUsage + (|dirs[d].table| * 5 + perDir);
      DirectoryLinkAll(b, perDir, |dirs|, d, os, lbas, start, sc, unlink);
      b' := b.LinkAll(lbas[start..next], sc, unlink);
      forall i | 0 <= i < |dirs| && i != d ensures Kept(i, b.owners, b'.owners) {
        assert old(DirOk(i, books.owners, sizes));
      }
    }

    /** One round of the loop of shortcut_link_bulk_lba: every cursor of the directory must start over. */
    method BulkRound(lbas: seq<nat>, start: nat, sc: Slot, unlink: bool) returns (next: nat)
      requires Valid() && sc < linked.Length && Increasing(lbas) && start < |lbas|
      requires forall k :: 0 <= k < |lbas| ==> lbas[k] < |books.owners|
      modifies this`memoryUsage, this`books, this`sizes, dirs, Bitmaps(), linked, unlinked, Cursors()`reinit
      ensures Valid() && start < next <= |lbas|
      ensures books == old(books).LinkAll(lbas[start..next], sc, unlink)
    {
      var d := lbas[start] / perDir;
      Locate(lbas[start], perDir, |dirs|);
      next := StoreOwners(d, lbas, start, sc, unlink);
      Flag(d, 0);
      forall e | e in tree ensures CursorOk(e.0, e.1) {
        assert old(CursorOk(e.0, e.1));
      }
    }

    /** shortcut_link_bulk_lba */
    method LinkBulk(lbas: seq<nat>, sc: Slot, unlink: bool)
      requires Valid() && sc < linked.Length && lbas != [] && Increasing(lbas)
      requires forall k :: 0 <= k < |lbas| ==> lbas[k] < |books.owners|
      modifies this`memoryUsage, this`books, this`sizes, dirs, Bitmaps(), linked, unlinked, Cursors()`reinit
      ensures Valid() && books == old(books).LinkAll(lbas, sc, unlink)
    {
      var idx := 0;
      while true
        invariant Valid() && idx < |lbas| && |books.owners| == |old(books).owners|
        invariant books == old(books).LinkAll(lbas[..idx], sc, unlink)
        decreases |lbas| - idx
      {
        ghost var was := idx;
        idx := BulkRound(lbas, idx, sc, unlink);
        LinkAllConcat(old(books), lbas[..was], lbas[was..idx], sc, unlink);
        assert lbas[..was] + lbas[was..idx] == lbas[..idx];
        if idx == |lbas| {
          assert lbas[..idx] == lbas;
          break;
        }
      }
    }

    // ----- life of a cursor

    /** sc_dir_dp_init: a zeroed cursor, then dp_reinit. */
    method NewCursor(lba: nat) returns (dp: Cursor)
      requires Valid() && lba < |books.owners|
      modifies this`tree
      ensures Valid() && fresh(dp) && Cursors() == old(Cursors()) + {dp}
    {
      Locate(lba, perDir, |dirs|);
      dp := new Cursor();
      Reinit(dp, lba / perDir);
    }

    /** sc_dir_dp_free */
    method FreeCursor(dp: Cursor)
      requires Valid() && Registered(dp)
      modifies this`tree
      ensures Valid() && Cursors() == old(Cursors()) - {dp}
    {
      Unregister(dp);
    }

    /**
     * shortcut_validity_check_and_link: link lba to des when its owner is absent, compacting, or not newer than src.
     */
    method CheckAndLink(infos: seq<Info>, src: Slot, des: Slot, lba: nat) returns (res: bool)
      requires Valid() && lba < |books.owners| && |infos| == linked.Length && src < |infos| && des < |infos|
      modifies this`memoryUsage, this`books, this`sizes, dirs, Bitmaps(), Cursors()`reinit, linked, unlinked
      ensures Valid() && res == MayTake(infos, old(books).owners[lba], src)
      ensures books == if !res then old(books)
                       else old(books).Link(lba, des,
                           old(books).owners[lba] != NOT_ASSIGNED && infos[old(books).owners[lba]].hasRun)
    {
      var info := Query(lba);
      res := info == NOT_ASSIGNED;
      if !res {
        if infos[info].compacting {
          res := true;
        } else if RecencyCmp(infos[info], infos[src]) <= 0 {
          res := true;
        }
      }
      if res {
        if info != NOT_ASSIGNED && infos[info].hasRun {
          UnlinkLba(lba, info);
        }
        LinkLba(lba, des);
      }
    }

    /**
     * The shortcut's part of trivial_move: every lba of a block that changes hands is checked with a cursor of its own;
     * those that no newer run owns are linked to des, the others are only counted as unlinked at des.
     */
    method WholeMove(infos: seq<Info>, src: Slot, des: Slot, lbas: seq<nat>)
      requires Valid() && |infos| == linked.Length && src < |infos| && des < |infos|
      requires Increasing(lbas) && lbas != [] && forall k :: 0 <= k < |lbas| ==> lbas[k] < |books.owners|
      requires OwnerNotNewer(books.owners[lbas[0]], infos, src)
      modifies this`memoryUsage, this`books, this`sizes, this`tree, dirs, Bitmaps(), linked, unlinked, Cursors()
      ensures Valid() && Cursors() == old(Cursors()) && books == MovedWhole(old(books), infos, src, des, lbas)
    {
      var dp := NewCursor(lbas[0]);
      LinkKept(infos, src, des, lbas, dp);
      FreeCursor(dp);
    }

    /** Checks the lbas of the block and links those that pass. */
    method LinkKept(infos: seq<Info>, src: Slot, des: Slot, lbas: seq<nat>, dp: Cursor)
      requires Valid() && |infos| == linked.Length && src < |infos| && des < |infos| && Registered(dp)
      requires Increasing(lbas) && lbas != [] && forall k :: 0 <= k < |lbas| ==> lbas[k] < |books.owners|
      requires OwnerNotNewer(books.owners[lbas[0]], infos, src)
      modifies this`memoryUsage, this`books, this`sizes, this`tree, dirs, Bitmaps(), linked, unlinked, Cursors()
      ensures Valid() && Cursors() == old(Cursors()) && books == MovedWhole(old(books), infos, src, des, lbas)
    {
      KeptIsIncreasing(books.owners, infos, src, lbas);
      var keep := Sift(infos, src, des, lbas, dp);
      LinkBulk(keep, des, true);
    }

    /** The checking loop of trivial_move. */
    method Sift(infos: seq<Info>, src: Slot, des: Slot, lbas: seq<nat>, dp: Cursor) returns (keep: seq<nat>)
      requires Valid() && |infos| == linked.Length && src < |infos| && des < |infos| && Registered(dp)
      requires forall k :: 0 <= k < |lbas| ==> lbas[k] < |books.owners|
      modifies this`books, this`tree, unlinked, dp
      ensures Valid() && Registered(dp) && Cursors() == old(Cursors())
      ensures keep == KeptOf(old(books).owners, infos, src, lbas)
      ensures books == old(books).Charge(des, |lbas| - |keep|)
    {
      keep := [];
      ghost var before, stale := books, 0;
      for i := 0 to |lbas|
        invariant Valid() && Registered(dp) && Cursors() == old(Cursors())
        invariant keep == KeptOf(before.owners, infos, src, lbas[..i])
        invariant stale >= 0 && |keep| + stale == i && books == before.Charge(des, stale)
      {
        KeptNext(before.owners, infos, src, lbas, i);
        var kept := SiftOne(infos, src, des, lbas[i], dp);
        if kept {
          keep := keep + [lbas[i]];
        } else {
          ChargeMore(before, des, stale);
          stale := stale + 1;
        }
      }
      assert lbas[..|lbas|] == lbas;
    }

    method SiftOne(infos: seq<Info>, src: Slot, des: Slot, lba: nat, dp: Cursor) returns (kept: bool)
      requires Valid() && |infos| == linked.Length && src < |infos| && des < |infos| && Registered(dp)
      requires lba < |books.owners|
      modifies this`books, this`tree, unlinked, dp
      ensures Valid() && Registered(dp) && Cursors() == old(Cursors())
      ensures kept == OwnerNotNewer(old(books).owners[lba], infos, src)
      ensures books == if kept then old(books) else old(books).Charge(des, 1)
    {
      var sc := GetSc(dp, lba);
      kept := OwnerNotNewer(sc, infos, src);
      if !kept {
        ChargeOne(des);
      }
    }

    method ChargeOne(des: Slot)
      requires Valid() && des < unlinked.Length
      modifies this`books, unlinked
      ensures Valid() && books == old(books).Charge(des, 1)
    {
      unlinked[des] := unlinked[des] + 1;
      books := books.Charge(des, 1);
    }

    /** The counters of shortcut_release_sc_info. */
    method Release(sc: Slot)
      requires Valid() && sc < linked.Length
      modifies this`books, linked, unlinked
      ensures Valid() && books == old(books).Release(sc)
    {
      linked[sc] := 0;
      unlinked[sc] := 0;
      books := books.Release(sc);
    }
  }

  /** The part of shortcut_info that decides validity. */
  datatype Info = Info(level: nat, recency: nat, compacting: bool, hasRun: bool)

  /** __get_recency_cmp: positive when a is newer than b; a smaller level is newer, then a larger recency. */
  function RecencyCmp(a: Info, b: Info): int {
    if a.level < b.level then 1 else if a.level > b.level then -1 else a.recency - b.recency
  }

  /** shortcut_validity_check_lba */
  predicate OwnerNotNewer(owner: Slot, infos: seq<Info>, slot: Slot)
    requires slot < |infos| && (owner < |infos| || owner == NOT_ASSIGNED)
  {
    owner == NOT_ASSIGNED || owner >= |infos| || RecencyCmp(infos[owner], infos[slot]) <= 0
  }

  /** The test of shortcut_validity_check_and_link. */
  predicate MayTake(infos: seq<Info>, owner: Slot, src: Slot)
    requires src < |infos| && (owner < |infos| || owner == NOT_ASSIGNED)
  {
    owner == NOT_ASSIGNED || owner >= |infos| || infos[owner].compacting || RecencyCmp(infos[owner], infos[src]) <= 0
  }

  /** The lbas that no run newer than src owns. */
  ghost function KeptOf(owners: seq<Slot>, infos: seq<Info>, src: Slot, lbas: seq<nat>): (keep: seq<nat>)
    requires src < |infos| && (forall k :: 0 <= k < |lbas| ==> lbas[k] < |owners|)
    requires forall l :: 0 <= l < |owners| ==> owners[l] < |infos| || owners[l] == NOT_ASSIGNED
    ensures |keep| <= |lbas| && forall k :: 0 <= k < |keep| ==> keep[k] < |owners|
    decreases |lbas|
  {
    if lbas == [] then []
    else
      var n := |lbas| - 1;
      KeptOf(owners, infos, src, lbas[..n]) + if OwnerNotNewer(owners[lbas[n]], infos, src) then [lbas[n]] else []
  }

  lemma {:induction false} KeptNext(owners: seq<Slot>, infos: seq<Info>, src: Slot, lbas: seq<nat>, i: nat)
    requires i < |lbas| && src < |infos| && (forall k :: 0 <= k < |lbas| ==> lbas[k] < |owners|)
    requires forall l :: 0 <= l < |owners| ==> owners[l] < |infos| || owners[l] == NOT_ASSIGNED
    ensures KeptOf(owners, infos, src, lbas[..i + 1])
            == KeptOf(owners, infos, src, lbas[..i]) +
                if OwnerNotNewer(owners[lbas[i]], infos, src) then [lbas[i]] else []
  {
    assert lbas[..i + 1][..i] == lbas[..i];
  }

  lemma {:induction false} ChargeMore(b: Books, sc: Slot, n: nat)
    requires b.Ok() && sc < |b.unlinked|
    ensures b.Charge(sc, n).Charge(sc, 1) == b.Charge(sc, n + 1)
  {
  }

  /** What is kept is in order, and an lba is kept exactly when no newer run owns it. */
  lemma {:induction false} KeptIsIncreasing(owners: seq<Slot>, infos: seq<Info>, src: Slot, lbas: seq<nat>)
    requires src < |infos| && Increasing(lbas) && (forall k :: 0 <= k < |lbas| ==> lbas[k] < |owners|)
    requires forall l :: 0 <= l < |owners| ==> owners[l] < |infos| || owners[l] == NOT_ASSIGNED
    ensures Increasing(KeptOf(owners, infos, src, lbas))
    ensures forall l :: l in KeptOf(owners, infos, src, lbas) <==> l in lbas && OwnerNotNewer(owners[l], infos, src)
    ensures lbas != [] && OwnerNotNewer(owners[lbas[0]], infos, src) ==> KeptOf(owners, infos, src, lbas) != []
    decreases |lbas|
  {
    if lbas != [] {
      var n := |lbas| - 1;
      KeptIsIncreasing(owners, infos, src, lbas[..n]);
      assert lbas == lbas[..n] + [lbas[n]];
      var keep := KeptOf(owners, infos, src, lbas[..n]);
      forall k | 0 <= k < |keep| ensures keep[k] < lbas[n] {
        assert keep[k] in lbas[..n];
      }
      if OwnerNotNewer(owners[lbas[0]], infos, src) {
        assert lbas[0] in lbas;
      }
    }
  }

  /** The books after a block of lbas moved whole from src to des. */
  ghost function MovedWhole(b: Books, infos: seq<Info>, src: Slot, des: Slot, lbas: seq<nat>): (b': Books)
    requires b.Ok() && |infos| == |b.linked| && src < |infos| && des < |infos|
    requires forall k :: 0 <= k < |lbas| ==> lbas[k] < |b.owners|
    ensures b'.Ok() && |b'.owners| == |b.owners| && |b'.linked| == |b.linked|
  {
    var keep := KeptOf(b.owners, infos, src, lbas);
    b.Charge(des, |lbas| - |keep|).LinkAll(keep, des, true)
  }
}
