/**
 * What the page-level FTL keeps on and about the flash, as one value: the mapping table, the valid bits, the
 * out-of-band reverse map and the stored data, all by piece (a page is L2PGAP pieces). The lemmas say what the
 * write path (algorithm/Page_ftl/map.c:21-42) and garbage collection (algorithm/Page_ftl/gc.c:121-195) do to it.
 */
module FlashMap {
  import opened Layout

  datatype Value = Value(data: int)

  datatype Found = NotFound | Hit(value: Value)

  datatype Nand = Nand(mapping: seq<Addr>, bits: seq<bool>, oob: seq<nat>, flash: seq<Value>)
  {
    ghost predicate Sized() {
      |bits| == |oob| == |flash|
    }

    /** Outside [lo, hi): mapped pieces are valid and name their lba, valid pieces are mapped. */
    ghost predicate ConsistentOutside(lo: nat, hi: nat) {
      && Sized()
      && (forall l :: 0 <= l < |mapping| && mapping[l].At? ==>
            var p := mapping[l].piece; p < |bits| && bits[p] && oob[p] == l && !(lo <= p < hi))
      && (forall p :: 0 <= p < |bits| && bits[p] && !(lo <= p < hi) ==>
            oob[p] < |mapping| && mapping[oob[p]] == At(p))
    }

    /** Between operations: a valid bit is set exactly when one lba maps to the piece, and the OOB names it. */
    ghost predicate Consistent() {
      ConsistentOutside(0, 0)
    }

    /** What a read of l that misses the write buffer finds. */
    ghost function Lookup(l: nat): Found
      requires Consistent() && l < |mapping|
    {
      if mapping[l].At? then Hit(flash[mapping[l].piece]) else NotFound
    }
  }

  ghost predicate DistinctKeys(keys: seq<nat>, range: nat) {
    && (forall i :: 0 <= i < |keys| ==> keys[i] < range)
    && forall i, j :: 0 <= i < j < |keys| ==> keys[i] != keys[j]
  }

  // ----- elementary steps

  /** validate_ppa: the pieces of a page become valid and the OOB names their lbas. */
  ghost predicate Validated(n: Nand, n': Nand, base: nat, keys: seq<nat>) {
    && n.Sized() && n'.Sized() && base + |keys| <= |n.bits| == |n'.bits|
    && n'.mapping == n.mapping && n'.flash == n.flash
    && (forall p :: base <= p < base + |keys| ==> n'.bits[p] && n'.oob[p] == keys[p - base])
    && (forall p :: 0 <= p < |n.bits| && !(base <= p < base + |keys|) ==>
        n'.bits[p] == n.bits[p] && n'.oob[p] == n.oob[p])
  }

  /** The device write of a page. */
  ghost predicate Programmed(n: Nand, n': Nand, base: nat, vals: seq<Value>) {
    && n.Sized() && n'.Sized() && base + |vals| <= |n.flash|
    && n'.mapping == n.mapping && n'.bits == n.bits && n'.oob == n.oob
    && (forall p :: base <= p < base + |vals| ==> n'.flash[p] == vals[p - base])
    && (forall p :: 0 <= p < |n.flash| && !(base <= p < base + |vals|) ==> n'.flash[p] == n.flash[p])
  }

  /** trim_segment: valid bits and OOB of the segment are zeroed. */
  ghost predicate Erased(n: Nand, n': Nand, base: nat, size: nat) {
    && n.Sized() && n'.Sized() && base + size <= |n.bits| == |n'.bits|
    && n'.mapping == n.mapping && n'.flash == n.flash
    && (forall p :: base <= p < base + size ==> !n'.bits[p])
    && (forall p :: 0 <= p < |n.bits| && !(base <= p < base + size) ==>
        n'.bits[p] == n.bits[p] && n'.oob[p] == n.oob[p])
  }

  /** One valid piece per mapped lba: the mapping is injective, and a piece is valid exactly when it is mapped. */
  lemma {:induction false} ValidIffMappedOnce(n: Nand, p: nat)
    requires n.Consistent() && p < |n.bits|
    ensures n.bits[p] <==> exists l :: 0 <= l < |n.mapping| && n.mapping[l] == At(p)
    ensures n.bits[p] ==> forall l :: 0 <= l < |n.mapping| && n.mapping[l] == At(p) ==> l == n.oob[p]
  {
  }

  // ----- the write path

  /** keys hold the freshly validated page at base; the first i of them are mapped to it already. */
  ghost predicate Assigning(n: Nand, base: nat, keys: seq<nat>, i: nat) {
    && DistinctKeys(keys, |n.mapping|)
    && i <= |keys| && base + |keys| <= |n.bits|
    && n.ConsistentOutside(base + i, base + |keys|)
    && forall p :: base <= p < base + |keys| ==> n.bits[p] && n.oob[p] == keys[p - base]
  }

  /** One round of page_map_assign: invalidate the former piece of the key, map the key to the new one. */
  ghost function AssignOne(n: Nand, p: nat, key: nat): Nand
    requires key < |n.mapping| && (n.mapping[key].At? ==> n.mapping[key].piece < |n.bits|)
  {
    n.(bits := if n.mapping[key].At? then n.bits[n.mapping[key].piece := false] else n.bits,
       mapping := n.mapping[key := At(p)])
  }

  lemma {:induction false} AssignStep(n: Nand, base: nat, keys: seq<nat>, i: nat)
    requires Assigning(n, base, keys, i) && i < |keys|
    ensures Assigning(AssignOne(n, base + i, keys[i]), base, keys, i + 1)
  {
    var n' := AssignOne(n, base + i, keys[i]);
    var lo, hi := base + i + 1, base + |keys|;
    forall p | 0 <= p < |n'.bits| && n'.bits[p] && !(lo <= p < hi)
      ensures n'.oob[p] < |n'.mapping| && n'.mapping[n'.oob[p]] == At(p)
    {
    }
  }

  /** Validating a page of pieces that were not valid. */
  lemma {:induction false} ValidateFresh(n: Nand, n': Nand, base: nat, keys: seq<nat>)
    requires n.Consistent() && DistinctKeys(keys, |n.mapping|) && Validated(n, n', base, keys)
    requires forall p :: base <= p < base + |keys| ==> !n.bits[p]
    ensures Assigning(n', base, keys, 0)
  {
  }

  /** Programming the mapped page gives every key its new value and leaves the other lbas alone. */
  lemma {:induction false} ProgramEffect(before: Nand, n: Nand, n': Nand, base: nat, keys: seq<nat>, vals: seq<Value>)
    requires before.Consistent() && Assigning(n, base, keys, |keys|) && |vals| == |keys|
    requires n.flash == before.flash && |n.mapping| == |before.mapping| && |n.bits| == |before.bits|
    requires forall p :: base <= p < base + |keys| ==> !before.bits[p]
    requires forall l :: 0 <= l < |n.mapping| && l !in keys ==> n.mapping[l] == before.mapping[l]
    requires Programmed(n, n', base, vals)
    ensures n'.Consistent()
    ensures forall j :: 0 <= j < |keys| ==> n'.Lookup(keys[j]) == Hit(vals[j])
    ensures forall l :: 0 <= l < |n.mapping| && l !in keys ==> n'.Lookup(l) == before.Lookup(l)
  {
    forall j | 0 <= j < |keys| ensures n'.Lookup(keys[j]) == Hit(vals[j]) {
      var p := base + j;
      assert n.oob[p] == keys[j] && n.mapping[n.oob[p]] == At(p);
    }
  }

  // ----- garbage collection

  /** The reserve segment [lo, hi) holds nothing; src lists, in the order they were read, distinct valid pieces. */
  ghost predicate Gathered(n0: Nand, src: seq<nat>, lo: nat, hi: nat) {
    && (forall p :: lo <= p < hi && p < |n0.bits| ==> !n0.bits[p])
    && (forall j :: 0 <= j < |src| ==> src[j] < |n0.bits| && n0.bits[src[j]])
    && forall i, j :: 0 <= i < j < |src| ==> src[i] != src[j]
  }

  /** n is n0 with the first moved pieces of src copied to the reserve segment at lo and remapped. */
  ghost predicate Moved(n0: Nand, n: Nand, src: seq<nat>, moved: nat, lo: nat, hi: nat) {
    && n0.Consistent() && n.Sized() && |n.bits| == |n0.bits| && |n.mapping| == |n0.mapping|
    && Gathered(n0, src, lo, hi) && moved <= |src| && lo + moved <= hi <= |n.bits|
    && (forall j :: 0 <= j < moved ==>
          && n.mapping[n0.oob[src[j]]] == At(lo + j)
          && n.bits[lo + j] && n.oob[lo + j] == n0.oob[src[j]] && n.flash[lo + j] == n0.flash[src[j]])
    && (forall l :: 0 <= l < |n.mapping| && n.mapping[l] != n0.mapping[l] ==>
          n.mapping[l].At? && lo <= n.mapping[l].piece < lo + moved && n0.oob[src[n.mapping[l].piece - lo]] == l)
    && (forall p :: 0 <= p < |n.bits| && !(lo <= p < lo + moved) ==>
          n.bits[p] == n0.bits[p] && n.oob[p] == n0.oob[p] && n.flash[p] == n0.flash[p])
  }

  /** The mapping loop of page_map_gc_update. */
  ghost function Remap(m: seq<Addr>, keys: seq<nat>, base: nat): (r: seq<Addr>)
    requires forall i :: 0 <= i < |keys| ==> keys[i] < |m|
    ensures |r| == |m|
    decreases |keys|
  {
    if keys == [] then m
    else Remap(m, keys[..|keys| - 1], base)[keys[|keys| - 1] := At(base + |keys| - 1)]
  }

  lemma {:induction false} RemapEffect(m: seq<Addr>, keys: seq<nat>, base: nat)
    requires DistinctKeys(keys, |m|)
    ensures forall j :: 0 <= j < |keys| ==> Remap(m, keys, base)[keys[j]] == At(base + j)
    ensures forall l :: 0 <= l < |m| && l !in keys ==> Remap(m, keys, base)[l] == m[l]
    decreases |keys|
  {
    if keys != [] {
      var n := |keys| - 1;
      RemapEffect(m, keys[..n], base);
      forall j | 0 <= j < |keys| ensures Remap(m, keys, base)[keys[j]] == At(base + j) {
        if j < n {
          assert keys[..n][j] == keys[j];
        }
      }
    }
  }

  /** The gather buffer: keys and values of the pieces src[from..]. */
  ghost predicate Buffered(n0: Nand, src: seq<nat>, from: nat, keys: seq<nat>, vals: seq<Value>) {
    && n0.Sized() && |keys| == |vals| && from + |keys| == |src|
    && forall i :: 0 <= i < |keys| ==>
         src[from + i] < |n0.bits| && keys[i] == n0.oob[src[from + i]] && vals[i] == n0.flash[src[from + i]]
  }

  lemma {:induction false} BufferedDistinct(n0: Nand, src: seq<nat>, from: nat, keys: seq<nat>, vals: seq<Value>,
                                            lo: nat, hi: nat)
    requires n0.Consistent() && Gathered(n0, src, lo, hi) && Buffered(n0, src, from, keys, vals)
    ensures DistinctKeys(keys, |n0.mapping|)
  {
    forall i, j | 0 <= i < j < |keys| ensures keys[i] != keys[j] {
      assert n0.mapping[keys[i]] == At(src[from + i]) && n0.mapping[keys[j]] == At(src[from + j]);
    }
  }

  /** n' is n with a page of keys and vals at base. */
  ghost predicate PageWritten(n: Nand, n': Nand, base: nat, keys: seq<nat>, vals: seq<Value>) {
    && n.Sized() && n'.Sized() && |n'.bits| == |n.bits| && |n'.mapping| == |n.mapping|
    && |keys| == |vals| && base + |keys| <= |n.bits| && DistinctKeys(keys, |n.mapping|)
    && (forall p :: base <= p < base + |keys| ==>
          n'.bits[p] && n'.oob[p] == keys[p - base] && n'.flash[p] == vals[p - base])
    && (forall p :: 0 <= p < |n.bits| && !(base <= p < base + |keys|) ==>
          n'.bits[p] == n.bits[p] && n'.oob[p] == n.oob[p] && n'.flash[p] == n.flash[p])
    && (forall i :: 0 <= i < |keys| ==> n'.mapping[keys[i]] == At(base + i))
    && (forall l :: 0 <= l < |n.mapping| && l !in keys ==> n'.mapping[l] == n.mapping[l])
  }

  /** page_map_gc_update, validate_ppa and the device write together write a page. */
  lemma {:induction false} PageWrittenInSteps(n: Nand, n1: Nand, n2: Nand, n3: Nand, base: nat, keys: seq<nat>,
                                              vals: seq<Value>)
    requires n.Sized() && DistinctKeys(keys, |n.mapping|) && |vals| == |keys|
    requires n1 == n.(mapping := Remap(n.mapping, keys, base))
    requires Validated(n1, n2, base, keys) && Programmed(n2, n3, base, vals)
    ensures PageWritten(n, n3, base, keys, vals)
  {
    RemapEffect(n.mapping, keys, base);
  }

  /** An lba moved earlier is not in the gather buffer. */
  lemma {:induction false} MovedNotBuffered(n0: Nand, src: seq<nat>, moved: nat, keys: seq<nat>, vals: seq<Value>,
                                            lo: nat, hi: nat, j: nat)
    requires n0.Consistent() && Gathered(n0, src, lo, hi) && Buffered(n0, src, moved, keys, vals) && j < moved
    ensures n0.oob[src[j]] !in keys
  {
    assert n0.mapping[n0.oob[src[j]]] == At(src[j]);
    forall i | 0 <= i < |keys| ensures keys[i] != n0.oob[src[j]] {
      assert n0.mapping[keys[i]] == At(src[moved + i]);
    }
  }

  /** Writing the gather buffer to the next reserve page moves its pieces on. */
  lemma {:induction false} FlushStep(n0: Nand, n: Nand, n': Nand, src: seq<nat>, moved: nat, lo: nat, hi: nat,
                  keys: seq<nat>, vals: seq<Value>, base: nat)
    requires Moved(n0, n, src, moved, lo, hi) && Buffered(n0, src, moved, keys, vals) && lo + |src| <= hi
    requires base == lo + moved && PageWritten(n, n', base, keys, vals)
    ensures Moved(n0, n', src, |src|, lo, hi)
  {
    forall j | 0 <= j < |src|
      ensures n'.mapping[n0.oob[src[j]]] == At(lo + j) && n'.bits[lo + j]
              && n'.oob[lo + j] == n0.oob[src[j]] && n'.flash[lo + j] == n0.flash[src[j]]
    {
      if j < moved {
        MovedNotBuffered(n0, src, moved, keys, vals, lo, hi, j);
      } else {
        assert keys[j - moved] == n0.oob[src[moved + (j - moved)]];
      }
    }
    forall l | 0 <= l < |n.mapping| && n'.mapping[l] != n0.mapping[l]
      ensures n'.mapping[l].At? && lo <= n'.mapping[l].piece < lo + |src| && n0.oob[src[n'.mapping[l].piece - lo]] == l
    {
      FlushLba(n0, n, n', src, moved, lo, hi, keys, vals, l);
    }
    forall p | 0 <= p < |n.bits| && !(lo <= p < lo + |src|)
      ensures n'.bits[p] == n0.bits[p] && n'.oob[p] == n0.oob[p] && n'.flash[p] == n0.flash[p]
    {
      assert n'.bits[p] == n.bits[p];
    }
  }

  lemma {:induction false} FlushLba(n0: Nand, n: Nand, n': Nand, src: seq<nat>, moved: nat, lo: nat, hi: nat,
                 keys: seq<nat>, vals: seq<Value>, l: nat)
    requires Moved(n0, n, src, moved, lo, hi) && Buffered(n0, src, moved, keys, vals)
    requires |n'.mapping| == |n.mapping| && l < |n.mapping| && n'.mapping[l] != n0.mapping[l]
    requires forall i :: 0 <= i < |keys| ==> keys[i] < |n.mapping| && n'.mapping[keys[i]] == At(lo + moved + i)
    requires l !in keys ==> n'.mapping[l] == n.mapping[l]
    ensures n'.mapping[l].At? && lo <= n'.mapping[l].piece < lo + |src| && n0.oob[src[n'.mapping[l].piece - lo]] == l
  {
    if l in keys {
      var i :| 0 <= i < |keys| && keys[i] == l;
      assert n'.mapping[keys[i]] == At(lo + moved + i);
      assert keys[i] == n0.oob[src[moved + i]];
    }
  }

  /** Once every valid piece of the victim has moved, erasing it loses nothing: every lba reads as before. */
  lemma {:induction false} TrimEffect(n0: Nand, n: Nand, n': Nand, src: seq<nat>, lo: nat, hi: nat, base: nat,
                                      size: nat)
    requires Moved(n0, n, src, |src|, lo, hi) && Erased(n, n', base, size)
    requires base + size <= lo || hi <= base
    requires forall j :: 0 <= j < |src| ==> base <= src[j] < base + size
    requires forall p :: base <= p < base + size && n0.bits[p] ==> p in src
    ensures n'.Consistent() && |n'.mapping| == |n0.mapping|
    ensures forall l :: 0 <= l < |n0.mapping| ==> n'.Lookup(l) == n0.Lookup(l)
  {
    forall l | 0 <= l < |n'.mapping| && n'.mapping[l].At?
      ensures var p := n'.mapping[l].piece;
              p < |n'.bits| && n'.bits[p] && n'.oob[p] == l && n0.mapping[l].At? &&
                  n'.flash[p] == n0.flash[n0.mapping[l].piece]
    {
      KeptLba(n0, n, src, lo, hi, base, size, l);
    }
    forall p | 0 <= p < |n'.bits| && n'.bits[p]
      ensures n'.oob[p] < |n'.mapping| && n'.mapping[n'.oob[p]] == At(p)
    {
      if lo <= p < lo + |src| {
        assert n.oob[lo + (p - lo)] == n0.oob[src[p - lo]];
      } else {
        assert n0.mapping[n0.oob[p]] == At(p);
      }
    }
  }

  lemma {:induction false} KeptLba(n0: Nand, n: Nand, src: seq<nat>, lo: nat, hi: nat, base: nat, size: nat, l: nat)
    requires Moved(n0, n, src, |src|, lo, hi)
    requires base + size <= |n.bits| && (base + size <= lo || hi <= base)
    requires forall j :: 0 <= j < |src| ==> base <= src[j] < base + size
    requires forall p :: base <= p < base + size && n0.bits[p] ==> p in src
    requires l < |n.mapping| && n.mapping[l].At?
    ensures n0.mapping[l].At?
    ensures var p := n.mapping[l].piece; p < |n.bits| && n.bits[p] && n.oob[p] == l && !(base <= p < base + size)
                                         && n.flash[p] == n0.flash[n0.mapping[l].piece]
  {
    if n.mapping[l] != n0.mapping[l] {
      var j := n.mapping[l].piece - lo;
      assert n.oob[lo + j] == n0.oob[src[j]];
      assert n0.mapping[n0.oob[src[j]]] == At(src[j]);
    } else {
      var p := n.mapping[l].piece;
      forall j | 0 <= j < |src| ensures src[j] != p {
        assert n.mapping[n0.oob[src[j]]] == At(lo + j);
      }
    }
  }
}
