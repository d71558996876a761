/**
 * Equal blocks laid out one after the other: directories of lbas, segments of pages, pages of pieces; and addresses
 * in them.
 */
module Layout {

  /** First position of block i when every block holds per positions. */
  function Base(i: nat, per: nat): nat {
    if i == 0 then 0 else Base(i - 1, per) + per
  }

  lemma {:induction false} BaseIsProduct(i: nat, per: nat)
    ensures Base(i, per) == i * per
  {
    if i > 0 {
      BaseIsProduct(i - 1, per);
    }
  }

  lemma {:induction false} BaseOrder(i: nat, j: nat, per: nat)
    requires i < j
    ensures Base(i, per) + per <= Base(j, per)
    decreases j
  {
    if i + 1 < j {
      BaseOrder(i, j - 1, per);
    }
  }

  lemma {:induction false} BaseSum(i: nat, j: nat, d: nat)
    ensures Base(i + j, d) == Base(i, d) + Base(j, d)
  {
    if j > 0 {
      BaseSum(i, j - 1, d);
    }
  }

  /** Quotient and remainder by the block size, as a range test and a difference. */
  lemma {:induction false} Split(per: nat, x: nat, i: nat)
    requires per > 0
    ensures x / per == i <==> Base(i, per) <= x < Base(i, per) + per
    ensures x / per == i ==> x % per == x - Base(i, per)
  {
    BaseIsProduct(i, per);
    var q := x / per - i;
    assert q * per == x - x % per - i * per;
    if i * per <= x < i * per + per {
      assert q == 0;
    }
  }

  /** The block and the offset of a position among n blocks. */
  lemma {:induction false} Locate(x: nat, per: nat, n: nat)
    requires per > 0 && x < Base(n, per)
    ensures var i := x / per;
            i < n && Base(i, per) + per <= Base(n, per) && x == Base(i, per) + x % per && x % per < per
  {
    var i := x / per;
    Split(per, x, i);
    if i > n {
      BaseOrder(n, i, per);
    } else if i < n {
      BaseOrder(i, n, per);
    }
  }

  lemma {:induction false} QuotientBound(x: nat, per: nat)
    requires per > 0
    ensures x / per <= x
  {
    Split(per, x, x / per);
    BaseGrows(x / per, per);
  }

  lemma {:induction false} BaseGrows(i: nat, per: nat)
    requires per > 0
    ensures i <= Base(i, per)
  {
    if i > 0 {
      BaseGrows(i - 1, per);
    }
  }

  function Slice<T>(s: seq<T>, base: nat, per: nat): seq<T>
    requires base + per <= |s|
  {
    s[base..base + per]
  }

  lemma {:induction false} SliceStore<T>(s: seq<T>, base: nat, per: nat, i: nat, x: T)
    requires base + per <= |s| && i < |s|
    ensures Slice(s[i := x], base, per)
            == if base <= i < base + per then Slice(s, base, per)[i - base := x] else Slice(s, base, per)
  {
  }

  /** Block j after a store at offset o of block i. */
  lemma {:induction false} SliceOfOther<T>(s: seq<T>, per: nat, n: nat, i: nat, o: nat, j: nat, x: T)
    requires |s| == Base(n, per) && i < n && j < n && o < per
    ensures Base(i, per) + per <= |s| && Base(j, per) + per <= |s|
    ensures Slice(s[Base(i, per) + o := x], Base(j, per), per)
            == if j == i then Slice(s, Base(j, per), per)[o := x] else Slice(s, Base(j, per), per)
  {
    BaseOrder(i, n, per);
    BaseOrder(j, n, per);
    if j < i {
      BaseOrder(j, i, per);
    } else if i < j {
      BaseOrder(i, j, per);
    }
    SliceStore(s, Base(j, per), per, Base(i, per) + o, x);
  }

  /** Where something lies, if anywhere. */
  datatype Addr = Unmapped | At(piece: nat)

  function Elements(s: seq<nat>): set<nat> {
    set x | x in s
  }
}
