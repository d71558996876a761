/**
 * The 32-bit read flag of a merge, one bit per run, and the mask it is compared with
 * (algorithm/layeredLSM/run_merge.cpp:22-30, 498, 527). A word is the set of its bits.
 */
module ReadFlag {

  type Word = set<nat>

  function Power(i: nat): (p: nat)
    ensures p > 0
  {
    if i == 0 then 1 else 2 * Power(i - 1)
  }

  /** The number made of the k lowest bits. */
  function Value(w: Word, k: nat): (v: nat)
    ensures v < Power(k)
  {
    if k == 0 then 0 else Value(w, k - 1) + if k - 1 in w then Power(k - 1) else 0
  }

  /** Equal numbers have equal bits. */
  lemma {:induction false} ValueIsUnique(v: Word, w: Word, k: nat)
    requires Value(v, k) == Value(w, k)
    ensures forall i :: 0 <= i < k ==> (i in v <==> i in w)
  {
    if k > 0 {
      ValueIsUnique(v, w, k - 1);
    }
  }

  /** 1 << i; a shift by 32 or more is undefined in C and taken modulo 32, as x86 does. */
  function Bit(i: nat): Word {
    {i % 32}
  }

  /** (1 << n) - 1 */
  function Mask(n: nat): Word {
    Below(n % 32)
  }

  function Below(k: nat): (w: Word)
    ensures forall j :: j in w <==> 0 <= j < k
  {
    if k == 0 then {} else Below(k - 1) + {k - 1}
  }

  lemma {:induction false} MaskValue(n: nat, k: nat)
    requires n % 32 <= k <= 32
    ensures Value(Mask(n), k) == Power(n % 32) - 1
  {
    if k > n % 32 {
      MaskValue(n, k - 1);
    } else {
      LowBits(Mask(n), k);
    }
  }

  lemma {:induction false} LowBits(w: Word, k: nat)
    requires forall j :: 0 <= j < k ==> j in w
    ensures Value(w, k) == Power(k) - 1
  {
    if k > 0 {
      LowBits(w, k - 1);
    }
  }

  ghost predicate All(bits: seq<bool>) {
    forall i :: 0 <= i < |bits| ==> bits[i]
  }

  /** The flag with a bit for every run that is set. */
  function Encode(bits: seq<bool>): Word {
    set i | 0 <= i < |bits| && bits[i] :: i % 32
  }

  /** The flag is the full mask only when every run is set, as long as every run has a bit of its own. */
  lemma {:induction false} EncodeIsMask(bits: seq<bool>)
    requires |bits| < 32
    ensures Encode(bits) == Mask(|bits|) <==> All(bits)
  {
    if All(bits) {
      forall j | 0 <= j < |bits| ensures j in Encode(bits) {
        assert bits[j] && j % 32 == j;
      }
    }
    if Encode(bits) == Mask(|bits|) {
      forall j | 0 <= j < |bits| ensures bits[j] {
        assert j in Mask(|bits|);
      }
    }
  }

  lemma {:induction false} EncodeNext(bits: seq<bool>, bits': seq<bool>)
    requires |bits'| == |bits| + 1 && bits'[..|bits|] == bits
    ensures Encode(bits') == if bits'[|bits|] then Encode(bits) + Bit(|bits|) else Encode(bits)
  {
    var n := |bits|;
    forall i | 0 <= i < n ensures bits'[i] == bits[i] {
      assert bits'[..n][i] == bits[i];
    }
  }

  /** Bits that are all justified and fill the mask. */
  lemma {:induction false} MaskInside(w: Word, bits: seq<bool>)
    requires |bits| < 32 && w <= Encode(bits)
    ensures w == Mask(|bits|) ==> All(bits)
  {
    if w == Mask(|bits|) {
      forall j | 0 <= j < |bits| ensures bits[j] {
        assert j in w;
      }
    }
  }

  /** With 32 runs or more the full flag is never the mask. */
  lemma {:induction false} FullFlagIsNoMask(bits: seq<bool>)
    requires |bits| >= 32 && All(bits)
    ensures Encode(bits) != Mask(|bits|)
  {
    assert bits[31] && 31 % 32 == 31;
    assert 31 in Encode(bits);
  }

  /** The mask tells whether every run is set, whatever the runs, exactly for fewer than 32 of them. */
  lemma {:induction false} MaskExactIff(n: nat)
    ensures (forall bits :: |bits| == n ==> (Encode(bits) == Mask(n) <==> All(bits))) <==> n < 32
  {
    if n < 32 {
      forall bits: seq<bool> | |bits| == n ensures Encode(bits) == Mask(n) <==> All(bits) {
        EncodeIsMask(bits);
      }
    } else {
      var bits := seq(n, _ => true);
      FullFlagIsNoMask(bits);
      assert All(bits) && |bits| == n;
    }
  }
}
