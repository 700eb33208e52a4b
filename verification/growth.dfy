/** Growth of the descriptor-indexed vectors: `adjust_size_` of the scheduler and of the poller. */
module Growth {

  /** std::bit_ceil: the smallest power of two that is at least n. */
  function BitCeil(n: nat): (p: nat)
    ensures p >= n && p >= 1
  {
    if n <= 1 then 1 else 2 * BitCeil((n + 1) / 2)
  }

  predicate IsPowerOfTwo(n: nat) {
    n == 1 || (n > 0 && n % 2 == 0 && IsPowerOfTwo(n / 2))
  }

  /** BitCeil is a power of two, nothing smaller that is at least n is one, and it stays below 2n. */
  lemma {:induction false} BitCeilIsLeast(n: nat, q: nat)
    requires IsPowerOfTwo(q) && q >= n
    ensures IsPowerOfTwo(BitCeil(n)) && BitCeil(n) <= q
    ensures n >= 1 ==> BitCeil(n) < 2 * n
  {
    if n > 1 {
      BitCeilIsLeast((n + 1) / 2, q / 2);
    }
  }

  lemma {:induction false} BitCeilIsPowerOfTwo(n: nat)
    ensures IsPowerOfTwo(BitCeil(n))
    ensures n >= 1 ==> BitCeil(n) < 2 * n
  {
    if n > 1 {
      BitCeilIsPowerOfTwo((n + 1) / 2);
    }
  }

  lemma {:induction false} PowersOfTwoDouble(a: nat, b: nat)
    requires IsPowerOfTwo(a) && IsPowerOfTwo(b) && a < b
    ensures 2 * a <= b
  {
    if a > 1 {
      PowersOfTwoDouble(a / 2, b / 2);
    }
  }

  /** The size after `adjust_size_(index)` with the repair `bit_ceil(index + 1)`. */
  function Adjusted(size: nat, index: nat): (need: nat)
    ensures need > index && need >= size
  {
    if size > index then size else BitCeil(index + 1)
  }

  /** The size after `adjust_size_(index)` as the source writes it, with `bit_ceil(index)`. */
  function LiteralAdjusted(size: nat, index: nat): nat {
    if size > index then size else BitCeil(index)
  }

  /** The literal form leaves the index out of range exactly when it grows at a power of two
      (`bit_ceil(0)` is 1, so index 0 is always in range). */
  lemma LiteralFormMissesPowersOfTwo(size: nat, index: nat)
    ensures LiteralAdjusted(size, index) > index <==> size > index || !IsPowerOfTwo(index)
  {
    if index > 0 && IsPowerOfTwo(index) {
      BitCeilIsLeast(index, index);
    }
    if !IsPowerOfTwo(index) {
      BitCeilIsPowerOfTwo(index);
    }
  }

  /** The size after the descriptors were used one after the other, growing as written. */
  function LiteralSize(fds: seq<nat>): nat {
    if fds == [] then 0 else LiteralAdjusted(LiteralSize(fds[..|fds| - 1]), fds[|fds| - 1])
  }

  lemma {:induction false} LiteralSizePasses(fds: seq<nat>, p: nat)
    requires IsPowerOfTwo(p)
    ensures LiteralSize(fds) > p <==> exists j :: 0 <= j < |fds| && fds[j] > p
  {
    if fds != [] {
      var last := |fds| - 1;
      LiteralSizePasses(fds[..last], p);
      if fds[last] <= p {
        BitCeilIsLeast(fds[last], p);
        assert forall j :: 0 <= j < last ==> fds[..last][j] == fds[j];
      } else {
        assert fds[last] > p;
      }
    }
  }

  /** Growing as written from an empty vector, every descriptor is in range when it is used exactly if
      each power of two among them comes after a larger descriptor. */
  lemma LiteralFormExactly(fds: seq<nat>)
    ensures (forall i :: 0 <= i < |fds| ==> fds[i] < LiteralSize(fds[..i + 1])) <==>
            (forall i :: 0 <= i < |fds| && IsPowerOfTwo(fds[i]) ==> exists j :: 0 <= j < i && fds[j] > fds[i])
  {
    forall i | 0 <= i < |fds|
      ensures fds[i] < LiteralSize(fds[..i + 1]) <==>
              (IsPowerOfTwo(fds[i]) ==> exists j :: 0 <= j < i && fds[j] > fds[i])
    {
      var before := fds[..i];
      assert fds[..i + 1][..i] == before && fds[..i + 1][i] == fds[i];
      LiteralFormMissesPowersOfTwo(LiteralSize(before), fds[i]);
      if IsPowerOfTwo(fds[i]) {
        LiteralSizePasses(before, fds[i]);
        assert forall j :: 0 <= j < i ==> before[j] == fds[j];
      }
    }
  }

  /** So descriptor 4, used before any larger one, is out of range. */
  lemma FourIsMissed()
    ensures LiteralAdjusted(0, 4) == 4 && LiteralSize([4]) == 4
  {
    assert BitCeil(2) == 2 && BitCeil(4) == 4;
    assert [4][..0] == [];
  }

  /** `resize(need)`: the old entries, then default ones. */
  function Grown<T>(s: seq<T>, index: nat, default: T): (r: seq<T>)
    ensures |r| == Adjusted(|s|, index) && s <= r
    ensures forall i :: |s| <= i < |r| ==> r[i] == default
  {
    s + seq(Adjusted(|s|, index) - |s|, _ => default)
  }

  /** The sizes passed to `resize` while the descriptors `fds` are used one after the other. */
  function Resizes(size: nat, fds: seq<nat>): seq<nat>
    decreases |fds|
  {
    if fds == [] then []
    else if size > fds[0] then Resizes(size, fds[1..])
    else [Adjusted(size, fds[0])] + Resizes(Adjusted(size, fds[0]), fds[1..])
  }

  function FinalSize(size: nat, fds: seq<nat>): nat
    decreases |fds|
  {
    if fds == [] then size else FinalSize(Adjusted(size, fds[0]), fds[1..])
  }

  function Sum(s: seq<nat>): nat {
    if s == [] then 0 else s[0] + Sum(s[1..])
  }

  lemma {:induction false} ResizesTelescope(size: nat, fds: seq<nat>, bound: nat)
    requires size == 0 || IsPowerOfTwo(size)
    requires forall fd :: fd in fds ==> fd <= bound
    ensures Sum(Resizes(size, fds)) + 2 * size <= 2 * FinalSize(size, fds)
    ensures size <= FinalSize(size, fds)
    ensures FinalSize(size, fds) == size || FinalSize(size, fds) < 2 * (bound + 1)
    ensures forall fd :: fd in fds ==> fd < FinalSize(size, fds)
    decreases |fds|
  {
    if fds != [] {
      assert fds[0] in fds;
      assert forall fd :: fd in fds[1..] ==> fd in fds;
      assert forall fd :: fd in fds ==> fd == fds[0] || fd in fds[1..];
      var next := Adjusted(size, fds[0]);
      if size <= fds[0] {
        BitCeilIsPowerOfTwo(fds[0] + 1);
        if size > 0 {
          PowersOfTwoDouble(size, next);
        }
      }
      ResizesTelescope(next, fds[1..], bound);
    }
  }

  /** From an empty vector, whatever descriptors are used: all of them end in range, and all
      resizes together ask for less than four times (largest descriptor + 1). */
  lemma GrowthIsLinear(fds: seq<nat>, largest: nat)
    requires forall fd :: fd in fds ==> fd <= largest
    ensures forall fd :: fd in fds ==> fd < FinalSize(0, fds)
    ensures Sum(Resizes(0, fds)) < 4 * (largest + 1)
  {
    ResizesTelescope(0, fds, largest);
  }
}
