/**
 * The abstract kill ring shared by every variant of the plugin: the list of
 * killed strings in insertion order and the rotation index into it.
 * `Add`, `Rotate`, `Shrink` and `Current` are what `add`,
 * `decreaseCurrentIndex`, `setMaxSize` and `getCurrentItem` do to that pair.
 */
module RingSpec {
  import opened Host

  /** JavaScript's `a % b` for a positive divisor: the remainder takes the sign of `a`. */
  function JsRem(a: int, b: int): (r: int)
    requires b > 0
    ensures a == b * TruncDiv(a, b) + r
    ensures a >= 0 ==> 0 <= r < b
    ensures a < 0 ==> -b < r <= 0
  {
    if a >= 0 then a % b else -((-a) % b)
  }

  /** The quotient rounded toward zero, which pairs with JavaScript's `%`. */
  function TruncDiv(a: int, b: int): int
    requires b > 0
  {
    if a >= 0 then a / b else -((-a) / b)
  }

  /** `s.slice(-n)` for `n >= 1`: the newest `n` entries, in order. */
  function Newest(s: seq<string>, n: nat): (r: seq<string>)
    requires n >= 1
    ensures |r| == if |s| <= n then |s| else n
  {
    if |s| > n then s[|s| - n..] else s
  }

  /** Shifting an index that lies in `[-1, n - 1)` by `n` and taking the
    * remainder gives it back, with -1 wrapping to `n - 1`. */
  lemma RemOfShifted(k: int, n: nat)
    requires n > 0
    ensures -1 <= k < n - 1 ==> JsRem(k + n, n) == if k == -1 then n - 1 else k
  {
    if 0 <= k < n - 1 {
      assert k + n == 1 * n + k;
    }
  }

  datatype Ring = Ring(items: seq<string>, index: int)
  {
    /** The invariant every operation keeps: at most `cap` items, and the
      * index is -1 exactly when the ring is empty and in range otherwise. */
    ghost predicate Valid(cap: nat)
    {
      |items| <= cap && Indexed()
    }

    /** The index part of the invariant, which holds whatever the capacity. */
    ghost predicate Indexed()
    {
      -1 <= index < |items| && (index == -1 <==> items == [])
    }

    /** `add(text)`: push, drop the oldest entries beyond `cap`, point at the newest. */
    function Add(text: string, cap: nat): (r: Ring)
      requires cap >= 1
      ensures r.Valid(cap)
      ensures r.items == Newest(items + [text], cap)
      ensures r.index == |r.items| - 1 && r.items[r.index] == text
    {
      var kept := Newest(items + [text], cap);
      Ring(kept, |kept| - 1)
    }

    /** `add` when there is something to add. */
    function AddSome(text: Option<string>, cap: nat): (r: Ring)
      requires cap >= 1
      ensures text.None? ==> r == this
      ensures text.Some? ==> r.Valid(cap) && r.Current() == text
      ensures text.Some? ==> r.items == Newest(items + [text.value], cap)
    {
      match text
      case None => this
      case Some(t) => Add(t, cap)
    }

    /** `decreaseCurrentIndex()`: step to the next older entry, wrapping from the
      * oldest to the newest; nothing happens on an empty ring. */
    function Rotate(): (r: Ring)
      ensures r.items == items
      ensures items == [] ==> r == this
      ensures 0 <= index < |items| ==> r.index == if index == 0 then |items| - 1 else index - 1
    {
      if items == [] then this
      else
        RemOfShifted(index - 1, |items|);
        Ring(items, JsRem(index - 1 + |items|, |items|))
    }

    /** The shrinking half of `setMaxSize(n)` for an accepted `n`. */
    function Shrink(n: nat): (r: Ring)
      requires n >= 1
      ensures |items| <= n ==> r == this
      ensures r.items == Newest(items, n)
      ensures |items| > n ==> r.index == if index < n - 1 then index else n - 1
    {
      if |items| > n then Ring(items[|items| - n..], if index < n - 1 then index else n - 1)
      else this
    }

    /** `getCurrentItem()`: `None` stands for `null`. */
    function Current(): (r: Option<string>)
      requires Indexed()
      ensures r.None? <==> items == []
      ensures r.Some? ==> r.value == items[index] && r.value in items
    {
      if index == -1 || |items| == 0 then None else Some(items[index])
    }
  }

  /** The ring after adding each of `texts` in turn. */
  function AddAll(r: Ring, texts: seq<string>, cap: nat): Ring
    requires cap >= 1
    decreases |texts|
  {
    if texts == [] then r else AddAll(r.Add(texts[0], cap), texts[1..], cap)
  }

  /** The ring after `k` calls of `decreaseCurrentIndex`. */
  function RotateTimes(r: Ring, k: nat): Ring
  {
    if k == 0 then r else RotateTimes(r, k - 1).Rotate()
  }

  lemma AddPreservesValid(r: Ring, text: string, cap: nat)
    requires cap >= 1 && r.Valid(cap)
    ensures r.Add(text, cap).Valid(cap)
    ensures |r.Add(text, cap).items| == if |r.items| < cap then |r.items| + 1 else cap
    ensures r.Add(text, cap).Current() == Some(text)
  {
  }

  /** Truncating before the push or only after it keeps the same newest entries. */
  lemma NewestOfNewest(s: seq<string>, u: seq<string>, n: nat)
    requires n >= 1 && |u| > 0
    ensures Newest(Newest(s, n) + u, n) == Newest(s + u, n)
  {
    var t := Newest(s, n);
    if |s| > n {
      assert s + u == s[..|s| - n] + (t + u);
      var a := Newest(t + u, n);
      var b := Newest(s + u, n);
      assert |a| == |b| == n;
      forall i | 0 <= i < n ensures a[i] == b[i] {
        assert a[i] == (t + u)[|t + u| - n + i];
        assert b[i] == (s + u)[|s + u| - n + i];
      }
    }
  }

  /** Whatever the ring held before, and even if it held more than `cap`
    * entries, a series of adds leaves exactly the newest `cap` of the old
    * entries followed by the additions, in order, with the index on the last. */
  lemma {:induction false} AddAllKeepsNewest(r: Ring, texts: seq<string>, cap: nat)
    requires cap >= 1 && |texts| > 0
    ensures AddAll(r, texts, cap).items == Newest(r.items + texts, cap)
    ensures AddAll(r, texts, cap).index == |AddAll(r, texts, cap).items| - 1
    decreases |texts|
  {
    var r1 := r.Add(texts[0], cap);
    var rest := texts[1..];
    assert r.items + texts == (r.items + [texts[0]]) + rest;
    if rest != [] {
      AddAllKeepsNewest(r1, rest, cap);
      NewestOfNewest(r.items + [texts[0]], rest, cap);
    }
  }

  /** From an empty ring, the ring holds exactly the last `cap` additions. */
  lemma {:induction false} FreshRingKeepsNewest(r: Ring, texts: seq<string>, cap: nat)
    requires cap >= 1 && |texts| > 0 && r.items == []
    ensures AddAll(r, texts, cap).items == Newest(texts, cap)
  {
    AddAllKeepsNewest(r, texts, cap);
    assert r.items + texts == texts;
  }

  lemma RotatePreservesValid(r: Ring, cap: nat)
    requires r.Valid(cap)
    ensures r.Rotate().Valid(cap)
  {
  }

  /** After `k <= n` rotations of a ring of `n` entries the index has moved back `k` places, modulo `n`. */
  lemma {:induction false} RotateTimesIndex(r: Ring, k: nat)
    requires r.Valid(|r.items|) && r.items != [] && k <= |r.items|
    ensures RotateTimes(r, k).items == r.items
    ensures RotateTimes(r, k).index == if k <= r.index then r.index - k else r.index - k + |r.items|
  {
    if k > 0 {
      RotateTimesIndex(r, k - 1);
    }
  }

  /** Rotation is cyclic: `n` rotations of a ring of `n` entries give back the same ring. */
  lemma RotateFullCycle(r: Ring, cap: nat)
    requires r.Valid(cap) && r.items != []
    ensures RotateTimes(r, |r.items|) == r
    ensures RotateTimes(r, |r.items|).Current() == r.Current()
  {
    RotateTimesIndex(r, |r.items|);
  }

  /** Shrinking to an accepted size keeps the invariant for the new capacity. */
  lemma ShrinkPreservesValid(r: Ring, cap: nat, n: nat)
    requires r.Valid(cap) && n >= 1
    ensures r.Shrink(n).Valid(n)
  {
  }
}
