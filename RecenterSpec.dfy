/**
 * The recenter mode cycler shared by the three recenter classes: a field
 * `currentIndex` into the fixed list of scroll modes, advanced modulo three
 * by `getNextMode` and set back to zero by `reset`.
 */
module RecenterSpec {

  /** The scroll alignment `scrollIntoView` is asked for. */
  datatype Mode = Center | Start | End

  /** `modes = ['center', 'start', 'end']`. */
  const Modes: seq<Mode> := [Center, Start, End]

  /** `(currentIndex + 1) % modes.length`: the following index, wrapping after the last mode. */
  function NextIndex(i: nat): (r: nat)
    requires i < |Modes|
    ensures r < |Modes|
    ensures r == if i == |Modes| - 1 then 0 else i + 1
  {
    (i + 1) % |Modes|
  }

  /** The modes `k` successive calls of `getNextMode` return from index `i`. */
  function ModesFrom(i: nat, k: nat): seq<Mode>
    requires i < |Modes|
    decreases k
  {
    if k == 0 then [] else [Modes[i]] + ModesFrom(NextIndex(i), k - 1)
  }

  /** The index after `k` calls of `getNextMode` from index `i`. */
  function IndexAfter(i: nat, k: nat): (r: nat)
    requires i < |Modes|
    ensures r < |Modes|
    decreases k
  {
    if k == 0 then i else IndexAfter(NextIndex(i), k - 1)
  }

  /** Successive calls walk through the modes in order with period three:
    * call `j` (counting from zero) from index `i` returns `Modes[(i + j) % 3]`,
    * and the index it leaves is `(i + k) % 3`. */
  lemma {:induction false} ModesCycle(i: nat, k: nat)
    requires i < |Modes|
    ensures |ModesFrom(i, k)| == k
    ensures forall j :: 0 <= j < k ==> ModesFrom(i, k)[j] == Modes[(i + j) % |Modes|]
    ensures IndexAfter(i, k) == (i + k) % |Modes|
    decreases k
  {
    if k > 0 {
      ModesCycle(NextIndex(i), k - 1);
      forall j | 0 <= j < k
        ensures ModesFrom(i, k)[j] == Modes[(i + j) % |Modes|]
      {
        if j > 0 {
          assert ModesFrom(i, k)[j] == ModesFrom(NextIndex(i), k - 1)[j - 1];
          assert (NextIndex(i) + (j - 1)) % 3 == (i + j) % 3;
        }
      }
    }
  }
}
