/**
  The "last drawn" strip of components/History.tsx: the last ten entries
  of the draw history, most recent first, as `numbers.slice(-10).reverse()`
  computes them, and the balls rendered from them.
 */
module HistoryView {
  import opened Wrappers

  /** How many entries the strip shows. */
  const ShownCount: nat := 10

  function Min(a: int, b: int): int {
    if a <= b then a else b
  }

  /** `s.slice(start)`: a negative start counts from the end and is clamped
      at 0, a start past the end gives the empty array. */
  function Slice(s: seq<int>, start: int): (r: seq<int>)
    ensures |r| == if start < 0 then Min(-start, |s|) else |s| - Min(start, |s|)
    ensures r == s[|s| - |r|..]
  {
    var from := if start < 0 then (if |s| + start < 0 then 0 else |s| + start)
                else Min(start, |s|);
    s[from..]
  }

  /** `s.reverse()` applied to a copy of `s`. */
  function Reverse(s: seq<int>): (r: seq<int>)
    ensures |r| == |s|
    ensures forall i :: 0 <= i < |r| ==> r[i] == s[|s| - 1 - i]
  {
    if s == [] then [] else Reverse(s[1..]) + [s[0]]
  }

  /** The entries the strip shows: `numbers.slice(-10).reverse()`. */
  function LastTen(numbers: seq<int>): (r: seq<int>)
    ensures |r| == Min(ShownCount, |numbers|)
    ensures forall i :: 0 <= i < |r| ==> r[i] == numbers[|numbers| - 1 - i]
    ensures numbers != [] ==> r[0] == numbers[|numbers| - 1]
    ensures r == [] <==> numbers == []
  {
    Reverse(Slice(numbers, -(ShownCount as int)))
  }

  /** The strip is a contiguous suffix of the history, read backwards. */
  lemma LastTenIsReversedSuffix(numbers: seq<int>)
    ensures var r := LastTen(numbers);
      Reverse(r) == numbers[|numbers| - |r|..]
  {
    var r := LastTen(numbers);
    var suffix := numbers[|numbers| - |r|..];
    forall i | 0 <= i < |r| ensures Reverse(r)[i] == suffix[i] {
      assert Reverse(r)[i] == r[|r| - 1 - i];
    }
  }

  /** The React key of a rendered ball, `${num}-${index}`: the value paired
      with its position in the strip. */
  datatype Key = Key(num: int, index: nat)

  /** One rendered ball: its number, its key, and whether it is drawn
      highlighted (the `index === 0` style). */
  datatype Ball = Ball(num: int, key: Key, highlighted: bool)

  /** The balls of the strip, or None where the component renders null. */
  function Render(numbers: seq<int>): (r: Option<seq<Ball>>)
    ensures r.None? <==> numbers == []
    ensures r.Some? ==> |r.value| == Min(ShownCount, |numbers|)
    ensures r.Some? ==> forall i :: 0 <= i < |r.value| ==>
      r.value[i].num == numbers[|numbers| - 1 - i] && r.value[i].key == Key(r.value[i].num, i)
    ensures r.Some? ==> r.value[0].highlighted && r.value[0].num == numbers[|numbers| - 1]
    ensures r.Some? ==> forall i :: 0 < i < |r.value| ==> !r.value[i].highlighted
  {
    var lastTenNumbers := LastTen(numbers);
    if |lastTenNumbers| == 0 then None
    else Some(seq(|lastTenNumbers|, index requires 0 <= index < |lastTenNumbers| =>
      Ball(lastTenNumbers[index], Key(lastTenNumbers[index], index), index == 0)))
  }

  /** Keys are distinct whatever the history holds, repeated values included. */
  lemma KeysDistinct(numbers: seq<int>, i: int, j: int)
    requires Render(numbers).Some?
    requires 0 <= i < j < |Render(numbers).value|
    ensures Render(numbers).value[i].key != Render(numbers).value[j].key
  {
  }
}
