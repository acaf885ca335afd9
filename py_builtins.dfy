/** The two Python built-ins the outline compiler leans on: `" ".join(parts)`
    and the prefix slice `xs[:stop]`, whose stop may be negative. */
module PyBuiltins {

  /** Total number of characters in `parts`. */
  function TotalLength(parts: seq<string>): nat
  {
    if |parts| == 0 then 0 else |parts[0]| + TotalLength(parts[1..])
  }

  /** `" ".join(parts)`: the parts in order, one space between neighbours. */
  function Join(parts: seq<string>): (r: string)
    ensures |parts| > 0 ==> |r| == TotalLength(parts) + |parts| - 1
    ensures |parts| > 0 ==> r[..|parts[0]|] == parts[0]
  {
    if |parts| == 0 then ""
    else if |parts| == 1 then parts[0]
    else parts[0] + " " + Join(parts[1..])
  }

  /** Appending one more part adds a space and that part at the end. */
  lemma {:induction false} JoinSnoc(parts: seq<string>, x: string)
    ensures Join(parts + [x]) == if |parts| == 0 then x else Join(parts) + " " + x
    decreases |parts|
  {
    if |parts| == 0 {
      assert parts + [x] == [x];
    } else if |parts| == 1 {
      assert parts + [x] == [parts[0], x];
      assert (parts + [x])[1..] == [x];
    } else {
      assert (parts + [x])[0] == parts[0];
      assert (parts + [x])[1..] == parts[1..] + [x];
      JoinSnoc(parts[1..], x);
    }
  }

  /** Python's `xs[:stop]`: a non-negative stop past the end is clamped to the
      length; a negative stop counts back from the end and is clamped at 0. */
  function SlicePrefix<T>(xs: seq<T>, stop: int): (r: seq<T>)
    ensures |r| <= |xs| && r == xs[..|r|]
    ensures 0 <= stop <= |xs| ==> |r| == stop
    ensures |xs| < stop ==> r == xs
    ensures -|xs| <= stop < 0 ==> |r| == |xs| + stop
    ensures stop < -|xs| ==> r == []
  {
    if 0 <= stop then
      (if stop <= |xs| then xs[..stop] else xs)
    else if -|xs| <= stop then xs[..|xs| + stop]
    else []
  }
}
