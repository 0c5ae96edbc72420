/** Sequence operations the components apply to their lists. */
module Lists {
  /** `xs.filter((_, i) => i !== index)`: every element but the one at `index`, in order. */
  function RemoveAt<T>(xs: seq<T>, index: int): (r: seq<T>)
    ensures |r| == if 0 <= index < |xs| then |xs| - 1 else |xs|
    ensures forall j | 0 <= j < |r| :: r[j] == if 0 <= index <= j then xs[j + 1] else xs[j]
  {
    if 0 <= index < |xs| then xs[..index] + xs[index + 1..] else xs
  }

  /** Removing the element just appended gives back the original list. */
  lemma RemoveAppended<T>(xs: seq<T>, x: T)
    ensures RemoveAt(xs + [x], |xs|) == xs
  {
    assert (xs + [x])[..|xs|] == xs;
  }
}
