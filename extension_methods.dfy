// The client's extension methods on strings and lists: Truncate, RandomItem,
// the in-place Fisher-Yates Shuffle and the list IsNullOrEmpty. The choices
// `UnityEngine.Random.Range` makes are parameters.

module ExtensionMethods {
  import opened Common

  const Ellipsis: string := "..."

  /**
   * `str.Truncate(maxLength)`. Text that does not fit is cut to `maxLength`
   * characters and "..." is added; a negative `maxLength` on such text
   * fails in `Substring`.
   */
  function Truncate(s: string, maxLength: int): (r: Option<string>)
    ensures r.None? <==> s != "" && |s| > maxLength && maxLength < 0
    ensures s == "" || |s| <= maxLength ==> r == Some(s)
    ensures s != "" && |s| > maxLength && maxLength >= 0 ==>
              r.Some? && |r.value| == maxLength + 3 && r.value[..maxLength] == s[..maxLength] && r.value[maxLength..] == Ellipsis
  {
    if s == "" || |s| <= maxLength then Some(s)
    else if maxLength < 0 then None
    else Some(s[..maxLength] + Ellipsis)
  }

  /**
   * Truncating twice with the same limit is truncating once: a truncated
   * text is longer than the limit again, and cutting it gives back the same
   * prefix and "...".
   */
  lemma TruncateIdempotent(s: string, maxLength: nat)
    ensures Truncate(s, maxLength).Some?
    ensures Truncate(Truncate(s, maxLength).value, maxLength) == Truncate(s, maxLength)
  {
    var r := Truncate(s, maxLength).value;
    if r != s {
      assert r[..maxLength] + Ellipsis == r;
    }
  }

  /**
   * `list.RandomItem()`: `pick` is `Random.Range(0, list.Count)`. A null
   * or empty list gives the type's default, here None.
   */
  function RandomItem<T>(list: Option<seq<T>>, pick: int): (r: Option<T>)
    requires list.Some? && |list.value| > 0 ==> 0 <= pick < |list.value|
    ensures r.None? <==> list.None? || |list.value| == 0
    ensures r.Some? ==> r.value in list.value && r.value == list.value[pick]
  {
    if list.None? || |list.value| == 0 then None else Some(list.value[pick])
  }

  /** `list.IsNullOrEmpty()`. */
  function IsNullOrEmpty<T>(list: Option<seq<T>>): (r: bool)
    ensures r <==> list == None || list == Some([])
  {
    list.None? || |list.value| == 0
  }

  /** RandomItem has something to return exactly when the list is not null or empty. */
  lemma RandomItemPresence<T>(list: Option<seq<T>>, pick: int)
    requires list.Some? && |list.value| > 0 ==> 0 <= pick < |list.value|
    ensures RandomItem(list, pick).Some? <==> !IsNullOrEmpty(list)
  {
  }

  // ---------------------------------------------------------------------------
  // Shuffle
  // ---------------------------------------------------------------------------

  /** `s` with positions i and j exchanged. */
  function Swap<T>(s: seq<T>, i: nat, j: nat): (r: seq<T>)
    requires i < |s| && j < |s|
    ensures |r| == |s| && r[i] == s[j] && r[j] == s[i]
    ensures forall k :: 0 <= k < |s| && k != i && k != j ==> r[k] == s[k]
  {
    s[i := s[j]][j := s[i]]
  }

  /** A swap keeps the elements. */
  lemma SwapPermutes<T>(s: seq<T>, i: nat, j: nat)
    requires i < |s| && j < |s|
    ensures multiset(Swap(s, i, j)) == multiset(s)
  {
    var t := s[i := s[j]];
    assert multiset(t) == multiset(s) - multiset{s[i]} + multiset{s[j]};
    assert t[j] == (if i == j then s[j] else s[j]);
    assert multiset(t[j := s[i]]) == multiset(t) - multiset{t[j]} + multiset{s[i]};
  }

  /** The valid choices: at step i, `Random.Range(0, i + 1)` gives some j in [0, i]. */
  predicate ValidChoices(choices: seq<int>, n: nat)
  {
    |choices| == n && forall i :: 0 < i < n ==> 0 <= choices[i] <= i
  }

  /** The list after the steps i, i-1, ..., 1 of the shuffle: step k swaps positions k and choices[k]. */
  function ShuffledFrom<T>(s: seq<T>, choices: seq<int>, i: int): (r: seq<T>)
    requires i < |s| && ValidChoices(choices, |s|)
    ensures |r| == |s|
    decreases i
  {
    if i <= 0 then s else ShuffledFrom(Swap(s, i, choices[i]), choices, i - 1)
  }

  /** What Shuffle leaves in the list. */
  function Shuffled<T>(s: seq<T>, choices: seq<int>): seq<T>
    requires ValidChoices(choices, |s|)
  {
    if |s| < 2 then s else ShuffledFrom(s, choices, |s| - 1)
  }

  /** Whatever the choices, the shuffle is a permutation. */
  lemma {:induction false} ShuffledFromPermutes<T>(s: seq<T>, choices: seq<int>, i: int)
    requires i < |s| && ValidChoices(choices, |s|)
    ensures multiset(ShuffledFrom(s, choices, i)) == multiset(s)
    decreases i
  {
    if i > 0 {
      var t := Swap(s, i, choices[i]);
      SwapPermutes(s, i, choices[i]);
      ShuffledFromPermutes(t, choices, i - 1);
    }
  }

  /** Positions above the current step are final: the later steps, i and below, do not touch them. */
  lemma {:induction false} ShuffledFromKeepsAbove<T>(s: seq<T>, choices: seq<int>, i: int)
    requires i < |s| && ValidChoices(choices, |s|)
    ensures forall k :: i < k < |s| && 0 <= k ==> ShuffledFrom(s, choices, i)[k] == s[k]
    decreases i
  {
    if i > 0 {
      ShuffledFromKeepsAbove(Swap(s, i, choices[i]), choices, i - 1);
    }
  }

  lemma ShuffledPermutes<T>(s: seq<T>, choices: seq<int>)
    requires ValidChoices(choices, |s|)
    ensures |Shuffled(s, choices)| == |s|
    ensures multiset(Shuffled(s, choices)) == multiset(s)
    ensures |s| < 2 ==> Shuffled(s, choices) == s
  {
    if |s| >= 2 {
      ShuffledFromPermutes(s, choices, |s| - 1);
    }
  }

  /**
   * `list.Shuffle()` on the list's storage: `choices[i]` is the j drawn at
   * step i. The loop runs i from the last index down to 1.
   */
  method Shuffle<T>(a: array<T>, choices: seq<int>)
    requires ValidChoices(choices, a.Length)
    modifies a
    ensures a[..] == Shuffled(old(a[..]), choices)
    ensures multiset(a[..]) == multiset(old(a[..]))
  {
    ShuffledPermutes(a[..], choices);
    if a.Length < 2 {
      return;
    }
    ghost var original := a[..];
    var i := a.Length - 1;
    while i > 0
      invariant 0 <= i < a.Length
      invariant ShuffledFrom(a[..], choices, i) == ShuffledFrom(original, choices, a.Length - 1)
    {
      var j := choices[i];
      ghost var before := a[..];
      var temp := a[i];
      a[i] := a[j];
      a[j] := temp;
      assert a[..] == Swap(before, i, j);
      i := i - 1;
    }
  }
}
