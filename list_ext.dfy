/**
 * List extension helpers: joining a list into one delimited text, and the
 * in-place Fisher-Yates style shuffle.
 */
module ListExt {
  import opened Wrappers
  import Text

  /** The delimiter every caller of `ToDelimitedList` relies on by default. */
  const DefaultDelimiter: char := '|'

  /**
   * `ToDelimitedList`: null for a null or empty list, otherwise the elements joined
   * with the delimiter. The `IList` overload casts to a collection and lands here too,
   * so both overloads are this one function.
   */
  function ToDelimitedList(list: Option<seq<string>>, d: char): (r: Option<string>)
    ensures r.None? <==> list.None? || |list.value| == 0
    ensures r.Some? ==> r.value == Text.Join(list.value, d)
    ensures r.Some? && |list.value| == 1 ==> r.value == list.value[0]
    ensures r.Some? ==> Text.StartsWith(r.value, list.value[0])
  {
    if list.None? || |list.value| == 0 then None
    else
      Text.JoinStartsWith(list.value, d);
      Some(Text.Join(list.value, d))
  }

  /** With delimiter-free elements, the joined text holds exactly one delimiter fewer than there are elements. */
  lemma DelimitedListDelimiters(list: seq<string>, d: char)
    requires |list| > 0 && Text.FreeOf(list, d)
    ensures ToDelimitedList(Some(list), d).Some?
    ensures Text.Count(ToDelimitedList(Some(list), d).value, d) == |list| - 1
  {
    Text.JoinCount(list, d);
  }

  /** `s` with the cells at `i` and `j` exchanged. */
  function Swap<T>(s: seq<T>, i: nat, j: nat): (r: seq<T>)
    requires i < |s| && j < |s|
    ensures |r| == |s| && r[i] == s[j] && r[j] == s[i]
    ensures forall m :: 0 <= m < |s| && m != i && m != j ==> r[m] == s[m]
  {
    s[i := s[j]][j := s[i]]
  }

  lemma SwapMultiset<T>(s: seq<T>, i: nat, j: nat)
    requires i < |s| && j < |s|
    ensures multiset(Swap(s, i, j)) == multiset(s)
  {
    var t := s[i := s[j]];
    assert multiset(t) == multiset(s) - multiset{s[i]} + multiset{s[j]};
    assert multiset(t[j := s[i]]) == multiset(t) - multiset{t[j]} + multiset{s[i]};
  }

  /**
   * The list `Shuffle` leaves when the first `n` cells are still to be shuffled:
   * while `n > 1`, the draw `k = draw(n) % n` is swapped with the last open cell `n - 1`.
   * `draw(n)` stands for the random number drawn when `n` cells remain.
   */
  function Shuffled<T>(s: seq<T>, n: nat, draw: nat -> nat): (r: seq<T>)
    requires n <= |s|
    ensures |r| == |s|
    decreases n
  {
    if n <= 1 then s
    else Shuffled(Swap(s, draw(n) % n, n - 1), n - 1, draw)
  }

  /** Shuffling is a permutation: same elements with the same multiplicities. */
  lemma {:induction false} ShuffledPermutation<T>(s: seq<T>, n: nat, draw: nat -> nat)
    requires n <= |s|
    ensures multiset(Shuffled(s, n, draw)) == multiset(s)
    decreases n
  {
    if n > 1 {
      SwapMultiset(s, draw(n) % n, n - 1);
      ShuffledPermutation(Swap(s, draw(n) % n, n - 1), n - 1, draw);
    }
  }

  /** A list of at most one element comes back unchanged, whatever is drawn. */
  lemma ShuffledShort<T>(s: seq<T>, draw: nat -> nat)
    requires |s| <= 1
    ensures Shuffled(s, |s|, draw) == s
  {
  }

  /** Cells past the open prefix are never touched again. */
  lemma {:induction false} ShuffledKeepsSuffix<T>(s: seq<T>, n: nat, draw: nat -> nat)
    requires n <= |s|
    ensures Shuffled(s, n, draw)[n..] == s[n..]
    decreases n
  {
    if n > 1 {
      var t := Swap(s, draw(n) % n, n - 1);
      ShuffledKeepsSuffix(t, n - 1, draw);
      assert t[n..] == s[n..];
    }
  }

  /** `Shuffle`: shuffles `a` in place; the outcome is `Shuffled` of the old contents. */
  method Shuffle<T>(a: array<T>, draw: nat -> nat)
    modifies a
    ensures a[..] == Shuffled(old(a[..]), a.Length, draw)
    ensures multiset(a[..]) == multiset(old(a[..]))
  {
    var n := a.Length;
    while n > 1
      invariant 0 <= n <= a.Length
      invariant Shuffled(a[..], n, draw) == Shuffled(old(a[..]), a.Length, draw)
    {
      var k := draw(n) % n;
      assert 0 <= k < n;
      n := n - 1;
      ghost var before := a[..];
      var value := a[k];
      a[k] := a[n];
      a[n] := value;
      assert a[..] == Swap(before, k, n);
    }
    ShuffledPermutation(old(a[..]), a.Length, draw);
  }
}
