/** `shuffle` and `randomizeAnswerPositions` of src/lib/utils.ts.

    Unlike the retry loops, the shuffle indexes its draws by array position:
    `rand(i)` is the draw made for position `i`, so for an array of length n the
    first draw taken is `rand(n - 1)` and the last is `rand(1)`. */
module Utils {
  import opened Random

  /** `Math.floor(Math.random() * (i + 1))`: the position swapped with `i`,
      where `rand(i)` is the draw made for position `i`. */
  function SwapIndex(rand: nat -> real, i: nat): int {
    (rand(i) * (i + 1) as real).Floor
  }

  lemma SwapIndexInRange(rand: nat -> real, i: nat)
    requires Draws(rand)
    ensures 0 <= SwapIndex(rand, i) <= i
  {
    assert 0.0 <= rand(i) * (i + 1) as real < (i + 1) as real;
  }

  /** A choice of swap partner for every position, each at or below it. */
  ghost predicate ValidPicks(pick: nat -> int) {
    forall k: nat :: 0 <= pick(k) <= k
  }

  function Picks(rand: nat -> real): nat -> int {
    (k: nat) => SwapIndex(rand, k)
  }

  lemma PicksValid(rand: nat -> real)
    requires Draws(rand)
    ensures ValidPicks(Picks(rand))
  {
    forall k: nat
      ensures 0 <= Picks(rand)(k) <= k
    {
      SwapIndexInRange(rand, k);
    }
  }

  /** `[a[i], a[j]] = [a[j], a[i]]` on a sequence. */
  function Swap<T>(s: seq<T>, i: nat, j: nat): (r: seq<T>)
    requires i < |s| && j < |s|
    ensures |r| == |s| && r[i] == s[j] && r[j] == s[i]
    ensures forall k :: 0 <= k < |s| && k != i && k != j ==> r[k] == s[k]
  {
    s[i := s[j]][j := s[i]]
  }

  lemma SwapPermutes<T>(s: seq<T>, i: nat, j: nat)
    requires i < |s| && j < |s|
    ensures multiset(Swap(s, i, j)) == multiset(s)
  {
    assert multiset(s[i := s[j]]) == multiset(s) - multiset{s[i]} + multiset{s[j]};
  }

  /** The passes of the Fisher-Yates loop from position `i` down to 1. */
  function ShuffleWith<T>(s: seq<T>, i: nat, pick: nat -> int): (r: seq<T>)
    requires i < |s| && ValidPicks(pick)
    ensures |r| == |s|
    decreases i
  {
    if i == 0 then s
    else ShuffleWith(Swap(s, i, pick(i)), i - 1, pick)
  }

  /** What `shuffle(arr)` returns for the draws `rand`. */
  function Shuffled<T>(s: seq<T>, rand: nat -> real): (r: seq<T>)
    requires Draws(rand)
    ensures |r| == |s|
  {
    PicksValid(rand);
    if |s| == 0 then s else ShuffleWith(s, |s| - 1, Picks(rand))
  }

  lemma {:induction false} ShuffleWithPermutes<T>(s: seq<T>, i: nat, pick: nat -> int)
    requires i < |s| && ValidPicks(pick)
    ensures multiset(ShuffleWith(s, i, pick)) == multiset(s)
    decreases i
  {
    if i > 0 {
      SwapPermutes(s, i, pick(i));
      ShuffleWithPermutes(Swap(s, i, pick(i)), i - 1, pick);
    }
  }

  /** The shuffled copy holds exactly the same elements, as often. */
  lemma ShuffledPermutes<T>(s: seq<T>, rand: nat -> real)
    requires Draws(rand)
    ensures multiset(Shuffled(s, rand)) == multiset(s)
  {
    PicksValid(rand);
    if |s| > 0 {
      ShuffleWithPermutes(s, |s| - 1, Picks(rand));
    }
  }

  function Mapped<T, U>(s: seq<T>, f: T -> U): (r: seq<U>)
    ensures |r| == |s| && forall k :: 0 <= k < |s| ==> r[k] == f(s[k])
  {
    seq(|s|, k requires 0 <= k < |s| => f(s[k]))
  }

  /** Shuffling commutes with mapping every element: the positions depend only
      on the draws, never on the elements. */
  lemma {:induction false} ShuffleWithMap<T, U>(s: seq<T>, f: T -> U, i: nat, pick: nat -> int)
    requires i < |s| && ValidPicks(pick)
    ensures ShuffleWith(Mapped(s, f), i, pick) == Mapped(ShuffleWith(s, i, pick), f)
    decreases i
  {
    if i > 0 {
      var j := pick(i);
      assert Swap(Mapped(s, f), i, j) == Mapped(Swap(s, i, j), f);
      ShuffleWithMap(Swap(s, i, j), f, i - 1, pick);
    }
  }

  lemma ShuffledMap<T, U>(s: seq<T>, f: T -> U, rand: nat -> real)
    requires Draws(rand)
    ensures Shuffled(Mapped(s, f), rand) == Mapped(Shuffled(s, rand), f)
  {
    PicksValid(rand);
    if |s| > 0 {
      ShuffleWithMap(s, f, |s| - 1, Picks(rand));
    }
  }

  /** `shuffle(arr)`: a fresh array holding the shuffled elements; `arr` is left
      as it was. */
  method Shuffle<T>(arr: array<T>, rand: nat -> real) returns (a: array<T>)
    requires Draws(rand)
    ensures fresh(a)
    ensures a[..] == Shuffled(arr[..], rand)
    ensures arr[..] == old(arr[..])
  {
    PicksValid(rand);
    a := Copy(arr);
    var i := a.Length - 1;
    while i > 0
      invariant a.Length == arr.Length
      invariant a.Length == 0 || (0 <= i < a.Length && ShuffleWith(a[..], i, Picks(rand)) == Shuffled(arr[..], rand))
      invariant a.Length == 0 ==> a[..] == arr[..]
      modifies a
    {
      var j := SwapIndex(rand, i);
      assert j == Picks(rand)(i);
      SwapAt(a, i, j);
      i := i - 1;
    }
  }

  /** `[...array]`. */
  method Copy<T>(arr: array<T>) returns (a: array<T>)
    ensures fresh(a) && a[..] == arr[..]
  {
    a := new T[arr.Length](k reads arr requires 0 <= k < arr.Length => arr[k]);
    assert a[..] == arr[..];
  }

  /** `[a[i], a[j]] = [a[j], a[i]]`. */
  method SwapAt<T>(a: array<T>, i: nat, j: nat)
    requires i < a.Length && j < a.Length
    modifies a
    ensures a[..] == Swap(old(a[..]), i, j)
  {
    a[i], a[j] := a[j], a[i];
  }

  /** Arrays of fewer than two elements come back as an equal copy. */
  lemma ShortUnchanged<T>(s: seq<T>, rand: nat -> real)
    requires Draws(rand) && |s| <= 1
    ensures Shuffled(s, rand) == s
  {
  }

  /** A quiz question: its options, the index of the right one, and every other
      field, which the spread copies unchanged. */
  datatype Question<X> = Question(options: seq<string>, correctIndex: int, rest: X)

  /** `[0, 1, ..., n - 1]`. */
  function Range(n: nat): (r: seq<int>)
    ensures |r| == n && forall k :: 0 <= k < n ==> r[k] == k
  {
    seq(n, k => k)
  }

  /** `indexOf`: the first position holding `x`, or -1. */
  function IndexOf(s: seq<int>, x: int): (r: int)
    ensures -1 <= r < |s|
    ensures r >= 0 ==> s[r] == x && forall k :: 0 <= k < r ==> s[k] != x
    ensures r == -1 <==> x !in s
  {
    if |s| == 0 then -1
    else if s[0] == x then 0
    else var t := IndexOf(s[1..], x); if t == -1 then -1 else t + 1
  }

  /** `shuffledIndices.map(i => question.options[i])`. */
  function Pick(options: seq<string>, indices: seq<int>): (r: seq<string>)
    requires forall k :: 0 <= k < |indices| ==> 0 <= indices[k] < |options|
    ensures |r| == |indices| && forall k :: 0 <= k < |indices| ==> r[k] == options[indices[k]]
  {
    seq(|indices|, k requires 0 <= k < |indices| => options[indices[k]])
  }

  /** A shuffle of `[0, ..., n - 1]` holds each index once. */
  lemma ShuffledRange(n: nat, rand: nat -> real)
    requires Draws(rand)
    ensures |Shuffled(Range(n), rand)| == n
    ensures forall k :: 0 <= k < n ==> 0 <= Shuffled(Range(n), rand)[k] < n
    ensures forall x :: 0 <= x < n ==> x in Shuffled(Range(n), rand)
  {
    var s := Shuffled(Range(n), rand);
    ShuffledPermutes(Range(n), rand);
    forall k | 0 <= k < n
      ensures 0 <= s[k] < n
    {
      assert s[k] in multiset(s);
      assert s[k] in Range(n);
    }
    forall x | 0 <= x < n
      ensures x in s
    {
      assert Range(n)[x] == x;
      assert x in multiset(Range(n));
    }
  }

  /** What `randomizeAnswerPositions(question)` returns. */
  function Randomized<X>(q: Question<X>, rand: nat -> real): Question<X>
    requires Draws(rand)
  {
    var shuffledIndices := Shuffled(Range(|q.options|), rand);
    ShuffledRange(|q.options|, rand);
    Question(Pick(q.options, shuffledIndices), IndexOf(shuffledIndices, q.correctIndex), q.rest)
  }

  /** Index lookup into the options, as a total function. */
  function OptionAt(options: seq<string>): int -> string {
    k => if 0 <= k < |options| then options[k] else ""
  }

  lemma RangeMapsToOptions(options: seq<string>)
    ensures Mapped(Range(|options|), OptionAt(options)) == options
  {
  }

  lemma PickIsMapped(options: seq<string>, indices: seq<int>)
    requires forall k :: 0 <= k < |indices| ==> 0 <= indices[k] < |options|
    ensures Pick(options, indices) == Mapped(indices, OptionAt(options))
  {
  }

  /** The new options are `shuffle(options)` under the same draws. */
  lemma RandomizedOptions<X>(q: Question<X>, rand: nat -> real)
    requires Draws(rand)
    ensures Randomized(q, rand).options == Shuffled(q.options, rand)
  {
    var n := |q.options|;
    ShuffledRange(n, rand);
    RangeMapsToOptions(q.options);
    ShuffledMap(Range(n), OptionAt(q.options), rand);
    PickIsMapped(q.options, Shuffled(Range(n), rand));
  }

  /** The options are reordered by the same shuffle as `shuffle(options)`; the right
      answer moves with its option, or the index becomes -1 when it was out of
      range; every other field stays. */
  lemma RandomizedKeepsAnswer<X>(q: Question<X>, rand: nat -> real)
    requires Draws(rand)
    ensures var r := Randomized(q, rand);
      && r.rest == q.rest
      && r.options == Shuffled(q.options, rand)
      && multiset(r.options) == multiset(q.options)
      && (0 <= q.correctIndex < |q.options| ==>
            0 <= r.correctIndex < |r.options| && r.options[r.correctIndex] == q.options[q.correctIndex])
      && (!(0 <= q.correctIndex < |q.options|) ==> r.correctIndex == -1)
  {
    var n := |q.options|;
    var r := Randomized(q, rand);
    var idx := Shuffled(Range(n), rand);
    ShuffledRange(n, rand);
    RandomizedOptions(q, rand);
    ShuffledPermutes(q.options, rand);
    if 0 <= q.correctIndex < n {
      assert q.correctIndex in idx;
      var ci := IndexOf(idx, q.correctIndex);
      assert r.options[ci] == q.options[idx[ci]];
    } else {
      assert q.correctIndex !in idx;
    }
  }

  /** `randomizeAnswerPositions`, running the shuffle on an index array. */
  method RandomizeAnswerPositions<X>(q: Question<X>, rand: nat -> real) returns (r: Question<X>)
    requires Draws(rand)
    ensures r == Randomized(q, rand)
  {
    var indices := new int[|q.options|](k => k);
    assert indices[..] == Range(|q.options|);
    var shuffledIndices := Shuffle(indices, rand);
    ShuffledRange(|q.options|, rand);
    var shuffledOptions := Pick(q.options, shuffledIndices[..]);
    var newCorrectIndex := IndexOf(shuffledIndices[..], q.correctIndex);
    r := Question(shuffledOptions, newCorrectIndex, q.rest);
  }
}
