/** Counting and selecting the elements of a sequence that share a key. */
module Counting {
  function Count<T>(s: seq<T>, key: T -> nat, k: nat): nat {
    if s == [] then 0
    else Count(s[..|s| - 1], key, k) + (if key(s[|s| - 1]) == k then 1 else 0)
  }

  lemma CountStep<T>(s: seq<T>, x: T, key: T -> nat, k: nat)
    ensures Count(s + [x], key, k) == Count(s, key, k) + (if key(x) == k then 1 else 0)
  {
    assert (s + [x])[..|s|] == s;
  }

  lemma {:induction false} CountOfPrefix<T>(s: seq<T>, key: T -> nat, j: nat, k: nat)
    requires j <= |s|
    ensures Count(s[..j], key, k) <= Count(s, key, k)
  {
    if j == |s| {
      assert s[..j] == s;
    } else {
      var short := s[..|s| - 1];
      assert short[..j] == s[..j];
      CountOfPrefix(short, key, j, k);
    }
  }

  /** The count before an element is less than the count after it. */
  lemma {:induction false} CountGrows<T>(s: seq<T>, key: T -> nat, i: nat, j: nat)
    requires i < j <= |s|
    ensures Count(s[..i], key, key(s[i])) < Count(s[..j], key, key(s[i])) <= Count(s, key, key(s[i]))
  {
    var upTo := s[..i + 1];
    assert upTo[..i] == s[..i] && upTo[i] == s[i];
    assert s[..j][..i + 1] == upTo;
    CountOfPrefix(s[..j], key, i + 1, key(s[i]));
    CountOfPrefix(s, key, j, key(s[i]));
  }

  /** The elements with key `k`, in order. */
  function Select<T>(s: seq<T>, key: T -> nat, k: nat): seq<T> {
    if s == [] then []
    else Select(s[..|s| - 1], key, k) + (if key(s[|s| - 1]) == k then [s[|s| - 1]] else [])
  }

  lemma SelectStep<T>(s: seq<T>, x: T, key: T -> nat, k: nat)
    ensures Select(s + [x], key, k) == if key(x) == k then Select(s, key, k) + [x] else Select(s, key, k)
  {
    assert (s + [x])[..|s|] == s;
  }

  lemma {:induction false} SelectOfPrefix<T>(s: seq<T>, key: T -> nat, k: nat, i: nat)
    requires i <= |s|
    ensures Select(s[..i], key, k) <= Select(s, key, k)
  {
    if i == |s| {
      assert s[..i] == s;
    } else {
      var short := s[..|s| - 1];
      assert short[..i] == s[..i];
      SelectOfPrefix(short, key, k, i);
    }
  }

  /** Element `i` stands where the selection of the elements before it ends. */
  lemma {:induction false} Position<T>(s: seq<T>, key: T -> nat, k: nat, i: nat)
    requires i < |s| && key(s[i]) == k
    ensures Select(s[..i], key, k) + [s[i]] <= Select(s, key, k)
  {
    assert s[..i + 1] == s[..i] + [s[i]];
    SelectStep(s[..i], s[i], key, k);
    SelectOfPrefix(s, key, k, i + 1);
  }

  /** And every selected element stands somewhere. */
  lemma {:induction false} Locate<T>(s: seq<T>, key: T -> nat, k: nat, j: nat) returns (i: nat)
    requires j < |Select(s, key, k)|
    ensures i < |s| && key(s[i]) == k && s[i] == Select(s, key, k)[j]
    ensures Select(s[..i], key, k) == Select(s, key, k)[..j]
  {
    var n := |s| - 1;
    if j < |Select(s[..n], key, k)| {
      i := Locate(s[..n], key, k, j);
      assert s[..n][..i] == s[..i];
    } else {
      i := n;
    }
  }
}
