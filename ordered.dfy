/**
 * Python's `sorted(d.keys())` for a dictionary keyed by integers: the keys
 * as a strictly ascending sequence.
 */
module Ordered {

  predicate StrictlyAscending(s: seq<int>) {
    forall i, j :: 0 <= i < j < |s| ==> s[i] < s[j]
  }

  /**
   * A set other than the empty set has a member. Dafny reaches this only
   * through set extensionality: were there no member, the set would equal `{}`.
   */
  lemma SomeMember(s: set<int>)
    requires s != {}
    ensures exists x :: x in s
  {
    if forall x :: x !in s {
      assert false;
    }
  }

  lemma {:induction false} LeastExists(s: set<int>)
    requires s != {}
    ensures exists m :: m in s && forall x :: x in s ==> m <= x
    decreases |s|
  {
    SomeMember(s);
    var y :| y in s;
    var rest := s - {y};
    if rest != {} {
      LeastExists(rest);
      var m :| m in rest && forall x :: x in rest ==> m <= x;
      var least := if y < m then y else m;
      forall x | x in s
        ensures least <= x
      {
        if x != y {
          assert x in rest;
        }
      }
      assert least in s;
    } else {
      forall x | x in s
        ensures y <= x
      {
        assert x !in rest;
      }
    }
  }

  /** The smallest element of a non-empty set. */
  function Least(s: set<int>): (m: int)
    requires s != {}
    ensures m in s && forall x :: x in s ==> m <= x
  {
    LeastExists(s);
    var m :| m in s && forall x :: x in s ==> m <= x;
    m
  }

  /** The elements of `s`, smallest first. */
  function SortedKeys(s: set<int>): seq<int>
    decreases |s|
  {
    if s == {} then []
    else
      var m := Least(s);
      [m] + SortedKeys(s - {m})
  }

  /** `SortedKeys` lists every element of `s` and nothing else. */
  lemma {:induction false} SortedKeysMembers(s: set<int>)
    ensures |SortedKeys(s)| == |s|
    ensures forall x :: x in SortedKeys(s) <==> x in s
    ensures forall k :: 0 <= k < |SortedKeys(s)| ==> SortedKeys(s)[k] in s
    decreases |s|
  {
    if s != {} {
      var m := Least(s);
      SortedKeysMembers(s - {m});
      var rest := SortedKeys(s - {m});
      assert SortedKeys(s) == [m] + rest;
    }
  }

  /** `SortedKeys` lists the elements of `s` in strictly ascending order, so each exactly once. */
  lemma SortedKeysSpec(s: set<int>)
    ensures |SortedKeys(s)| == |s|
    ensures forall x :: x in SortedKeys(s) <==> x in s
    ensures StrictlyAscending(SortedKeys(s))
  {
    SortedKeysMembers(s);
    SortedKeysAscending(s);
  }

  /** Each element `SortedKeys` lists is smaller than all those after it. */
  lemma {:induction false} SortedKeysAscending(s: set<int>)
    ensures StrictlyAscending(SortedKeys(s))
    decreases |s|
  {
    if s != {} {
      var m := Least(s);
      var rest := SortedKeys(s - {m});
      SortedKeysAscending(s - {m});
      SortedKeysMembers(s - {m});
      forall k | k in rest
        ensures m < k
      {
        assert k in s - {m};
      }
      AscendingCons(m, rest);
      assert SortedKeys(s) == [m] + rest;
    }
  }

  /** Two different positions of `SortedKeys` hold different elements. */
  lemma SortedKeysDistinct(s: set<int>, i: int, j: int)
    requires 0 <= i < j < |SortedKeys(s)|
    ensures SortedKeys(s)[i] < SortedKeys(s)[j]
  {
    SortedKeysSpec(s);
  }

  /** Every position of `SortedKeys(s)` holds an element of `s`. */
  lemma SortedKeysWithin(s: set<int>)
    ensures forall k :: 0 <= k < |SortedKeys(s)| ==> SortedKeys(s)[k] in s
  {
    SortedKeysMembers(s);
  }

  /** `SortedKeys` lists no element twice. */
  lemma SortedKeysDistinctAll(s: set<int>)
    ensures forall i, j :: 0 <= i < j < |SortedKeys(s)| ==> SortedKeys(s)[i] != SortedKeys(s)[j]
  {
    SortedKeysSpec(s);
  }

  /** Putting an element below all others in front keeps a sequence ascending. */
  lemma AscendingCons(x: int, s: seq<int>)
    requires StrictlyAscending(s)
    requires forall k :: k in s ==> x < k
    ensures StrictlyAscending([x] + s)
  {
    forall i, j | 0 <= i < j < |s| + 1
      ensures ([x] + s)[i] < ([x] + s)[j]
    {
      assert ([x] + s)[j] == s[j - 1];
      assert s[j - 1] in s;
      if i > 0 {
        assert ([x] + s)[i] == s[i - 1];
      }
    }
  }

  lemma AscendingPrefix(s: seq<int>, n: nat)
    requires StrictlyAscending(s) && n <= |s|
    ensures StrictlyAscending(s[..n])
  {
  }

  /** Appending an element above all others keeps a sequence ascending. */
  lemma AscendingAppend(s: seq<int>, x: int)
    requires StrictlyAscending(s)
    requires forall k :: k in s ==> k < x
    ensures StrictlyAscending(s + [x])
  {
    forall i, j | 0 <= i < j < |s| + 1
      ensures (s + [x])[i] < (s + [x])[j]
    {
      if j == |s| {
        assert s[i] in s;
      }
    }
  }
}
