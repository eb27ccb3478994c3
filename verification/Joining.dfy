/** Facts about joining and splitting sequences. */
module Joining {
  function Concatenated<T>(pieces: seq<seq<T>>): seq<T> {
    if pieces == [] then [] else pieces[0] + Concatenated(pieces[1..])
  }

  lemma ConcatenatedPair<T>(first: seq<T>, second: seq<T>)
    ensures Concatenated([first, second]) == first + second
  {
    assert [first, second][1..] == [second] && [second][1..] == [];
    assert Concatenated([second]) == second + Concatenated([]);
    assert second + [] == second;
  }

  lemma JoinAssociates<T>(a: seq<T>, b: seq<T>, c: seq<T>)
    ensures (a + b) + c == a + (b + c)
  {
  }

  lemma EmptyHasNone<T>(s: seq<T>)
    ensures s == [] <==> forall x :: x !in s
  {
    if s != [] {
      assert s[0] in s;
    }
  }

  lemma SplitAround<T>(s: seq<T>, k: nat)
    requires k < |s|
    ensures s == s[..k] + [s[k]] + s[k + 1..]
  {
  }

  lemma SplitsAfter<T>(front: seq<T>, tail: seq<T>)
    ensures (front + tail)[..|front|] == front && (front + tail)[|front|..] == tail
  {
  }

  lemma SamePrefixCancels<T>(first: seq<T>, a: seq<T>, b: seq<T>)
    requires first + a == first + b
    ensures a == b
  {
    SplitsAfter(first, a);
    SplitsAfter(first, b);
  }
}
