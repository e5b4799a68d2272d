// The recent-search list of the weather dashboard: most recent first, no
// name twice, at most five names. After every successful lookup the name
// the provider resolved is moved to the front and the list is cut to five.

module History {

  /** How many names the list keeps (the `slice(0, 5)` of the updater). */
  const Capacity: nat := 5

  predicate NoDuplicates(s: seq<string>) {
    forall i, j :: 0 <= i < j < |s| ==> s[i] != s[j]
  }

  /** `s` is obtained from `t` by deleting entries, so the entries of `s`
      appear in `t` in the same relative order. */
  ghost predicate IsSubsequence(s: seq<string>, t: seq<string>)
    decreases |t|
  {
    s == [] ||
    (t != [] &&
     ((s[0] == t[0] && IsSubsequence(s[1..], t[1..])) || IsSubsequence(s, t[1..])))
  }

  /** The first `n` entries of `s`, or all of them when there are fewer,
      as JavaScript's `slice(0, n)` gives them. */
  function Take(s: seq<string>, n: nat): (r: seq<string>)
    ensures |r| <= n && |r| <= |s|
    ensures |s| <= n ==> r == s
    ensures n <= |s| ==> |r| == n
    ensures forall i :: 0 <= i < |r| ==> r[i] == s[i]
  {
    if |s| <= n then s else s[..n]
  }

  /** The entries of `s` other than `x`, in their order: the array
      `filter((c) => c !== x)`. */
  function Without(s: seq<string>, x: string): (r: seq<string>)
    ensures x !in r
    ensures forall y :: y in r <==> y in s && y != x
    ensures |r| <= |s|
    ensures x !in s ==> r == s
    ensures NoDuplicates(s) ==> NoDuplicates(r)
    decreases |s|
  {
    if s == [] then []
    else if s[0] == x then Without(s[1..], x)
    else
      var rest := Without(s[1..], x);
      assert NoDuplicates(s) ==> s[0] !in rest by {
        if NoDuplicates(s) { HeadNotInTail(s); }
      }
      [s[0]] + rest
  }

  lemma HeadNotInTail(s: seq<string>)
    requires NoDuplicates(s) && s != []
    ensures s[0] !in s[1..]
  {
  }

  /** The history after a successful lookup that resolved to `name`:
      `name` in front, every earlier occurrence of it dropped, cut to
      `Capacity` entries. */
  function Push(prev: seq<string>, name: string): (r: seq<string>)
    ensures 1 <= |r| <= Capacity
    ensures r[0] == name
    ensures name !in r[1..]
    ensures forall y :: y in r ==> y == name || y in prev
    ensures NoDuplicates(prev) ==> NoDuplicates(r)
  {
    Take([name] + Without(prev, name), Capacity)
  }

  /** The history after a session of successful lookups, oldest first,
      starting from the empty list the component is created with. */
  function Replayed(names: seq<string>): seq<string>
    decreases |names|
  {
    if names == [] then []
    else Push(Replayed(names[..|names| - 1]), names[|names| - 1])
  }

  // ---------------------------------------------------------------------
  // Lemmas about Without

  lemma {:induction false} WithoutIsSubsequence(s: seq<string>, x: string)
    ensures IsSubsequence(Without(s, x), s)
    decreases |s|
  {
    if s != [] {
      WithoutIsSubsequence(s[1..], x);
      if s[0] != x {
        var r := Without(s, x);
        assert r[0] == s[0] && r[1..] == Without(s[1..], x);
      }
    }
  }

  /** Every other name keeps its number of occurrences; `x` has none left. */
  lemma {:induction false} WithoutCounts(s: seq<string>, x: string)
    ensures multiset(Without(s, x)) == multiset(s)[x := 0]
    decreases |s|
  {
    if s != [] {
      WithoutCounts(s[1..], x);
      assert s == [s[0]] + s[1..];
    }
  }

  lemma {:induction false} PrefixIsSubsequence(s: seq<string>, t: seq<string>, k: nat)
    requires IsSubsequence(s, t)
    requires k <= |s|
    ensures IsSubsequence(s[..k], t)
    decreases |t|
  {
    if k > 0 {
      if s[0] == t[0] && IsSubsequence(s[1..], t[1..]) {
        PrefixIsSubsequence(s[1..], t[1..], k - 1);
        assert s[..k][1..] == s[1..][..k - 1];
      } else {
        PrefixIsSubsequence(s, t[1..], k);
      }
    }
  }

  /** Removing a name that occurs exactly once shortens the list by one. */
  lemma {:induction false} WithoutRemovesOne(s: seq<string>, x: string)
    requires NoDuplicates(s)
    requires x in s
    ensures |Without(s, x)| == |s| - 1
    decreases |s|
  {
    if s[0] == x {
      HeadNotInTail(s);
    } else {
      assert x in s[1..] by {
        var i :| 0 <= i < |s| && s[i] == x;
        assert s[1..][i - 1] == x;
      }
      WithoutRemovesOne(s[1..], x);
    }
  }

  // ---------------------------------------------------------------------
  // Properties of the history update

  /** The names kept from the old history keep their relative order. */
  lemma PushKeepsOrder(prev: seq<string>, name: string)
    ensures IsSubsequence(Push(prev, name)[1..], prev)
  {
    var rest := Without(prev, name);
    var r := Push(prev, name);
    assert r[1..] == rest[..|r| - 1];
    WithoutIsSubsequence(prev, name);
    PrefixIsSubsequence(rest, prev, |r| - 1);
  }

  /** Looking up the same city twice in a row gives the list of one lookup. */
  lemma PushIdempotent(prev: seq<string>, name: string)
    ensures Push(Push(prev, name), name) == Push(prev, name)
  {
  }

  /** Re-inserting the name already at the head of a well-formed history
      leaves it as it was. */
  lemma PushHeadUnchanged(h: seq<string>, name: string)
    requires NoDuplicates(h) && |h| <= Capacity
    requires h != [] && h[0] == name
    ensures Push(h, name) == h
  {
  }

  /** A city already in a well-formed history is moved to the front: no
      entry is evicted and none is added. */
  lemma PushExistingReorders(prev: seq<string>, name: string)
    requires NoDuplicates(prev) && |prev| <= Capacity
    requires name in prev
    ensures |Push(prev, name)| == |prev|
    ensures forall y :: y in Push(prev, name) <==> y in prev
  {
    WithoutRemovesOne(prev, name);
  }

  /** A city not yet in the history is prepended to the first four old
      names. For a history of at most `Capacity` names this evicts only the
      oldest entry, and only when the list was full. */
  lemma PushNewPrepends(prev: seq<string>, name: string)
    requires name !in prev
    ensures Push(prev, name) == [name] + Take(prev, Capacity - 1)
  {
  }

  /** Every history a session can produce is duplicate-free and holds at
      most `Capacity` names, most recent first. */
  lemma {:induction false} ReplayedWellFormed(names: seq<string>)
    ensures NoDuplicates(Replayed(names))
    ensures |Replayed(names)| <= Capacity
    ensures names != [] ==> Replayed(names)[0] == names[|names| - 1]
    decreases |names|
  {
    if names != [] {
      ReplayedWellFormed(names[..|names| - 1]);
    }
  }

  /** Six successful lookups, one name repeated: the oldest is evicted
      and the repeated name is not listed twice. */
  lemma ExampleSession()
    ensures Replayed(["Paris", "Tokyo", "Paris", "Rome", "Berlin", "Madrid"])
         == ["Madrid", "Berlin", "Rome", "Paris", "Tokyo"]
  {
    var s := ["Paris", "Tokyo", "Paris", "Rome", "Berlin", "Madrid"];
    var h4, h5 := ["Rome", "Paris", "Tokyo"], ["Berlin", "Rome", "Paris", "Tokyo"];
    assert Replayed(s[..3]) == ["Paris", "Tokyo"] by {
      assert s[..3] == ["Paris", "Tokyo", "Paris"];
      ExampleSessionStart();
    }
    assert Replayed(s[..4]) == h4 by {
      assert s[..4][..3] == s[..3];
      PushNewPrepends(["Paris", "Tokyo"], "Rome");
    }
    assert Replayed(s[..5]) == h5 by {
      assert s[..5][..4] == s[..4];
      PushNewPrepends(h4, "Berlin");
    }
    assert s[..5] == s[..|s| - 1];
    PushNewPrepends(h5, "Madrid");
  }

  /** The first three lookups of ExampleSession: the repeated name moves
      back to the front. */
  lemma ExampleSessionStart()
    ensures Replayed(["Paris", "Tokyo", "Paris"]) == ["Paris", "Tokyo"]
  {
    var s := ["Paris", "Tokyo", "Paris"];
    var h1, h2 := ["Paris"], ["Tokyo", "Paris"];
    assert Replayed(s[..1]) == h1 by {
      assert s[..1][..0] == [];
      PushNewPrepends([], "Paris");
    }
    assert Replayed(s[..2]) == h2 by {
      assert s[..2][..1] == s[..1];
      PushNewPrepends(h1, "Tokyo");
    }
    assert s[..2] == s[..|s| - 1];
    assert Without(h2, "Paris") == ["Tokyo"] + Without(["Paris"], "Paris");
  }
}
