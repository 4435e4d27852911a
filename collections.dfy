/**
 * Insertion-ordered dictionary keys. Assigning d[k] = v to a Python dict
 * appends k to the key order unless k is already a key; iterating the dict
 * visits its keys in that order.
 */
module Collections {
  /** The key order after assigning to key k. */
  function InsertKey<T(==)>(keys: seq<T>, k: T): seq<T> {
    if k in keys then keys else keys + [k]
  }

  /** The key order of a dict after assigning to each element of s in turn. */
  function Dedup<T(==)>(s: seq<T>): seq<T> {
    if s == [] then [] else InsertKey(Dedup(s[..|s| - 1]), s[|s| - 1])
  }

  predicate NoDup<T(==)>(s: seq<T>) {
    forall i, j :: 0 <= i < j < |s| ==> s[i] != s[j]
  }

  /** The dict's keys are exactly the assigned values, each once. */
  lemma {:induction false} DedupSound<T>(s: seq<T>)
    ensures NoDup(Dedup(s))
    ensures forall x :: x in Dedup(s) <==> x in s
  {
    if s != [] {
      var init, last := s[..|s| - 1], s[|s| - 1];
      DedupSound(init);
      SnocSplit(s);
      forall x ensures x in s <==> x in init || x == last {
      }
    }
  }

  /** Dedup of an extended sequence, one step. */
  lemma DedupSnoc<T>(s: seq<T>, x: T)
    ensures Dedup(s + [x]) == InsertKey(Dedup(s), x)
  {
    assert (s + [x])[..|s|] == s;
  }

  /** One more element of hs assigned after all of done and the first i of hs. */
  lemma DedupPrefixStep<T>(done: seq<T>, hs: seq<T>, i: nat)
    requires i < |hs|
    ensures Dedup(done + hs[..i + 1]) == InsertKey(Dedup(done + hs[..i]), hs[i])
  {
    assert done + hs[..i + 1] == (done + hs[..i]) + [hs[i]];
    DedupSnoc(done + hs[..i], hs[i]);
  }

  /** A non-empty sequence is its front and its last element. */
  lemma SnocSplit<T>(s: seq<T>)
    requires s != []
    ensures s[..|s| - 1] + [s[|s| - 1]] == s
  {
  }

  /** A prefix one longer is the prefix and the next element. */
  lemma TakeSnoc<T>(s: seq<T>, k: nat)
    requires k < |s|
    ensures s[..k + 1] == s[..k] + [s[k]]
  {
  }

  /** The groups' elements, group by group. */
  function Flatten<T>(groups: seq<seq<T>>): seq<T> {
    if groups == [] then [] else Flatten(groups[..|groups| - 1]) + groups[|groups| - 1]
  }

  lemma {:induction false} FlattenMembers<T>(groups: seq<seq<T>>, x: T)
    ensures x in Flatten(groups) <==> exists k :: 0 <= k < |groups| && x in groups[k]
  {
    if groups != [] {
      var init, last := groups[..|groups| - 1], groups[|groups| - 1];
      FlattenMembers(init, x);
      assert x in Flatten(init) + last <==> x in Flatten(init) || x in last;
      if exists k :: 0 <= k < |groups| && x in groups[k] {
        var k :| 0 <= k < |groups| && x in groups[k];
        if k < |init| {
          assert init[k] == groups[k];
        }
      }
      if exists k :: 0 <= k < |init| && x in init[k] {
        var k :| 0 <= k < |init| && x in init[k];
        assert groups[k] == init[k];
      }
    }
  }
}
