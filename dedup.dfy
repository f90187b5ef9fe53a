/**
 * First-seen-order deduplication of a stream of strings, as done with an
 * insertion-ordered `seen` dict by the extractors: empty strings are skipped
 * and a value already seen is dropped.
 */
module Dedup {

  /** One step of the collector: keep `x` when it is non-empty and new. */
  function AppendNew(acc: seq<string>, x: string): seq<string> {
    if x == "" || x in acc then acc else acc + [x]
  }

  /** The collector's state after consuming `xs`. */
  function UniqueNonEmpty(xs: seq<string>): seq<string>
    decreases |xs|
  {
    if xs == [] then [] else AppendNew(UniqueNonEmpty(xs[..|xs| - 1]), xs[|xs| - 1])
  }

  predicate NoDuplicates(r: seq<string>) {
    forall i, j :: 0 <= i < j < |r| ==> r[i] != r[j]
  }

  /** Index of the first occurrence of x in xs. */
  function FirstIndex(xs: seq<string>, x: string): (k: nat)
    requires x in xs
    ensures k < |xs| && xs[k] == x
    ensures forall j :: 0 <= j < k ==> xs[j] != x
  {
    if xs[0] == x then 0 else 1 + FirstIndex(xs[1..], x)
  }

  lemma {:induction false} FirstIndexInPrefix(xs: seq<string>, y: string, x: string)
    requires x in xs
    ensures x in xs + [y] && FirstIndex(xs + [y], x) == FirstIndex(xs, x)
  {
    var k := FirstIndex(xs, x);
    var k' := FirstIndex(xs + [y], x);
    assert (xs + [y])[k] == x;
    assert k' <= k;
    assert xs[k'] == x;
  }

  /** The collector keeps exactly the distinct non-empty values, each once. */
  lemma {:induction false} UniqueNonEmptyMembers(xs: seq<string>)
    ensures NoDuplicates(UniqueNonEmpty(xs))
    ensures forall x :: x in UniqueNonEmpty(xs) <==> x in xs && x != ""
    decreases |xs|
  {
    if xs != [] {
      var init := xs[..|xs| - 1];
      UniqueNonEmptyMembers(init);
      assert xs == init + [xs[|xs| - 1]];
    }
  }

  /** The collector's output is in first-occurrence order of the input. */
  lemma {:induction false} UniqueNonEmptyOrder(xs: seq<string>)
    ensures forall i, j :: 0 <= i < j < |UniqueNonEmpty(xs)| ==>
      UniqueNonEmpty(xs)[i] in xs && UniqueNonEmpty(xs)[j] in xs &&
      FirstIndex(xs, UniqueNonEmpty(xs)[i]) < FirstIndex(xs, UniqueNonEmpty(xs)[j])
    decreases |xs|
  {
    if xs != [] {
      var init := xs[..|xs| - 1];
      var y := xs[|xs| - 1];
      assert xs == init + [y];
      UniqueNonEmptyOrder(init);
      UniqueNonEmptyMembers(init);
      var u := UniqueNonEmpty(init);
      var r := UniqueNonEmpty(xs);
      assert r == AppendNew(u, y);
      assert r == u || (r == u + [y] && y !in init);
      forall i, j | 0 <= i < j < |r|
        ensures r[i] in xs && r[j] in xs && FirstIndex(xs, r[i]) < FirstIndex(xs, r[j])
      {
        assert r[i] == u[i] && r[i] in init;
        FirstIndexInPrefix(init, y, r[i]);
        assert FirstIndex(xs, r[i]) == FirstIndex(init, u[i]);
        if j < |u| {
          assert r[j] == u[j];
          FirstIndexInPrefix(init, y, r[j]);
          assert FirstIndex(init, u[i]) < FirstIndex(init, u[j]);
        } else {
          assert r[j] == y && y !in init;
          assert FirstIndex(xs, y) == |init|;
        }
      }
    } else {
      assert UniqueNonEmpty(xs) == [];
    }
  }

  /** Consuming one more value is one collector step. */
  lemma UniqueNonEmptySnoc(xs: seq<string>, x: string)
    ensures UniqueNonEmpty(xs + [x]) == AppendNew(UniqueNonEmpty(xs), x)
  {
    assert (xs + [x])[..|xs|] == xs;
  }

  lemma FirstSeenOrderExample()
    ensures UniqueNonEmpty(["", "A", "B", "A", "", "C", "B"]) == ["A", "B", "C"]
  {
    var s1: seq<string> := [""];
    var s2 := s1 + ["A"];
    var s3 := s2 + ["B"];
    var s4 := s3 + ["A"];
    var s5 := s4 + [""];
    var s6 := s5 + ["C"];
    var s7 := s6 + ["B"];
    UniqueNonEmptySnoc([], "");
    assert [] + [""] == s1;
    UniqueNonEmptySnoc(s1, "A");
    UniqueNonEmptySnoc(s2, "B");
    assert UniqueNonEmpty(s3) == ["A", "B"];
    UniqueNonEmptySnoc(s3, "A");
    assert "A" in UniqueNonEmpty(s3);
    UniqueNonEmptySnoc(s4, "");
    UniqueNonEmptySnoc(s5, "C");
    assert UniqueNonEmpty(s6) == ["A", "B", "C"];
    UniqueNonEmptySnoc(s6, "B");
    assert "B" in UniqueNonEmpty(s6);
    assert s7 == ["", "A", "B", "A", "", "C", "B"];
  }

  /** When x is the only non-empty value, the result is [x] if x occurs and [] if not. */
  lemma {:induction false} UniqueNonEmptySingle(xs: seq<string>, x: string)
    requires x != ""
    requires forall y :: y in xs ==> y == "" || y == x
    ensures UniqueNonEmpty(xs) == if x in xs then [x] else []
    decreases |xs|
  {
    if xs != [] {
      var init, last := xs[..|xs| - 1], xs[|xs| - 1];
      assert xs == init + [last];
      assert forall y :: y in init ==> y in xs;
      UniqueNonEmptySingle(init, x);
      assert x in xs <==> x in init || last == x;
      assert UniqueNonEmpty(xs) == AppendNew(UniqueNonEmpty(init), last);
      assert last in xs;
      if last != "" && x !in init {
        assert UniqueNonEmpty(init) + [last] == [x];
      }
    }
  }
}
