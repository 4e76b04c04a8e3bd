/**
 * Import aggregation: `getImports` finds the import line a field's type needs,
 * and `removeDuplicates` drops repeated import lines, keeping the first of each.
 */
module Imports {
  import opened Schema
  import opened TypeTable

  /**
   * `getImports`: looks through the wrapper layers to the named type and
   * returns its import line from the scalar table (which may be ""), or
   * nothing for a name the table does not hold.
   */
  function ImportsOf(t: GqlType): (r: seq<string>)
    ensures |r| <= 1
    ensures BaseName(t) in InternalTypeConfig ==> r == [InternalTypeConfig[BaseName(t)].importPath]
    ensures BaseName(t) !in InternalTypeConfig ==> r == []
  {
    match t
    case Named(n, _) => if n in InternalTypeConfig then [InternalTypeConfig[n].importPath] else []
    case List(x) => ImportsOf(x)
    case NonNull(x) => ImportsOf(x)
  }

  /** Worked examples: ID needs the graphql-go import, the other scalars an empty line, objects nothing. */
  lemma ImportsFixtures()
    ensures ImportsOf(NonNull(Named("ID", Scalar))) == ["graphql \"github.com/neelance/graphql-go\""]
    ensures ImportsOf(List(NonNull(Named("ID", Scalar)))) == ["graphql \"github.com/neelance/graphql-go\""]
    ensures ImportsOf(Named("String", Scalar)) == [""]
    ensures ImportsOf(Named("Int", Scalar)) == [""]
    ensures ImportsOf(Named("Float", Scalar)) == [""]
    ensures ImportsOf(Named("Boolean", Scalar)) == [""]
    ensures ImportsOf(NonNull(List(Named("Post", Object)))) == []
  {
  }

  /** No element occurs twice. */
  predicate NoDup<T(==)>(s: seq<T>) {
    forall i, j :: 0 <= i < j < |s| ==> s[i] != s[j]
  }

  /**
   * The elements of `s` in order of first occurrence, each once: the value
   * `removeDuplicates` computes.
   */
  function Dedup(s: seq<string>): (r: seq<string>)
    ensures NoDup(r)
    ensures forall x :: x in r <==> x in s
    ensures |r| <= |s|
  {
    if |s| == 0 then []
    else
      var d := Dedup(s[..|s| - 1]);
      if s[|s| - 1] in d then d else d + [s[|s| - 1]]
  }

  /** The index of the first occurrence of `x` in `s`. */
  function FirstIndex<T(==)>(s: seq<T>, x: T): (k: nat)
    requires x in s
    ensures k < |s| && s[k] == x && x !in s[..k]
  {
    if s[0] == x then 0
    else
      assert x in s[1..];
      var k := 1 + FirstIndex(s[1..], x);
      assert s[..k] == [s[0]] + s[1..][..k - 1];
      k
  }

  /** Extending a sequence does not move the first occurrence of an element it already held. */
  lemma FirstIndexPrefix(s: seq<string>, m: nat, x: string)
    requires m <= |s| && x in s[..m]
    ensures FirstIndex(s, x) == FirstIndex(s[..m], x)
  {
    var k := FirstIndex(s[..m], x);
    assert s[..m][..k] == s[..k];
  }

  /**
   * `Dedup` keeps first-occurrence order: the first occurrences in `s` of the
   * elements of `Dedup(s)` are strictly increasing, so `Dedup(s)` is the
   * subsequence of `s` at those indices.
   */
  lemma {:induction false} DedupKeepsFirstOccurrenceOrder(s: seq<string>)
    ensures forall i, j :: 0 <= i < j < |Dedup(s)| ==> FirstIndex(s, Dedup(s)[i]) < FirstIndex(s, Dedup(s)[j])
  {
    if |s| > 0 {
      var n := |s| - 1;
      var s', r, r' := s[..n], Dedup(s), Dedup(s[..n]);
      DedupKeepsFirstOccurrenceOrder(s');
      forall i | 0 <= i < |r'|
        ensures FirstIndex(s, r'[i]) == FirstIndex(s', r'[i]) < n
      {
        FirstIndexPrefix(s, n, r'[i]);
      }
      if s[n] !in r' {
        assert s[..n] == s';
        assert FirstIndex(s, s[n]) == n;
        forall i, j | 0 <= i < j < |r|
          ensures FirstIndex(s, r[i]) < FirstIndex(s, r[j])
        {
          if j < |r'| {
            assert r[i] == r'[i] && r[j] == r'[j];
          } else {
            assert r[i] == r'[i] && r[j] == s[n];
          }
        }
      }
    }
  }

  /** A sequence without repetitions is its own deduplication. */
  lemma {:induction false} DedupOfNoDup(s: seq<string>)
    requires NoDup(s)
    ensures Dedup(s) == s
  {
    if |s| > 0 {
      var n := |s| - 1;
      assert NoDup(s[..n]);
      DedupOfNoDup(s[..n]);
      assert s[n] !in s[..n];
      assert s[..n] + [s[n]] == s;
    }
  }

  /** Removing duplicates twice is the same as once. */
  lemma DedupIdempotent(s: seq<string>)
    ensures Dedup(Dedup(s)) == Dedup(s)
  {
    DedupOfNoDup(Dedup(s));
  }

  /**
   * `removeDuplicates`: a loop that appends each element not yet in `seen` to
   * `result` and records it in `seen`.
   */
  method RemoveDuplicates(a: seq<string>) returns (result: seq<string>)
    ensures result == Dedup(a)
  {
    result := [];
    var seen: map<string, string> := map[];
    for i := 0 to |a|
      invariant result == Dedup(a[..i])
      invariant forall x :: x in seen <==> x in result
    {
      assert a[..i + 1][..i] == a[..i];
      if a[i] !in seen {
        result := result + [a[i]];
        seen := seen[a[i] := a[i]];
      }
    }
    assert a[..|a|] == a;
  }
}
