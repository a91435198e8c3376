/**
 * The prediction pages explain a result with a fixed list of rules, each a
 * reason and the condition under which the page appends it. A rule table is
 * that list: `(reason, condition holds)` pairs in the order the page tests
 * them.
 */
module Rules {

  /** The reasons of the first `n` rules whose condition holds, in table order. */
  function FiredUpTo<T(==,!new)>(rules: seq<(T, bool)>, n: nat): (r: seq<T>)
    requires n <= |rules|
    ensures forall x :: x in r <==> exists i :: 0 <= i < n && rules[i] == (x, true)
    ensures |r| <= n
  {
    if n == 0 then []
    else FiredUpTo(rules, n - 1) + (if rules[n - 1].1 then [rules[n - 1].0] else [])
  }

  /** The reasons of every rule whose condition holds, in table order. */
  function Fired<T(==,!new)>(rules: seq<(T, bool)>): seq<T> {
    FiredUpTo(rules, |rules|)
  }

  /** `s` lists its elements in strictly increasing rank. */
  predicate RankedBy<T>(s: seq<T>, rank: T -> int) {
    forall i, j :: 0 <= i < j < |s| ==> rank(s[i]) < rank(s[j])
  }

  /** The table lists its reasons in strictly increasing rank, so no reason appears twice. */
  predicate TableRankedBy<T>(rules: seq<(T, bool)>, rank: T -> int) {
    forall i, j :: 0 <= i < j < |rules| ==> rank(rules[i].0) < rank(rules[j].0)
  }

  /** A table whose reasons are in rank order fires its reasons in that order. */
  lemma {:induction false} FiredUpToKeepsOrder<T(!new)>(rules: seq<(T, bool)>, n: nat, rank: T -> int)
    requires n <= |rules|
    requires TableRankedBy(rules, rank)
    ensures RankedBy(FiredUpTo(rules, n), rank)
  {
    if n > 0 {
      FiredUpToKeepsOrder(rules, n - 1, rank);
      var prev := FiredUpTo(rules, n - 1);
      if rules[n - 1].1 {
        var r := FiredUpTo(rules, n);
        assert r == prev + [rules[n - 1].0];
        forall i, j | 0 <= i < j < |r|
          ensures rank(r[i]) < rank(r[j])
        {
          if j == |r| - 1 {
            assert r[i] in prev;
            var k :| 0 <= k < n - 1 && rules[k] == (r[i], true);
          }
        }
      }
    }
  }

  lemma FiredKeepsOrder<T(!new)>(rules: seq<(T, bool)>, rank: T -> int)
    requires TableRankedBy(rules, rank)
    ensures RankedBy(Fired(rules), rank)
  {
    FiredUpToKeepsOrder(rules, |rules|, rank);
  }

  /** In a table without repeated reasons, a rule's reason is given iff its condition holds. */
  lemma FiredHas<T(!new)>(rules: seq<(T, bool)>, k: nat, rank: T -> int)
    requires TableRankedBy(rules, rank) && k < |rules|
    ensures rules[k].0 in Fired(rules) <==> rules[k].1
  {
    if rules[k].0 in Fired(rules) {
      var i :| 0 <= i < |rules| && rules[i] == (rules[k].0, true);
      assert i == k;
    }
  }

  /** Nothing is given iff no condition holds. */
  lemma FiredNone<T(!new)>(rules: seq<(T, bool)>)
    ensures |Fired(rules)| == 0 <==> forall i :: 0 <= i < |rules| ==> !rules[i].1
  {
    if |Fired(rules)| > 0 {
      assert Fired(rules)[0] in Fired(rules);
    }
    forall i | 0 <= i < |rules| && rules[i].1
      ensures |Fired(rules)| > 0
    {
      assert rules[i].0 in Fired(rules);
    }
  }
}
