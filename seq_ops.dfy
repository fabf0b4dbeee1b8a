/**
 * The array operators the handlers apply to denormalised reference arrays
 * (`$push`, `$pull`, `Array.prototype.includes`), and the ordering used by
 * the "newest first" queries.
 */
module SeqOps {

  /** `$pull`: remove every occurrence of `x`, keeping the other entries in order. */
  function Pull(s: seq<nat>, x: nat): (r: seq<nat>)
    ensures forall y :: y in r <==> y in s && y != x
    ensures |r| <= |s|
  {
    if s == [] then []
    else if s[0] == x then Pull(s[1..], x)
    else [s[0]] + Pull(s[1..], x)
  }

  /** `$pull` removes every copy of `x` and keeps every other entry as many
      times as it occurred. */
  lemma {:induction false} PullCounts(s: seq<nat>, x: nat)
    ensures multiset(Pull(s, x)) == multiset(s)[x := 0]
    decreases |s|
  {
    if s != [] {
      assert s == [s[0]] + s[1..];
      PullCounts(s[1..], x);
    }
  }

  /** `$pull` works entry by entry: pulling from a concatenation is
      concatenating the pulled parts, so the survivors keep their order. */
  lemma {:induction false} PullConcat(a: seq<nat>, b: seq<nat>, x: nat)
    ensures Pull(a + b, x) == Pull(a, x) + Pull(b, x)
    decreases |a|
  {
    if a == [] {
      assert a + b == b;
    } else {
      assert (a + b)[0] == a[0] && (a + b)[1..] == a[1..] + b;
      PullConcat(a[1..], b, x);
      if a[0] == x {
        assert Pull(a + b, x) == Pull(a[1..] + b, x);
      } else {
        assert Pull(a + b, x) == [a[0]] + Pull(a[1..] + b, x);
      }
    }
  }

  /** The like toggle: pull `x` when it is present, push it otherwise. */
  function Toggle(s: seq<nat>, x: nat): (r: seq<nat>)
    ensures x in r <==> x !in s
    ensures forall y :: y != x ==> (y in r <==> y in s)
  {
    if x in s then Pull(s, x) else s + [x]
  }

  /** No entry occurs twice. */
  predicate NoDup(s: seq<nat>)
  {
    forall i, j :: 0 <= i < j < |s| ==> s[i] != s[j]
  }

  /** Pulling an absent value changes nothing. */
  lemma {:induction false} PullAbsent(s: seq<nat>, x: nat)
    requires x !in s
    ensures Pull(s, x) == s
  {
    if s != [] {
      PullAbsent(s[1..], x);
    }
  }

  /** Pulling a value that was just pushed undoes the push (and pulls the older copies too). */
  lemma {:induction false} PullAppended(s: seq<nat>, x: nat)
    ensures Pull(s + [x], x) == Pull(s, x)
  {
    if s == [] {
      assert [x][1..] == [];
    } else {
      assert (s + [x])[1..] == s[1..] + [x];
      PullAppended(s[1..], x);
    }
  }

  /** Pulling an entry that occurs exactly once removes that one position and nothing else. */
  lemma {:induction false} PullUnique(s: seq<nat>, i: nat)
    requires i < |s|
    requires forall j :: 0 <= j < |s| && j != i ==> s[j] != s[i]
    ensures Pull(s, s[i]) == s[..i] + s[i + 1..]
  {
    if i == 0 {
      PullAbsent(s[1..], s[0]);
    } else {
      var t := s[1..];
      assert forall j :: 0 <= j < |t| && j != i - 1 ==> t[j] != t[i - 1] by {
        forall j | 0 <= j < |t| && j != i - 1 ensures t[j] != t[i - 1] {
          assert t[j] == s[j + 1];
        }
      }
      PullUnique(t, i - 1);
      assert s[0] != s[i];
      assert s[..i] == [s[0]] + t[..i - 1];
      assert s[i + 1..] == t[i..];
    }
  }

  /** Pulling never introduces a duplicate. */
  lemma {:induction false} PullKeepsNoDup(s: seq<nat>, x: nat)
    requires NoDup(s)
    ensures NoDup(Pull(s, x))
  {
    if s != [] {
      var t := s[1..];
      assert NoDup(t) by {
        forall i, j | 0 <= i < j < |t| ensures t[i] != t[j] {
          assert t[i] == s[i + 1] && t[j] == s[j + 1];
        }
      }
      PullKeepsNoDup(t, x);
      if s[0] != x {
        assert s[0] !in t;
        assert s[0] !in Pull(t, x);
        var r := [s[0]] + Pull(t, x);
        forall i, j | 0 <= i < j < |r| ensures r[i] != r[j] {
          if i == 0 {
            assert r[j] == Pull(t, x)[j - 1];
          } else {
            assert r[i] == Pull(t, x)[i - 1] && r[j] == Pull(t, x)[j - 1];
          }
        }
      }
    }
  }

  /** A duplicate-free array stays duplicate-free under the toggle. */
  lemma ToggleKeepsNoDup(s: seq<nat>, x: nat)
    requires NoDup(s)
    ensures NoDup(Toggle(s, x))
  {
    if x in s {
      PullKeepsNoDup(s, x);
    } else {
      var r := s + [x];
      forall i, j | 0 <= i < j < |r| ensures r[i] != r[j] {
        if j == |s| {
          assert r[i] == s[i];
        } else {
          assert r[i] == s[i] && r[j] == s[j];
        }
      }
    }
  }

  /** Toggling an absent value twice restores the array exactly. */
  lemma ToggleTwiceRestores(s: seq<nat>, x: nat)
    requires x !in s
    ensures Toggle(Toggle(s, x), x) == s
  {
    PullAppended(s, x);
    PullAbsent(s, x);
  }

  /** Toggling twice always restores the array as a set of members. */
  lemma ToggleTwiceSameMembers(s: seq<nat>, x: nat)
    ensures forall y :: y in Toggle(Toggle(s, x), x) <==> y in s
  {
    if x !in s {
      ToggleTwiceRestores(s, x);
    }
  }

  /** Strictly decreasing: newest (largest id) first, no repetition. */
  predicate Decreasing(r: seq<nat>)
  {
    forall i, j :: 0 <= i < j < |r| ==> r[i] > r[j]
  }

  /** A largest element of a finite non-empty set of naturals, found by
      removing one element and comparing it with the largest of the rest. */
  lemma {:induction false} MaxWitness(s: set<nat>) returns (m: nat)
    requires s != {}
    ensures m in s && forall y :: y in s ==> y <= m
    decreases |s|
  {
    var x :| x in s;
    var t := s - {x};
    if t == {} {
      assert s == {x};
      m := x;
    } else {
      var mt := MaxWitness(t);
      m := if x > mt then x else mt;
      forall y | y in s ensures y <= m {
        if y != x {
          assert y in t;
        }
      }
    }
  }

  /** Every finite non-empty set of naturals has a largest element. */
  lemma MaxExists(s: set<nat>)
    requires s != {}
    ensures exists m :: m in s && forall y :: y in s ==> y <= m
  {
    var m := MaxWitness(s);
  }

  /** The largest element of a finite non-empty set. */
  function MaxOf(s: set<nat>): (m: nat)
    requires s != {}
    ensures m in s && forall y :: y in s ==> y <= m
  {
    MaxExists(s);
    var m :| m in s && forall y :: y in s ==> y <= m;
    m
  }

  /** The elements of `s`, largest first: the `sort({ createdAt: -1 })` of the queries. */
  function SortedDesc(s: set<nat>): (r: seq<nat>)
    ensures forall x :: x in r <==> x in s
    ensures Decreasing(r)
    decreases |s|
  {
    if s == {} then []
    else
      var m := MaxOf(s);
      var rest := SortedDesc(s - {m});
      var r := [m] + rest;
      assert Decreasing(r) by {
        forall i, j | 0 <= i < j < |r| ensures r[i] > r[j] {
          assert r[j] == rest[j - 1] && rest[j - 1] in rest;
          if i > 0 {
            assert r[i] == rest[i - 1];
          }
        }
      }
      r
  }
}
