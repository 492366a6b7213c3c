/**
 * The in-memory stand-in for the datastore's filtered select: a table is a map from
 * serial id to row, and a select enumerates it by id, keeps the rows matching the
 * filter, optionally orders them and optionally keeps only the first `limit`.
 */
module Query {
  import opened Wrappers
  import opened Order

  /** Every key of the table is below the next id the table will hand out. */
  ghost predicate KeysBelow<R>(t: map<nat, R>, bound: nat)
  {
    forall k :: k in t ==> k < bound
  }

  /** No two keys of the table hold the same row. */
  ghost predicate Injective<R>(t: map<nat, R>)
  {
    forall a, b :: a in t && b in t && a != b ==> t[a] != t[b]
  }

  /** No row occurs twice in the sequence. */
  ghost predicate Distinct<R>(s: seq<R>)
  {
    forall i, j :: 0 <= i < j < |s| ==> s[i] != s[j]
  }

  /** The rows of `t` with ids below `bound`, in ascending id order. */
  function Enumerate<R(!new)>(t: map<nat, R>, bound: nat): (r: seq<R>)
    ensures forall x :: x in r <==> exists k :: k in t && k < bound && t[k] == x
  {
    if bound == 0 then []
    else
      var front := Enumerate(t, bound - 1);
      if bound - 1 in t then front + [t[bound - 1]] else front
  }

  lemma {:induction false} EnumerateDistinct<R(!new)>(t: map<nat, R>, bound: nat)
    requires Injective(t)
    ensures Distinct(Enumerate(t, bound))
  {
    if bound > 0 {
      EnumerateDistinct(t, bound - 1);
      var front := Enumerate(t, bound - 1);
      if bound - 1 in t {
        assert t[bound - 1] !in front;
        var r := front + [t[bound - 1]];
        forall i, j | 0 <= i < j < |r| ensures r[i] != r[j] {
          if j == |front| {
            assert r[i] in front;
          }
        }
      }
    }
  }

  /** The elements of `s` satisfying `p`, in their order in `s`. */
  function Filter<R(!new)>(s: seq<R>, p: R -> bool): (r: seq<R>)
    ensures forall x :: x in r <==> x in s && p(x)
    ensures |r| <= |s|
  {
    if s == [] then []
    else
      var rest := Filter(s[1..], p);
      assert forall x :: x in s <==> x == s[0] || x in s[1..];
      if p(s[0]) then [s[0]] + rest else rest
  }

  lemma {:induction false} FilterDistinct<R(!new)>(s: seq<R>, p: R -> bool)
    requires Distinct(s)
    ensures Distinct(Filter(s, p))
  {
    if s != [] {
      FilterDistinct(s[1..], p);
      if p(s[0]) {
        var rest := Filter(s[1..], p);
        assert s[0] !in s[1..] by {
          forall j | 0 <= j < |s[1..]| ensures s[1..][j] != s[0] {
            assert s[1..][j] == s[j + 1];
          }
        }
        DistinctCons(s[0], rest);
      }
    }
  }

  lemma DistinctCons<R>(a: R, s: seq<R>)
    requires a !in s && Distinct(s)
    ensures Distinct([a] + s)
  {
    var r := [a] + s;
    forall i, j | 0 <= i < j < |r| ensures r[i] != r[j] {
      assert r[j] == s[j - 1];
      if i > 0 {
        assert r[i] == s[i - 1];
      }
    }
  }

  /** `s` with `x` placed before the first element that `x` precedes under `le`. */
  function Insert<R>(x: R, s: seq<R>, le: (R, R) -> bool): (r: seq<R>)
    ensures multiset(r) == multiset(s) + multiset{x}
  {
    if s == [] then [x]
    else if le(x, s[0]) then [x] + s
    else
      assert s == [s[0]] + s[1..];
      [s[0]] + Insert(x, s[1..], le)
  }

  /** Inserting adds `x` and nothing else. */
  lemma InsertMembers<R>(x: R, s: seq<R>, le: (R, R) -> bool)
    ensures forall y :: y in Insert(x, s, le) ==> y == x || y in s
  {
    var r := Insert(x, s, le);
    forall y | y in r ensures y == x || y in s {
      assert y in multiset(r);
    }
  }

  lemma {:induction false} InsertSorted<R(!new)>(x: R, s: seq<R>, le: (R, R) -> bool)
    requires TotalPreorder(le) && Sorted(s, le)
    ensures Sorted(Insert(x, s, le), le)
  {
    if s != [] && !le(x, s[0]) {
      var rest := Insert(x, s[1..], le);
      InsertSorted(x, s[1..], le);
      InsertMembers(x, s[1..], le);
      var r := [s[0]] + rest;
      forall i, j | 0 <= i < j < |r| ensures le(r[i], r[j]) {
        if i == 0 {
          assert r[j] in rest;
          if r[j] != x {
            var k :| 0 <= k < |s[1..]| && s[1..][k] == r[j];
            assert s[k + 1] == r[j];
          }
        } else {
          assert r[i] == rest[i - 1] && r[j] == rest[j - 1];
        }
      }
    }
  }

  /** Insertion sort: the elements of `s`, ordered by `le`. */
  function SortBy<R(!new)>(s: seq<R>, le: (R, R) -> bool): (r: seq<R>)
    requires TotalPreorder(le)
    ensures multiset(r) == multiset(s)
    ensures Sorted(r, le)
  {
    if s == [] then []
    else
      assert s == [s[0]] + s[1..];
      var rest := SortBy(s[1..], le);
      InsertSorted(s[0], rest, le);
      Insert(s[0], rest, le)
  }

  lemma {:induction false} DistinctMultiplicity<R>(s: seq<R>)
    ensures Distinct(s) <==> forall x :: multiset(s)[x] <= 1
  {
    if s != [] {
      var rest := s[1..];
      assert s == [s[0]] + rest;
      DistinctMultiplicity(rest);
      if Distinct(s) {
        assert Distinct(rest) by {
          forall i, j | 0 <= i < j < |rest| ensures rest[i] != rest[j] {
            assert rest[i] == s[i + 1] && rest[j] == s[j + 1];
          }
        }
        assert s[0] !in rest by {
          forall j | 0 <= j < |rest| ensures rest[j] != s[0] {
            assert rest[j] == s[j + 1];
          }
        }
      } else {
        var i, j :| 0 <= i < j < |s| && s[i] == s[j];
        if i == 0 {
          assert s[j] == rest[j - 1];
          assert multiset(s)[s[0]] == 1 + multiset(rest)[s[0]];
        } else {
          assert s[i] == rest[i - 1] && s[j] == rest[j - 1];
          assert !Distinct(rest);
          var y :| multiset(rest)[y] > 1;
          assert multiset(s)[y] >= multiset(rest)[y];
        }
      }
    }
  }

  /** Reordering a sequence without duplicates gives a sequence without duplicates. */
  lemma DistinctPermutation<R>(a: seq<R>, b: seq<R>)
    requires multiset(a) == multiset(b) && Distinct(b)
    ensures Distinct(a)
  {
    DistinctMultiplicity(a);
    DistinctMultiplicity(b);
  }

  /** The first `n` elements of `s`, or all of `s` when it is shorter. */
  function Take<R>(s: seq<R>, n: nat): (r: seq<R>)
    ensures |r| <= n && |r| <= |s|
    ensures |r| < n ==> r == s
  {
    if n < |s| then s[..n] else s
  }

  lemma DistinctCardinality<R>(s: seq<R>)
    requires Distinct(s)
    ensures |s| == |set x | x in s|
    decreases |s|
  {
    if s != [] {
      var rest := s[1..];
      assert Distinct(rest) by {
        forall i, j | 0 <= i < j < |rest| ensures rest[i] != rest[j] {
          assert rest[i] == s[i + 1] && rest[j] == s[j + 1];
        }
      }
      DistinctCardinality(rest);
      assert s[0] !in rest by {
        forall j | 0 <= j < |rest| ensures rest[j] != s[0] {
          assert rest[j] == s[j + 1];
        }
      }
      assert (set x | x in s) == (set x | x in rest) + {s[0]};
    }
  }

  /** A listing of a set that holds each element once is as long as the set is large. */
  lemma DistinctListing<R>(s: seq<R>, xs: set<R>)
    requires Distinct(s) && forall x :: x in s <==> x in xs
    ensures |s| == |xs|
  {
    DistinctCardinality(s);
    assert (set x | x in s) == xs;
  }

  /**
   * The ordering and cutting step of a select over the matching rows `s`: sorted by
   * `order` when one is given, then cut to `limit` rows when one is given.
   */
  function Arrange<R(!new)>(s: seq<R>, order: Option<(R, R) -> bool>, limit: Option<nat>): (r: seq<R>)
    requires Distinct(s)
    requires order.Some? ==> TotalPreorder(order.value)
    ensures forall x :: x in r ==> x in s
    ensures Distinct(r)
    ensures limit.None? ==> forall x :: x in s ==> x in r
    ensures limit.Some? ==> |r| <= limit.value
    ensures limit.Some? && |r| < limit.value ==> forall x :: x in s ==> x in r
    ensures order.Some? ==> Sorted(r, order.value)
    ensures order.Some? ==> forall x, y :: x in r && y in s && y !in r ==> order.value(x, y)
  {
    var ordered := if order.Some? then SortBy(s, order.value) else s;
    assert forall x :: x in ordered <==> x in s by {
      forall x ensures x in ordered <==> x in s {
        assert x in ordered <==> x in multiset(ordered);
        assert x in s <==> x in multiset(s);
      }
    }
    DistinctPermutation(ordered, s);
    var r := if limit.Some? then Take(ordered, limit.value) else ordered;
    TakeKept(ordered, r);
    if order.Some? then TakeRanked(ordered, r, order.value); r else r
  }

  /**
   * A select from table `t` whose ids are below `bound`: the rows satisfying `p`,
   * ordered by `order` when one is given and cut to `limit` rows when one is given.
   */
  function Select<R(==,!new)>(t: map<nat, R>, bound: nat, p: R -> bool,
                           order: Option<(R, R) -> bool>, limit: Option<nat>): (r: seq<R>)
    requires KeysBelow(t, bound) && Injective(t)
    requires order.Some? ==> TotalPreorder(order.value)
    // only matching rows of the table, each at most once
    ensures forall x :: x in r ==> x in t.Values && p(x)
    ensures Distinct(r)
    // without a limit every matching row is there: the result is exactly the matching rows
    ensures limit.None? ==> forall x :: x in t.Values && p(x) ==> x in r
    // with a limit: at most that many, and fewer only when nothing was left out
    ensures limit.Some? ==> |r| <= limit.value
    ensures limit.Some? && |r| < limit.value ==> forall x :: x in t.Values && p(x) ==> x in r
    // ordered, and what a limit leaves out comes after everything kept
    ensures order.Some? ==> Sorted(r, order.value)
    ensures order.Some? ==> forall x, y :: x in r && y in t.Values && p(y) && y !in r ==> order.value(x, y)
  {
    var rows := Enumerate(t, bound);
    assert forall x :: x in rows <==> x in t.Values;
    EnumerateDistinct(t, bound);
    var matching := Filter(rows, p);
    FilterDistinct(rows, p);
    assert forall x :: x in matching <==> x in t.Values && p(x);
    Arrange(matching, order, limit)
  }

  /** A prefix of a sequence without duplicates has none either. */
  lemma TakeKept<R>(s: seq<R>, r: seq<R>)
    requires Distinct(s) && |r| <= |s| && r == s[..|r|]
    ensures Distinct(r)
    ensures forall x :: x in r ==> x in s
  {
    forall i, j | 0 <= i < j < |r| ensures r[i] != r[j] {
      assert r[i] == s[i] && r[j] == s[j];
    }
  }

  /** Cutting a sorted sequence keeps the elements that come first. */
  lemma TakeRanked<R>(s: seq<R>, r: seq<R>, le: (R, R) -> bool)
    requires Sorted(s, le) && |r| <= |s| && r == s[..|r|]
    ensures Sorted(r, le)
    ensures forall x, y :: x in r && y in s && y !in r ==> le(x, y)
  {
    forall x, y | x in r && y in s && y !in r ensures le(x, y) {
      var i :| 0 <= i < |r| && r[i] == x;
      var j :| 0 <= j < |s| && s[j] == y;
      assert s[i] == x;
    }
  }
}
