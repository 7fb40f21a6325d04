/** The users of one fetched page and the client-side search over them
    (src/pages/UsersPage.tsx, the effect at lines 68-78). */
module Users {
  import opened Text

  /** One record of the remote user directory. */
  datatype User = User(id: int, firstName: string, lastName: string, email: string, avatar: string)

  /** A user is kept by the search iff the lower-cased query occurs in the
      lower-cased first name, last name or email. */
  predicate Matches(u: User, query: string) {
    var q := Lower(query);
    Includes(Lower(u.firstName), q) || Includes(Lower(u.lastName), q) || Includes(Lower(u.email), q)
  }

  /** `users.filter(...)` with the predicate above: keeps the matching
      users, in their original order. */
  function Filter(us: seq<User>, query: string): (r: seq<User>)
    ensures |r| <= |us|
    ensures forall u :: u in r <==> u in us && Matches(u, query)
  {
    if us == [] then []
    else
      assert forall u :: u in us <==> u == us[0] || u in us[1..];
      if Matches(us[0], query) then [us[0]] + Filter(us[1..], query)
      else Filter(us[1..], query)
  }

  /** xs can be obtained from ys by deleting elements. */
  predicate Subsequence<T(==)>(xs: seq<T>, ys: seq<T>)
    decreases |ys|
  {
    if ys == [] then xs == []
    else (xs != [] && xs[0] == ys[0] && Subsequence(xs[1..], ys[1..])) || Subsequence(xs, ys[1..])
  }

  /** No element appears twice. */
  predicate Distinct<T(==)>(s: seq<T>) {
    forall i, j :: 0 <= i < j < |s| ==> s[i] != s[j]
  }

  /** The search result keeps the loaded users' relative order and adds
      nothing: it is a subsequence of them. */
  lemma {:induction false} FilterIsSubsequence(us: seq<User>, query: string)
    ensures Subsequence(Filter(us, query), us)
  {
    if us != [] {
      FilterIsSubsequence(us[1..], query);
      var r := Filter(us, query);
      if Matches(us[0], query) {
        assert r[1..] == Filter(us[1..], query);
      }
    }
  }

  /** Each user occurs in the result exactly as often as in the loaded
      page when it matches, and not at all otherwise. */
  lemma {:induction false} FilterCount(us: seq<User>, query: string, u: User)
    ensures multiset(Filter(us, query))[u] == if Matches(u, query) then multiset(us)[u] else 0
  {
    if us == [] {
    } else {
      FilterCount(us[1..], query, u);
      assert us == [us[0]] + us[1..];
      assert multiset(us) == multiset{us[0]} + multiset(us[1..]);
    }
  }

  /** Searching introduces no duplicates. */
  lemma {:induction false} FilterKeepsDistinct(us: seq<User>, query: string)
    requires Distinct(us)
    ensures Distinct(Filter(us, query))
  {
    if us != [] {
      assert Distinct(us[1..]) by {
        forall i, j | 0 <= i < j < |us[1..]| ensures us[1..][i] != us[1..][j] {
          assert us[1..][i] == us[i + 1] && us[1..][j] == us[j + 1];
        }
      }
      FilterKeepsDistinct(us[1..], query);
      assert us[0] !in us[1..] by {
        forall k | 0 <= k < |us[1..]| ensures us[1..][k] != us[0] {
          assert us[1..][k] == us[k + 1];
        }
      }
      var rest := Filter(us[1..], query);
      if Matches(us[0], query) {
        var r := [us[0]] + rest;
        forall i, j | 0 <= i < j < |r| ensures r[i] != r[j] {
          if i == 0 {
            assert r[j] == rest[j - 1];
            assert rest[j - 1] in rest;
          } else {
            assert r[i] == rest[i - 1] && r[j] == rest[j - 1];
          }
        }
      }
    }
  }

  /** The search filters a concatenation piecewise. */
  lemma {:induction false} FilterAppend(a: seq<User>, b: seq<User>, query: string)
    ensures Filter(a + b, query) == Filter(a, query) + Filter(b, query)
  {
    if a == [] {
      assert a + b == b;
    } else {
      assert (a + b)[0] == a[0];
      assert (a + b)[1..] == a[1..] + b;
      FilterAppend(a[1..], b, query);
    }
  }

  /** The empty query keeps every loaded user. */
  lemma {:induction false} FilterEmptyQuery(us: seq<User>)
    ensures Filter(us, "") == us
  {
    if us != [] {
      IncludesTrivial(Lower(us[0].firstName));
      FilterEmptyQuery(us[1..]);
    }
  }

  /** Matching ignores the case of the query. */
  lemma MatchesIgnoresQueryCase(u: User, query: string)
    ensures Matches(u, query) == Matches(u, Lower(query))
  {
    LowerIdempotent(query);
  }

  /** The search ignores the case of the query. */
  lemma {:induction false} FilterIgnoresQueryCase(us: seq<User>, query: string)
    ensures Filter(us, query) == Filter(us, Lower(query))
  {
    if us != [] {
      MatchesIgnoresQueryCase(us[0], query);
      FilterIgnoresQueryCase(us[1..], query);
    }
  }

  /** A user matching a query also matches every query whose lower-cased
      form occurs in it. */
  lemma MatchesNarrow(u: User, wide: string, narrow: string)
    requires Includes(Lower(narrow), Lower(wide))
    requires Matches(u, narrow)
    ensures Matches(u, wide)
  {
    var n, w := Lower(narrow), Lower(wide);
    if Includes(Lower(u.firstName), n) {
      IncludesTransitive(Lower(u.firstName), n, w);
    } else if Includes(Lower(u.lastName), n) {
      IncludesTransitive(Lower(u.lastName), n, w);
    } else {
      IncludesTransitive(Lower(u.email), n, w);
    }
  }

  /** Refining a query (so that the old one occurs in the new one) only
      narrows the result: searching the previous result with the refined
      query gives the same users as searching the whole page. */
  lemma {:induction false} FilterNarrows(us: seq<User>, wide: string, narrow: string)
    requires Includes(Lower(narrow), Lower(wide))
    ensures Filter(Filter(us, wide), narrow) == Filter(us, narrow)
  {
    if us != [] {
      FilterNarrows(us[1..], wide, narrow);
      if Matches(us[0], narrow) {
        MatchesNarrow(us[0], wide, narrow);
      }
      if Matches(us[0], wide) {
        var r := [us[0]] + Filter(us[1..], wide);
        assert r[0] == us[0] && r[1..] == Filter(us[1..], wide);
      }
    }
  }

  /** Searching a result again with the same query changes nothing. */
  lemma FilterIdempotent(us: seq<User>, query: string)
    ensures Filter(Filter(us, query), query) == Filter(us, query)
  {
    IncludesTrivial(Lower(query));
    FilterNarrows(us, query, query);
  }

  /** Typing one more character into the search box keeps a subsequence of
      the current result. */
  lemma TypingNarrows(us: seq<User>, query: string, c: char)
    ensures Filter(us, query + [c]) == Filter(Filter(us, query), query + [c])
    ensures Subsequence(Filter(us, query + [c]), Filter(us, query))
  {
    var q' := query + [c];
    assert q'[0..|query|] == query;
    assert OccursAt(q', query, 0);
    IncludesLower(q', query);
    FilterNarrows(us, query, q');
    FilterIsSubsequence(Filter(us, query), q');
  }

  /** A user none of whose fields holds the query's first letter, in
      either case, does not match it. */
  lemma MissesWithoutLetter(u: User, query: string, c: char)
    requires 'a' <= c <= 'z' && Lower(query) != [] && Lower(query)[0] == c
    requires c !in u.firstName && (c as int - 32) as char !in u.firstName
    requires c !in u.lastName && (c as int - 32) as char !in u.lastName
    requires c !in u.email && (c as int - 32) as char !in u.email
    ensures !Matches(u, query)
  {
    LowerAvoids(u.firstName, c);
    LowerAvoids(u.lastName, c);
    LowerAvoids(u.email, c);
    NotIncludedWithoutFirstChar(Lower(u.firstName), Lower(query));
    NotIncludedWithoutFirstChar(Lower(u.lastName), Lower(query));
    NotIncludedWithoutFirstChar(Lower(u.email), Lower(query));
  }

  /** The loop `Array.prototype.filter` runs, written out; it agrees with
      `Filter`. */
  method FilterUsers(us: seq<User>, query: string) returns (r: seq<User>)
    ensures r == Filter(us, query)
  {
    r := [];
    var i := 0;
    while i < |us|
      invariant 0 <= i <= |us|
      invariant r == Filter(us[..i], query)
    {
      var u := us[i];
      assert us[..i + 1] == us[..i] + [u];
      FilterAppend(us[..i], [u], query);
      assert Filter([u], query) == if Matches(u, query) then [u] else [] by {
        assert [u][1..] == [];
      }
      if Matches(u, query) {
        r := r + [u];
      }
      i := i + 1;
    }
    assert us[..|us|] == us;
  }
}
