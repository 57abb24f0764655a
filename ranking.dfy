/**
  Orderings of the team list: by points, highest first, and what a tie between
  neighbours is. Nothing here fixes an order among teams with equal points.
 */
module Ranking {
  import opened Standings

  /** Points never increase along the list. */
  predicate SortedByPoints(s: seq<Team>)
  {
    forall i, j :: 0 <= i < j < |s| ==> s[i].points >= s[j].points
  }

  /** Some two neighbouring teams have the same points. */
  predicate HasAdjacentTie(s: seq<Team>)
  {
    exists i :: 0 <= i < |s| - 1 && s[i].points == s[i + 1].points
  }

  /** No two entries of the collection share a point total, and none is repeated. */
  ghost predicate TieFree(m: multiset<Team>)
  {
    (forall x, y :: x in m && y in m && x.points == y.points ==> x == y) &&
    (forall x :: x in m ==> m[x] == 1)
  }

  /** `t` is `s` reordered with points highest first. */
  predicate IsRanking(t: seq<Team>, s: seq<Team>)
  {
    multiset(t) == multiset(s) && SortedByPoints(t)
  }

  /** A team with at least the points of the head of a sorted list may go in front of it. */
  lemma SortedCons(t: Team, s: seq<Team>)
    requires SortedByPoints(s) && (s != [] ==> t.points >= s[0].points)
    ensures SortedByPoints([t] + s)
  {
    forall i, j | 0 <= i < j < |[t] + s| ensures ([t] + s)[i].points >= ([t] + s)[j].points {
      if i == 0 && j > 1 {
        assert s[0].points >= s[j - 1].points;
      }
    }
  }

  /** The rest of a list sorted by points is sorted as well. */
  lemma SortedTail(s: seq<Team>)
    requires SortedByPoints(s) && s != []
    ensures SortedByPoints(s[1..])
  {
    forall i, j | 0 <= i < j < |s| - 1 ensures s[1..][i].points >= s[1..][j].points {
      assert s[1..][i] == s[i + 1] && s[1..][j] == s[j + 1];
    }
  }

  /** `t` inserted into a list already sorted by points, before the first team with fewer points. */
  ghost function Insert(t: Team, s: seq<Team>): (r: seq<Team>)
    requires SortedByPoints(s)
    ensures multiset(r) == multiset(s) + multiset{t}
    ensures SortedByPoints(r)
    ensures |r| > 0 && (r[0] == t || (s != [] && r[0] == s[0]))
  {
    if s == [] || s[0].points <= t.points then
      SortedCons(t, s);
      [t] + s
    else
      SortedTail(s);
      var rest := Insert(t, s[1..]);
      assert s == [s[0]] + s[1..];
      SortedCons(s[0], rest);
      [s[0]] + rest
  }

  /** One ranking of `s`: it shows that every team list can be ranked. */
  ghost function Ranked(s: seq<Team>): (r: seq<Team>)
    ensures IsRanking(r, s)
  {
    if s == [] then []
    else
      assert s == [s[0]] + s[1..];
      Insert(s[0], Ranked(s[1..]))
  }

  /** A list with the same entries as `s` that name the same teams. */
  lemma SameEntries(s: seq<Team>, t: seq<Team>, i: nat)
    requires multiset(s) == multiset(t) && i < |s|
    ensures exists j :: 0 <= j < |t| && t[j] == s[i]
  {
    assert s[i] in multiset(t);
  }

  /** Two equal entries at different positions mean the entry is repeated. */
  lemma RepeatedEntry(s: seq<Team>, i: nat, j: nat)
    requires i < j < |s| && s[i] == s[j]
    ensures multiset(s)[s[i]] >= 2
  {
    assert s == s[..i] + [s[i]] + s[i + 1..j] + [s[j]] + s[j + 1..];
  }

  /** Without ties in the collection there is no tie between neighbours either. */
  lemma TieFreeHasNoAdjacentTie(s: seq<Team>)
    requires TieFree(multiset(s))
    ensures !HasAdjacentTie(s)
  {
    if HasAdjacentTie(s) {
      var i :| 0 <= i < |s| - 1 && s[i].points == s[i + 1].points;
      assert s[i] in multiset(s) && s[i + 1] in multiset(s);
      RepeatedEntry(s, i, i + 1);
      assert false;
    }
  }

  /** Part of a tie-free collection is tie-free. */
  lemma TieFreeSub(a: multiset<Team>, m: multiset<Team>)
    requires a <= m && TieFree(m)
    ensures TieFree(a)
  {
    forall x | x in a ensures a[x] == 1 {
      assert x in m;
    }
  }

  /** The first team of a list sorted by points has the most points of any entry. */
  lemma FirstIsTop(s: seq<Team>, x: Team)
    requires SortedByPoints(s) && x in multiset(s)
    ensures s[0].points >= x.points
  {
    assert x in s;
    var j :| 0 <= j < |s| && s[j] == x;
  }

  /** Two rankings of one tie-free collection start with the same team. */
  lemma SameTop(t: seq<Team>, u: seq<Team>)
    requires multiset(t) == multiset(u) && SortedByPoints(t) && SortedByPoints(u) && t != []
    requires TieFree(multiset(t))
    ensures u != [] && t[0] == u[0]
  {
    assert |u| == |t|;
    assert t[0] in multiset(u) && u[0] in multiset(t);
    FirstIsTop(u, t[0]);
    FirstIsTop(t, u[0]);
  }

  /** What is left of two equal collections after the same first team is equal too. */
  lemma SameRest(t: seq<Team>, u: seq<Team>)
    requires multiset(t) == multiset(u) && t != [] && u != [] && t[0] == u[0]
    ensures multiset(t[1..]) == multiset(u[1..]) && multiset(t[1..]) <= multiset(t)
  {
    assert t == [t[0]] + t[1..] && u == [u[0]] + u[1..];
    assert multiset(t) == multiset{t[0]} + multiset(t[1..]);
    assert multiset(u) == multiset{u[0]} + multiset(u[1..]);
    assert multiset(t[1..]) == multiset(t) - multiset{t[0]};
  }

  /** Lists with the same head and the same rest are equal. */
  lemma SameHeadAndRest(t: seq<Team>, u: seq<Team>)
    requires t != [] && u != [] && t[0] == u[0] && t[1..] == u[1..]
    ensures t == u
  {
    assert t == [t[0]] + t[1..] && u == [u[0]] + u[1..];
  }

  /**
    When no two teams share a point total, a ranking is unique: the order by
    points alone determines the whole table.
   */
  lemma {:induction false} RankingUnique(t: seq<Team>, u: seq<Team>)
    requires multiset(t) == multiset(u) && SortedByPoints(t) && SortedByPoints(u)
    requires TieFree(multiset(t))
    ensures t == u
    decreases |t|
  {
    if t != [] {
      SameTop(t, u);
      SameRest(t, u);
      TieFreeSub(multiset(t[1..]), multiset(t));
      SortedTail(t);
      SortedTail(u);
      RankingUnique(t[1..], u[1..]);
      SameHeadAndRest(t, u);
    }
  }

  /** With unique names no team occurs twice. */
  lemma {:induction false} UniqueNamesOnce(s: seq<Team>, x: Team)
    requires UniqueNames(s)
    ensures multiset(s)[x] <= 1
    decreases |s|
  {
    if s != [] {
      var n := |s| - 1;
      assert s == s[..n] + [s[n]];
      assert UniqueNames(s[..n]);
      UniqueNamesOnce(s[..n], x);
      assert x == s[n] ==> x !in s[..n];
    }
  }

  /** Reordering keeps every team consistent and the names unique. */
  lemma ReorderKeepsTeams(t: seq<Team>, s: seq<Team>)
    requires multiset(t) == multiset(s)
    ensures AllConsistent(s) ==> AllConsistent(t)
    ensures UniqueNames(s) ==> UniqueNames(t)
  {
    forall i | 0 <= i < |t| ensures exists a :: 0 <= a < |s| && s[a] == t[i] {
      SameEntries(t, s, i);
    }
    if UniqueNames(s) {
      forall i, j | 0 <= i < j < |t| ensures t[i].name != t[j].name {
        if t[i] == t[j] {
          RepeatedEntry(t, i, j);
          UniqueNamesOnce(s, t[i]);
        } else {
          var a :| 0 <= a < |s| && s[a] == t[i];
          var b :| 0 <= b < |s| && s[b] == t[j];
          assert a != b;
        }
      }
    }
  }
}
