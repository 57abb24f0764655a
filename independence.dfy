/**
  The order of the records does not matter to the table: every match only
  adds to the counters of its two teams, and additions commute. A league is
  seen here through its names: which names it holds, and the team under each
  name. Two leagues with unique names that agree on both hold the same teams.
 */
module Independence {
  import opened GoSplit
  import opened Standings
  import opened Ranking

  /** The team under `name`, or a zero team when the league has none. */
  function Lookup(teams: seq<Team>, name: string): (t: Team)
    ensures t.name == name
  {
    var i := IndexOfName(teams, name);
    if i < |teams| then teams[i] else NewTeam(name)
  }

  /**
    What one match with outcome `o` does to a team that is its first team
    (`first`), its second team (`second`), both when it plays itself, or neither.
   */
  function Credit(t: Team, first: bool, second: bool, o: Outcome): Team
  {
    var once := if first then Record(t, o) else t;
    if second then Record(once, Opposite(o)) else once
  }

  /** Equal names at every position give the same first position of every name. */
  lemma {:induction false} IndexOfSameNames(s: seq<Team>, u: seq<Team>, name: string)
    requires |s| == |u| && forall k :: 0 <= k < |s| ==> s[k].name == u[k].name
    ensures IndexOfName(s, name) == IndexOfName(u, name)
    decreases |s|
  {
    if s != [] && s[0].name != name {
      IndexOfSameNames(s[1..], u[1..], name);
    }
  }

  /** With unique names, every team is found under its own name. */
  lemma LookupAt(s: seq<Team>, i: nat)
    requires UniqueNames(s) && i < |s|
    ensures IndexOfName(s, s[i].name) == i && Lookup(s, s[i].name) == s[i]
  {
  }

  /** A team of a league with unique names is exactly the team found under its name. */
  lemma Members(s: seq<Team>, x: Team)
    requires UniqueNames(s)
    ensures x in s <==> HasTeam(s, x.name) && Lookup(s, x.name) == x
  {
    if x in s {
      var i :| 0 <= i < |s| && s[i] == x;
      LookupAt(s, i);
    }
  }

  /** Appending a zero team adds its name and changes no team found by name. */
  lemma LookupAppendNew(s: seq<Team>, added: string, name: string)
    requires !HasTeam(s, added)
    ensures Lookup(s + [NewTeam(added)], name) == Lookup(s, name)
  {
    var u := s + [NewTeam(added)];
    assert u[..|s|] == s;
    var i := IndexOfName(s, name);
    if i < |s| {
      assert u[i].name == name;
    } else if name == added {
      assert u[|s|].name == name;
    }
  }

  /** Looking up or creating a team changes no team found by name. */
  lemma LookupFindOrCreate(s: seq<Team>, added: string, name: string)
    ensures Lookup(FindOrCreate(s, added).teams, name) == Lookup(s, name)
  {
    if !HasTeam(s, added) {
      LookupAppendNew(s, added, name);
    }
  }

  /** Registering the teams of a match adds their names and changes no team found by name. */
  lemma LookupRegister(s: seq<Team>, name1: string, name2: string, name: string)
    ensures var g := Register(s, name1, name2).teams;
            && Lookup(g, name) == Lookup(s, name)
            && (HasTeam(g, name) <==> HasTeam(s, name) || name == name1 || name == name2)
  {
    var f1 := FindOrCreate(s, name1);
    LookupFindOrCreate(s, name1, name);
    LookupFindOrCreate(f1.teams, name2, name);
    FindOrCreateHas(s, name1, name);
    FindOrCreateHas(f1.teams, name2, name);
  }

  /** Replacing one team by another of the same name changes only what is found under that name. */
  lemma LookupUpdate(s: seq<Team>, i: nat, t: Team, name: string)
    requires UniqueNames(s) && i < |s| && t.name == s[i].name
    ensures Lookup(s[i := t], name) == (if name == s[i].name then t else Lookup(s, name))
    ensures HasTeam(s[i := t], name) <==> HasTeam(s, name)
    ensures UniqueNames(s[i := t])
  {
    var u := s[i := t];
    assert forall k :: 0 <= k < |s| ==> u[k].name == s[k].name;
    IndexOfSameNames(u, s, name);
    LookupAt(s, i);
    if HasTeam(s, name) {
      var j :| 0 <= j < |s| && s[j].name == name;
      assert u[j].name == name;
    }
    if HasTeam(u, name) {
      var j :| 0 <= j < |u| && u[j].name == name;
      assert s[j].name == name;
    }
  }

  /**
    One recorded match, seen by name: its two names are in the league
    afterwards, and each team is credited with its part of the match.
   */
  lemma LookupHandle(s: seq<Team>, res: string, name1: string, name2: string, name: string)
    requires UniqueNames(s) && ParseOutcome(res).Some?
    ensures var h := Handle(s, res, name1, name2).teams;
            && UniqueNames(h)
            && (HasTeam(h, name) <==> HasTeam(s, name) || name == name1 || name == name2)
            && Lookup(h, name) == Credit(Lookup(s, name), name == name1, name == name2, ParseOutcome(res).value)
  {
    var o := ParseOutcome(res).value;
    var r := Register(s, name1, name2);
    var g := r.teams;
    LookupRegister(s, name1, name2, name);
    LookupAt(g, r.second);
    var once := g[r.first := Record(g[r.first], o)];
    LookupUpdate(g, r.first, Record(g[r.first], o), name);
    LookupUpdate(g, r.first, Record(g[r.first], o), name2);
    LookupAt(once, r.second);
    LookupUpdate(once, r.second, Record(once[r.second], Opposite(o)), name);
  }

  /** Amounts added to a team's counters. */
  datatype Gain = Gain(played: nat, won: nat, drawn: nat, lost: nat, points: nat)

  /** What one outcome adds: one match, and 3 points for a win or 1 for a draw. */
  function GainOf(o: Outcome): Gain
  {
    match o
    case Win => Gain(1, 1, 0, 0, 3)
    case Draw => Gain(1, 0, 1, 0, 1)
    case Loss => Gain(1, 0, 0, 1, 0)
  }

  function Plus(g: Gain, h: Gain): Gain
  {
    Gain(g.played + h.played, g.won + h.won, g.drawn + h.drawn, g.lost + h.lost, g.points + h.points)
  }

  function Add(t: Team, g: Gain): Team
  {
    t.(played := t.played + g.played, won := t.won + g.won, drawn := t.drawn + g.drawn,
       lost := t.lost + g.lost, points := t.points + g.points)
  }

  /** What one match adds to a team: its part for each side of the match it is on. */
  function Share(first: bool, second: bool, o: Outcome): Gain
  {
    Plus(if first then GainOf(o) else Gain(0, 0, 0, 0, 0),
         if second then GainOf(Opposite(o)) else Gain(0, 0, 0, 0, 0))
  }

  /** Recording an outcome adds what that outcome is worth. */
  lemma RecordAdds(t: Team, o: Outcome)
    ensures Record(t, o) == Add(t, GainOf(o))
  {
    match o
    case Win =>
    case Draw =>
    case Loss =>
  }

  /** Adding two amounts one after the other adds their sum. */
  lemma AddPlus(t: Team, g: Gain, h: Gain)
    ensures Add(Add(t, g), h) == Add(t, Plus(g, h))
  {
  }

  lemma PlusZero(g: Gain)
    ensures Plus(g, Gain(0, 0, 0, 0, 0)) == g && Plus(Gain(0, 0, 0, 0, 0), g) == g
  {
  }

  lemma AddZero(t: Team)
    ensures Add(t, Gain(0, 0, 0, 0, 0)) == t
  {
    var z := Add(t, Gain(0, 0, 0, 0, 0));
    assert z.name == t.name && z.played == t.played && z.won == t.won;
    assert z.drawn == t.drawn && z.lost == t.lost && z.points == t.points;
  }

  /** A team on both sides of a match gets both parts of it. */
  lemma CreditBoth(t: Team, o: Outcome)
    ensures Credit(t, true, true, o) == Add(t, Share(true, true, o))
  {
    var g, h := GainOf(o), GainOf(Opposite(o));
    RecordAdds(t, o);
    RecordAdds(Add(t, g), Opposite(o));
    AddPlus(t, g, h);
  }

  /** A team on one side of a match gets that side's part. */
  lemma CreditOne(t: Team, first: bool, o: Outcome)
    ensures Credit(t, first, !first, o) == Add(t, Share(first, !first, o))
  {
    if first {
      PlusZero(GainOf(o));
      RecordAdds(t, o);
    } else {
      PlusZero(GainOf(Opposite(o)));
      RecordAdds(t, Opposite(o));
    }
  }

  /** Crediting a match adds that team's share of it. */
  lemma CreditAdds(t: Team, first: bool, second: bool, o: Outcome)
    ensures Credit(t, first, second, o) == Add(t, Share(first, second, o))
  {
    if first && second {
      CreditBoth(t, o);
    } else if first || second {
      CreditOne(t, first, o);
    } else {
      PlusZero(Gain(0, 0, 0, 0, 0));
      AddZero(t);
    }
  }

  /** Crediting two matches to one team gives the same team in either order. */
  lemma CreditCommutes(t: Team, f1: bool, s1: bool, o1: Outcome, f2: bool, s2: bool, o2: Outcome)
    ensures Credit(Credit(t, f1, s1, o1), f2, s2, o2) == Credit(Credit(t, f2, s2, o2), f1, s1, o1)
  {
    var g1, g2 := Share(f1, s1, o1), Share(f2, s2, o2);
    CreditAdds(t, f1, s1, o1);
    CreditAdds(t, f2, s2, o2);
    CreditAdds(Add(t, g1), f2, s2, o2);
    CreditAdds(Add(t, g2), f1, s1, o1);
    AddPlus(t, g1, g2);
    AddPlus(t, g2, g1);
  }

  /** A well-formed record applied to the league, as `Parse` applies it. */
  function Apply(teams: seq<Team>, rec: string): seq<Team>
    requires ValidRecord(rec)
  {
    var parts := Split(rec, ';');
    Handle(teams, parts[2], parts[0], parts[1]).teams
  }

  /** Two well-formed records are both accepted, one after the other. */
  lemma ParseTwo(teams: seq<Team>, r1: string, r2: string)
    requires ValidRecord(r1) && ValidRecord(r2)
    ensures Parse(teams, [r1, r2]) == Run(Apply(Apply(teams, r1), r2), Ok)
  {
    var p := Split(r1, ';');
    var q := Split(r2, ';');
    assert [r1, r2][0] == r1 && [r1, r2][1..] == [r2];
    assert Parse(teams, [r1, r2]) == Parse(Apply(teams, r1), [r2]);
    assert [r2][0] == r2 && [r2][1..] == [];
    assert Parse(Apply(teams, r1), [r2]) == Parse(Apply(Apply(teams, r1), r2), []);
  }

  /** Two leagues with unique names that hold the same teams have the same entries. */
  lemma SameMembers(s: seq<Team>, u: seq<Team>)
    requires UniqueNames(s) && UniqueNames(u)
    requires forall x :: x in s <==> x in u
    ensures multiset(s) == multiset(u)
  {
    forall x ensures multiset(s)[x] == multiset(u)[x] {
      UniqueNamesOnce(s, x);
      UniqueNamesOnce(u, x);
      assert x in s <==> x in multiset(s);
      assert x in u <==> x in multiset(u);
    }
  }

  /** Seen by name, two records give the same league in either order. */
  lemma SwapByName(s: seq<Team>, r1: string, r2: string, name: string)
    requires UniqueNames(s) && ValidRecord(r1) && ValidRecord(r2)
    ensures UniqueNames(Apply(Apply(s, r1), r2)) && UniqueNames(Apply(Apply(s, r2), r1))
    ensures HasTeam(Apply(Apply(s, r1), r2), name) <==> HasTeam(Apply(Apply(s, r2), r1), name)
    ensures Lookup(Apply(Apply(s, r1), r2), name) == Lookup(Apply(Apply(s, r2), r1), name)
  {
    var p, q := Split(r1, ';'), Split(r2, ';');
    var o1, o2 := ParseOutcome(p[2]).value, ParseOutcome(q[2]).value;
    LookupHandle(s, p[2], p[0], p[1], name);
    LookupHandle(Apply(s, r1), q[2], q[0], q[1], name);
    LookupHandle(s, q[2], q[0], q[1], name);
    LookupHandle(Apply(s, r2), p[2], p[0], p[1], name);
    CreditCommutes(Lookup(s, name), name == p[0], name == p[1], o1, name == q[0], name == q[1], o2);
  }

  /**
    Swapping two well-formed records leaves the same teams, with the same
    counters; only the order of first mention may differ.
   */
  lemma SwapRecords(teams: seq<Team>, r1: string, r2: string)
    requires UniqueNames(teams) && ValidRecord(r1) && ValidRecord(r2)
    ensures Parse(teams, [r1, r2]).status == Ok && Parse(teams, [r2, r1]).status == Ok
    ensures multiset(Parse(teams, [r1, r2]).teams) == multiset(Parse(teams, [r2, r1]).teams)
  {
    ParseTwo(teams, r1, r2);
    ParseTwo(teams, r2, r1);
    var s, u := Apply(Apply(teams, r1), r2), Apply(Apply(teams, r2), r1);
    SwapByName(teams, r1, r2, "");
    forall x ensures x in s <==> x in u {
      SwapByName(teams, r1, r2, x.name);
      Members(s, x);
      Members(u, x);
    }
    SameMembers(s, u);
  }

  /** When no two teams share a point total, swapping two records gives the same table. */
  lemma SwapSameTable(teams: seq<Team>, r1: string, r2: string, t1: seq<Team>, t2: seq<Team>)
    requires UniqueNames(teams) && ValidRecord(r1) && ValidRecord(r2)
    requires IsRanking(t1, Parse(teams, [r1, r2]).teams) && IsRanking(t2, Parse(teams, [r2, r1]).teams)
    requires TieFree(multiset(Parse(teams, [r1, r2]).teams))
    ensures t1 == t2
  {
    SwapRecords(teams, r1, r2);
    RankingUnique(t1, t2);
  }
}
