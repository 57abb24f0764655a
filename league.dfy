/**
  The league as the program keeps it: one object whose team list grows and
  changes in place as match records are read, then is sorted for the table.
  Each method is proved to do what the matching function of module Standings
  describes, or to leave the teams a ranking of what they were.
 */
module Tournament {
  import opened GoSplit
  import opened Standings
  import opened Ranking

  /** The score board: teams in the order they were first mentioned, until sorted. */
  class League {
    var teams: seq<Team>

    constructor ()
      ensures teams == []
    {
      teams := [];
    }

    /** Appends a team to the end of the list. */
    method AddTeam(t: Team)
      modifies this
      ensures teams == old(teams) + [t]
    {
      teams := teams + [t];
    }

    /**
      The position of the first team with exactly this name; a zero team with
      that name is appended first when there is none.
     */
    method FindOrCreateTeam(name: string) returns (index: nat)
      modifies this
      ensures Found(teams, index) == FindOrCreate(old(teams), name)
    {
      for i := 0 to |teams|
        invariant teams == old(teams)
        invariant forall j :: 0 <= j < i ==> teams[j].name != name
      {
        if teams[i].name == name {
          return i;
        }
      }
      AddTeam(NewTeam(name));
      index := |teams| - 1;
    }

    /**
      Records one match: both teams are found or created first, so the list
      may grow even when `res` turns out not to be an outcome. Positions stand
      for the program's shared team references: equal names give one position,
      and both updates land on that team.
     */
    method HandleResults(res: string, name1: string, name2: string) returns (status: Status)
      modifies this
      ensures Step(teams, status) == Handle(old(teams), res, name1, name2)
    {
      var t := FindOrCreateTeam(name1);
      var t2 := FindOrCreateTeam(name2);
      match ParseOutcome(res) {
        case Some(o) =>
          teams := teams[t := Record(teams[t], o)];
          teams := teams[t2 := Record(teams[t2], Opposite(o))];
          status := Ok;
        case None =>
          status := Err(InvalidOutcome);
      }
    }

    /**
      Applies the records in order; each is split on `;` and must have three
      fields. The first failure stops the run, with what came before it kept.
     */
    method ParseData(records: seq<string>) returns (status: Status)
      modifies this
      ensures Run(teams, status) == Parse(old(teams), records)
    {
      for i := 0 to |records|
        invariant Parse(old(teams), records) == Parse(teams, records[i..])
      {
        assert records[i..][0] == records[i] && records[i..][1..] == records[i + 1..];
        var split := Split(records[i], ';');
        if |split| != 3 {
          return Err(WrongFieldCount);
        }
        var err := HandleResults(split[2], split[0], split[1]);
        if err.Err? {
          return Err(InvalidOutcome);
        }
      }
      return Ok;
    }

    /**
      Reorders the teams so that points never increase along the list. The
      sort is not stable and nothing fixes the order among equal points, so
      the new list is any such reordering.
     */
    method SortLeagueByPoints()
      modifies this
      ensures IsRanking(teams, old(teams))
    {
      var current := teams;
      assert IsRanking(Ranked(current), current);
      var sorted :| IsRanking(sorted, current);
      teams := sorted;
    }

    /**
      Sorts by points, then sorts again with a comparator that compares the
      names of `team1` and `team2` and ignores the positions it is asked about.
      Such a comparator orders nothing, so the second sort leaves the teams
      in some order: only the collection of teams is kept.
     */
    method SortByName(team1: Team, team2: Team)
      modifies this
      ensures multiset(teams) == multiset(old(teams))
    {
      SortLeagueByPoints();
      var current := teams;
      var shuffled :| multiset(shuffled) == multiset(current);
      teams := shuffled;
    }

    /**
      Scans neighbouring teams once, left to right, and calls SortByName on
      every pair with equal points. Without such a pair nothing moves.
     */
    method CheckTie()
      modifies this
      ensures multiset(teams) == multiset(old(teams))
      ensures !HasAdjacentTie(old(teams)) ==> teams == old(teams)
    {
      var i := 0;
      while i < |teams| - 1
        invariant 0 <= i
        invariant multiset(teams) == multiset(old(teams))
        invariant !HasAdjacentTie(old(teams)) ==> teams == old(teams)
        decreases |teams| - i
      {
        if teams[i].points == teams[i + 1].points {
          SortByName(teams[i], teams[i + 1]);
        }
        i := i + 1;
      }
    }

    /** The rows of the standings table, in order, after the tie check. */
    method BuildTable() returns (rows: seq<Team>)
      modifies this
      ensures rows == teams
      ensures multiset(teams) == multiset(old(teams))
      ensures !HasAdjacentTie(old(teams)) ==> teams == old(teams)
    {
      CheckTie();
      rows := teams;
    }
  }

  /** The result of a tally: the table's rows, or why the input was refused. */
  datatype Tallied = Table(rows: seq<Team>) | Failed(error: Error)

  /**
    A whole tally on records already read: a fresh league takes every record,
    then is sorted by points and printed. A failing record means no table;
    otherwise every team appears once, consistent, and when no two teams share
    a point total the rows run from most points to fewest.
   */
  method Tally(records: seq<string>) returns (r: Tallied)
    ensures r.Failed? <==> Parse([], records).status.Err?
    ensures r.Failed? ==> Parse([], records).status == Err(r.error)
    ensures r.Table? ==> multiset(r.rows) == multiset(Parse([], records).teams)
    ensures r.Table? ==> AllConsistent(r.rows) && UniqueNames(r.rows)
    ensures r.Table? && TieFree(multiset(Parse([], records).teams)) ==> SortedByPoints(r.rows)
  {
    var league := new League();
    var status := league.ParseData(records);
    if status.Err? {
      return Failed(status.error);
    }
    ParseKeepsInvariant([], records);
    league.SortLeagueByPoints();
    ghost var sorted := league.teams;
    if TieFree(multiset(sorted)) {
      TieFreeHasNoAdjacentTie(sorted);
    }
    var rows := league.BuildTable();
    ReorderKeepsTeams(rows, Parse([], records).teams);
    r := Table(rows);
  }
}
