/**
  The value-level meaning of a league tally: teams and their counters, the
  scoring rule, find-or-create by name, ingestion of one match and of a whole
  list of records. The `League` class in module Tournament is proved to do
  exactly what these functions describe; the lemmas here state what the
  functions promise.
 */
module Standings {
  import opened GoSplit

  datatype Option<T> = None | Some(value: T)

  /** A team with its matches played, won, drawn and lost, and its points. */
  datatype Team = Team(name: string, played: nat, won: nat, drawn: nat, lost: nat, points: nat)

  /** A team as it is created on first mention: every counter zero. */
  function NewTeam(name: string): Team
  {
    Team(name, 0, 0, 0, 0, 0)
  }

  /** Every team always satisfies MP = W + D + L and P = 3W + D. */
  predicate Consistent(t: Team)
  {
    t.played == t.won + t.drawn + t.lost && t.points == 3 * t.won + t.drawn
  }

  /** A match outcome, from the point of view of the team it is recorded for. */
  datatype Outcome = Win | Draw | Loss

  /** The three outcome words of the input; anything else is not an outcome. */
  function ParseOutcome(res: string): Option<Outcome>
  {
    if res == "win" then Some(Win)
    else if res == "draw" then Some(Draw)
    else if res == "loss" then Some(Loss)
    else None
  }

  /** The outcome of the same match seen from the other team. */
  function Opposite(o: Outcome): Outcome
  {
    match o
    case Win => Loss
    case Draw => Draw
    case Loss => Win
  }

  /** The scoring rule: one more match, with 3 points for a win and 1 for a draw. */
  function Record(t: Team, o: Outcome): (r: Team)
    ensures r.name == t.name && r.played == t.played + 1
    ensures r.won + r.drawn + r.lost == t.won + t.drawn + t.lost + 1
    ensures Consistent(t) ==> Consistent(r)
  {
    match o
    case Win => t.(played := t.played + 1, won := t.won + 1, points := t.points + 3)
    case Draw => t.(played := t.played + 1, drawn := t.drawn + 1, points := t.points + 1)
    case Loss => t.(played := t.played + 1, lost := t.lost + 1)
  }

  /** The two ways a tally fails: a record without three fields, or an unknown outcome. */
  datatype Error = WrongFieldCount | InvalidOutcome

  datatype Status = Ok | Err(error: Error)

  predicate HasTeam(teams: seq<Team>, name: string)
  {
    exists i :: 0 <= i < |teams| && teams[i].name == name
  }

  predicate UniqueNames(teams: seq<Team>)
  {
    forall i, j :: 0 <= i < j < |teams| ==> teams[i].name != teams[j].name
  }

  predicate AllConsistent(teams: seq<Team>)
  {
    forall i :: 0 <= i < |teams| ==> Consistent(teams[i])
  }

  /** Position of the first team called `name`, or `|teams|` when there is none. */
  function IndexOfName(teams: seq<Team>, name: string): (i: nat)
    ensures i <= |teams|
    ensures forall j :: 0 <= j < i ==> teams[j].name != name
    ensures i < |teams| ==> teams[i].name == name
  {
    if teams == [] then 0
    else if teams[0].name == name then 0
    else 1 + IndexOfName(teams[1..], name)
  }

  /** A team list together with the position of one team in it. */
  datatype Found = Found(teams: seq<Team>, index: nat)

  /** Find the first team with exactly this name, or append a fresh one at the end. */
  function FindOrCreate(teams: seq<Team>, name: string): (r: Found)
    ensures r.index < |r.teams| && r.teams[r.index].name == name
    ensures HasTeam(teams, name) ==>
              r.teams == teams && forall j :: 0 <= j < r.index ==> teams[j].name != name
    ensures !HasTeam(teams, name) ==>
              r.teams == teams + [NewTeam(name)] && r.index == |teams|
    ensures UniqueNames(teams) ==> UniqueNames(r.teams)
  {
    var i := IndexOfName(teams, name);
    if i < |teams| then Found(teams, i) else Found(teams + [NewTeam(name)], |teams|)
  }

  /** After a find-or-create, a name is present when it was before or when it was the one looked up. */
  lemma FindOrCreateHas(teams: seq<Team>, name: string, other: string)
    ensures HasTeam(FindOrCreate(teams, name).teams, other) <==> HasTeam(teams, other) || other == name
  {
    var f := FindOrCreate(teams, name);
    if HasTeam(teams, other) {
      var i :| 0 <= i < |teams| && teams[i].name == other;
      assert f.teams[i].name == other;
    }
    if other == name {
      assert f.teams[f.index].name == other;
    }
  }

  /** A team list with the positions of the two teams of one match. */
  datatype Registered = Registered(teams: seq<Team>, first: nat, second: nat)

  /** Both teams of a match looked up (and created if needed), first one first. */
  function Register(teams: seq<Team>, name1: string, name2: string): (r: Registered)
    ensures r.first < |r.teams| && r.teams[r.first].name == name1
    ensures r.second < |r.teams| && r.teams[r.second].name == name2
    ensures |teams| <= |r.teams| <= |teams| + 2 && r.teams[..|teams|] == teams
    ensures forall k :: |teams| <= k < |r.teams| ==> r.teams[k] == NewTeam(r.teams[k].name)
    ensures UniqueNames(teams) ==> UniqueNames(r.teams) && (r.first == r.second <==> name1 == name2)
  {
    var f1 := FindOrCreate(teams, name1);
    var f2 := FindOrCreate(f1.teams, name2);
    Registered(f2.teams, f1.index, f2.index)
  }

  /**
    Which teams a match adds: one per name not yet in the league, counted once
    when both names are equal, each with one of the two names; none when
    both are present.
   */
  lemma RegisterAdds(teams: seq<Team>, name1: string, name2: string)
    ensures var r := Register(teams, name1, name2);
            && (forall k :: |teams| <= k < |r.teams| ==> r.teams[k] in {NewTeam(name1), NewTeam(name2)})
            && |r.teams| == |teams| + (if HasTeam(teams, name1) then 0 else 1)
                                    + (if HasTeam(teams, name2) || name1 == name2 then 0 else 1)
            && (HasTeam(teams, name1) && HasTeam(teams, name2) ==> r.teams == teams)
  {
    FindOrCreateHas(teams, name1, name2);
  }

  /** A team list after one step, with that step's status. */
  datatype Step = Step(teams: seq<Team>, status: Status)

  /**
    One match record `name1;name2;res`: both teams are found or created, then
    `res` is applied to the first team and its opposite to the second. When
    both names are the same, both updates land on that one team.
   */
  function Handle(teams: seq<Team>, res: string, name1: string, name2: string): (r: Step)
    ensures r.status == Ok <==> ParseOutcome(res).Some?
    ensures |r.teams| == |Register(teams, name1, name2).teams|
  {
    var g := Register(teams, name1, name2);
    match ParseOutcome(res)
    case None => Step(g.teams, Err(InvalidOutcome))
    case Some(o) =>
      var once := g.teams[g.first := Record(g.teams[g.first], o)];
      Step(once[g.second := Record(once[g.second], Opposite(o))], Ok)
  }

  /** `after` is `before` with the given amounts added to its counters. */
  predicate Scored(before: Team, after: Team, mp: nat, w: nat, d: nat, l: nat, p: nat)
  {
    after == before.(played := before.played + mp, won := before.won + w, drawn := before.drawn + d,
                     lost := before.lost + l, points := before.points + p)
  }

  /**
    The scoring table of one match between two different teams, the error case,
    and that no other team changes.
   */
  lemma HandleEffect(teams: seq<Team>, res: string, name1: string, name2: string)
    requires name1 != name2
    ensures var g := Register(teams, name1, name2);
            var a := Handle(teams, res, name1, name2);
            var t1, t2 := g.teams[g.first], g.teams[g.second];
            && g.first != g.second
            && |a.teams| == |g.teams|
            && (forall k :: 0 <= k < |g.teams| && k != g.first && k != g.second ==> a.teams[k] == g.teams[k])
            && (res == "win" ==> a.status == Ok && Scored(t1, a.teams[g.first], 1, 1, 0, 0, 3)
                                               && Scored(t2, a.teams[g.second], 1, 0, 0, 1, 0))
            && (res == "draw" ==> a.status == Ok && Scored(t1, a.teams[g.first], 1, 0, 1, 0, 1)
                                                 && Scored(t2, a.teams[g.second], 1, 0, 1, 0, 1))
            && (res == "loss" ==> a.status == Ok && Scored(t1, a.teams[g.first], 1, 0, 0, 1, 0)
                                                 && Scored(t2, a.teams[g.second], 1, 1, 0, 0, 3))
            && (res != "win" && res != "draw" && res != "loss" ==> a == Step(g.teams, Err(InvalidOutcome)))
  {
    var g := Register(teams, name1, name2);
    assert g.teams[g.first].name != g.teams[g.second].name;
  }

  /** A team playing itself: both halves of the score land on the one team. */
  lemma HandleSelf(teams: seq<Team>, res: string, name: string)
    ensures var g := Register(teams, name, name);
            var a := Handle(teams, res, name, name);
            var t := g.teams[g.first];
            && |a.teams| == |g.teams|
            && (forall k :: 0 <= k < |g.teams| && k != g.first ==> a.teams[k] == g.teams[k])
            && (res == "win" || res == "loss" ==> a.status == Ok && Scored(t, a.teams[g.first], 2, 1, 0, 1, 3))
            && (res == "draw" ==> a.status == Ok && Scored(t, a.teams[g.first], 2, 0, 2, 0, 2))
            && (res != "win" && res != "draw" && res != "loss" ==> a == Step(g.teams, Err(InvalidOutcome)))
  {
    var g := Register(teams, name, name);
    var f1 := FindOrCreate(teams, name);
    assert f1.teams[f1.index].name == name;
    assert HasTeam(f1.teams, name);
    assert g.first == g.second;
  }

  /** The counter columns, to add them up over a team list. */
  datatype Column = Played | Won | Drawn | Lost | Points

  function Get(t: Team, c: Column): nat
  {
    match c
    case Played => t.played
    case Won => t.won
    case Drawn => t.drawn
    case Lost => t.lost
    case Points => t.points
  }

  /** The sum of one column over all teams. */
  function Total(teams: seq<Team>, c: Column): nat
  {
    if teams == [] then 0 else Total(teams[..|teams| - 1], c) + Get(teams[|teams| - 1], c)
  }

  lemma TotalAppend(teams: seq<Team>, t: Team, c: Column)
    ensures Total(teams + [t], c) == Total(teams, c) + Get(t, c)
  {
    assert (teams + [t])[..|teams|] == teams;
  }

  /** Replacing one team changes a column's sum by exactly that team's difference. */
  lemma {:induction false} TotalUpdate(teams: seq<Team>, i: nat, t: Team, c: Column)
    requires i < |teams|
    ensures Total(teams[i := t], c) == Total(teams, c) - Get(teams[i], c) + Get(t, c)
  {
    var n := |teams| - 1;
    if i == n {
      assert teams[i := t][..n] == teams[..n];
    } else {
      assert teams[i := t][..n] == teams[..n][i := t];
      TotalUpdate(teams[..n], i, t, c);
    }
  }

  /** Looking up the teams of a match adds only zero teams, so no sum moves. */
  lemma RegisterKeepsTotals(teams: seq<Team>, name1: string, name2: string, c: Column)
    ensures Total(Register(teams, name1, name2).teams, c) == Total(teams, c)
  {
    var f1 := FindOrCreate(teams, name1);
    var f2 := FindOrCreate(f1.teams, name2);
    if !HasTeam(teams, name1) {
      TotalAppend(teams, NewTeam(name1), c);
    }
    if !HasTeam(f1.teams, name2) {
      TotalAppend(f1.teams, NewTeam(name2), c);
    }
  }

  /**
    What holds of the league between records: every team consistent, names
    unique, and as many wins as losses in total.
   */
  predicate LeagueInvariant(teams: seq<Team>)
  {
    AllConsistent(teams) && UniqueNames(teams) && Total(teams, Won) == Total(teams, Lost)
  }

  /** Both halves of one match's score keep every team consistent and the names as they were. */
  lemma ScoreKeepsTeams(teams: seq<Team>, i1: nat, i2: nat, o: Outcome)
    requires i1 < |teams| && i2 < |teams|
    ensures var once := teams[i1 := Record(teams[i1], o)];
            var a := once[i2 := Record(once[i2], Opposite(o))];
            && |a| == |teams|
            && (forall k :: 0 <= k < |a| ==> a[k].name == teams[k].name)
            && (AllConsistent(teams) ==> AllConsistent(a))
  {
  }

  /** One match's score adds two matches played and as many wins as losses. */
  lemma ScoreTotals(teams: seq<Team>, i1: nat, i2: nat, o: Outcome)
    requires i1 < |teams| && i2 < |teams|
    ensures var once := teams[i1 := Record(teams[i1], o)];
            var a := once[i2 := Record(once[i2], Opposite(o))];
            && Total(a, Played) == Total(teams, Played) + 2
            && Total(a, Won) + Total(teams, Lost) == Total(a, Lost) + Total(teams, Won)
  {
    var t1 := Record(teams[i1], o);
    var once := teams[i1 := t1];
    var t2 := Record(once[i2], Opposite(o));
    TotalUpdate(teams, i1, t1, Played);
    TotalUpdate(once, i2, t2, Played);
    TotalUpdate(teams, i1, t1, Won);
    TotalUpdate(once, i2, t2, Won);
    TotalUpdate(teams, i1, t1, Lost);
    TotalUpdate(once, i2, t2, Lost);
  }

  /** Looking up the teams of a match keeps the league invariant and every sum. */
  lemma RegisterKeepsInvariant(teams: seq<Team>, name1: string, name2: string)
    requires LeagueInvariant(teams)
    ensures var g := Register(teams, name1, name2).teams;
            && LeagueInvariant(g)
            && Total(g, Played) == Total(teams, Played)
  {
    var g := Register(teams, name1, name2).teams;
    RegisterKeepsTotals(teams, name1, name2, Played);
    RegisterKeepsTotals(teams, name1, name2, Won);
    RegisterKeepsTotals(teams, name1, name2, Lost);
    forall k | 0 <= k < |g| ensures Consistent(g[k]) {
      if k < |teams| {
        assert g[k] == g[..|teams|][k];
      }
    }
  }

  /**
    One match keeps the league invariant, also when a team plays itself, and a
    recorded match adds exactly two to the matches played in total.
   */
  lemma HandleKeepsInvariant(teams: seq<Team>, res: string, name1: string, name2: string)
    requires LeagueInvariant(teams)
    ensures var a := Handle(teams, res, name1, name2);
            && LeagueInvariant(a.teams)
            && Total(a.teams, Played) == Total(teams, Played) + (if a.status == Ok then 2 else 0)
  {
    var g := Register(teams, name1, name2);
    RegisterKeepsInvariant(teams, name1, name2);
    match ParseOutcome(res)
    case None =>
    case Some(o) =>
      ScoreKeepsTeams(g.teams, g.first, g.second, o);
      ScoreTotals(g.teams, g.first, g.second, o);
      var a := Handle(teams, res, name1, name2).teams;
      assert UniqueNames(a) by {
        forall i, j | 0 <= i < j < |a| ensures a[i].name != a[j].name {
          assert a[i].name == g.teams[i].name && a[j].name == g.teams[j].name;
        }
      }
  }

  /** A record is well formed: three `;`-separated fields, the last an outcome word. */
  predicate ValidRecord(rec: string)
  {
    var parts := Split(rec, ';');
    |parts| == 3 && ParseOutcome(parts[2]).Some?
  }

  /** Why a malformed record is rejected. */
  function RecordError(rec: string): (e: Error)
    requires !ValidRecord(rec)
    ensures e == WrongFieldCount <==> Count(rec, ';') != 2
  {
    if |Split(rec, ';')| != 3 then WrongFieldCount else InvalidOutcome
  }

  /** A team list with the status of a whole run of records. */
  datatype Run = Run(teams: seq<Team>, status: Status)

  /**
    The records applied in order; the first record that does not split into
    three fields, or whose outcome is unknown, ends the run with an error.
   */
  function Parse(teams: seq<Team>, records: seq<string>): (r: Run)
    ensures |teams| <= |r.teams| <= |teams| + 2 * |records|
    decreases |records|
  {
    if records == [] then Run(teams, Ok)
    else
      var parts := Split(records[0], ';');
      if |parts| != 3 then Run(teams, Err(WrongFieldCount))
      else
        var step := Handle(teams, parts[2], parts[0], parts[1]);
        if step.status.Err? then Run(step.teams, Err(InvalidOutcome))
        else Parse(step.teams, records[1..])
  }

  /** Position of the first malformed record, or `|records|` when all are well formed. */
  function FirstInvalid(records: seq<string>): (k: nat)
    ensures k <= |records|
    ensures forall j :: 0 <= j < k ==> ValidRecord(records[j])
    ensures k < |records| ==> !ValidRecord(records[k])
  {
    if records == [] then 0
    else if !ValidRecord(records[0]) then 0
    else 1 + FirstInvalid(records[1..])
  }

  /** A record is accepted exactly when it is well formed, whatever the league holds. */
  lemma HandleOk(teams: seq<Team>, rec: string)
    requires |Split(rec, ';')| == 3
    ensures var parts := Split(rec, ';');
            (Handle(teams, parts[2], parts[0], parts[1]).status == Ok) == ValidRecord(rec)
  {
  }

  /** A malformed record ends the run: its error, and for an unknown outcome its teams added. */
  lemma ParseAtInvalid(teams: seq<Team>, records: seq<string>)
    requires records != [] && !ValidRecord(records[0])
    ensures var parts := Split(records[0], ';');
            Parse(teams, records) ==
              Run(if |parts| != 3 then teams else Register(teams, parts[0], parts[1]).teams,
                  Err(RecordError(records[0])))
  {
  }

  /** Records are applied one after another: a run of `a + b` is a run of `b` after one of `a`. */
  lemma {:induction false} ParseConcat(teams: seq<Team>, a: seq<string>, b: seq<string>)
    requires Parse(teams, a).status == Ok
    ensures Parse(teams, a + b) == Parse(Parse(teams, a).teams, b)
    decreases |a|
  {
    if a == [] {
      assert a + b == b;
    } else {
      assert (a + b)[0] == a[0] && (a + b)[1..] == a[1..] + b;
      var parts := Split(a[0], ';');
      var step := Handle(teams, parts[2], parts[0], parts[1]);
      ParseConcat(step.teams, a[1..], b);
    }
  }

  /**
    A run is the well-formed prefix, applied without error, followed by the
    rest from the first malformed record on.
   */
  lemma {:induction false} ParseAtFirstInvalid(teams: seq<Team>, records: seq<string>)
    ensures var k := FirstInvalid(records);
            var done := Parse(teams, records[..k]);
            done.status == Ok && Parse(teams, records) == Parse(done.teams, records[k..])
    decreases |records|
  {
    var k := FirstInvalid(records);
    if k == 0 {
      assert records[..0] == [] && records[0..] == records;
    } else {
      var parts := Split(records[0], ';');
      var step := Handle(teams, parts[2], parts[0], parts[1]);
      HandleOk(teams, records[0]);
      ParseAtFirstInvalid(step.teams, records[1..]);
      assert records[..k][0] == records[0];
      assert records[..k][1..] == records[1..][..k - 1];
      assert records[1..][k - 1..] == records[k..];
    }
  }

  /**
    A run with a malformed record fails with that record's error, after every
    record before it has been applied; for an unknown outcome its two teams
    have been added as well.
   */
  lemma ParseFails(teams: seq<Team>, records: seq<string>)
    requires FirstInvalid(records) < |records|
    ensures var k := FirstInvalid(records);
            var done := Parse(teams, records[..k]);
            var parts := Split(records[k], ';');
            Parse(teams, records) ==
              Run(if |parts| != 3 then done.teams else Register(done.teams, parts[0], parts[1]).teams,
                  Err(RecordError(records[k])))
  {
    var k := FirstInvalid(records);
    ParseAtFirstInvalid(teams, records);
    assert records[k..][0] == records[k];
    ParseAtInvalid(Parse(teams, records[..k]).teams, records[k..]);
  }

  /**
    A run fails exactly when some record is malformed. Then the error is that
    of the first malformed record, every record before it has been applied,
    none after it, and for an unknown outcome its two teams have been added.
   */
  lemma ParseOutcomeOfRun(teams: seq<Team>, records: seq<string>)
    ensures var k := FirstInvalid(records);
            var run := Parse(teams, records);
            var done := Parse(teams, records[..k]);
            && done.status == Ok
            && (run.status == Ok <==> k == |records|)
            && (k == |records| ==> run == done)
            && (k < |records| ==>
                  var parts := Split(records[k], ';');
                  run.status == Err(RecordError(records[k])) &&
                  run.teams == (if |parts| != 3 then done.teams
                                else Register(done.teams, parts[0], parts[1]).teams))
  {
    ParseAtFirstInvalid(teams, records);
    if FirstInvalid(records) == |records| {
      assert records[..|records|] == records;
    } else {
      ParseFails(teams, records);
    }
  }

  /** Once a run has failed, further records change nothing. */
  lemma {:induction false} ParseStops(teams: seq<Team>, records: seq<string>, more: seq<string>)
    requires Parse(teams, records).status.Err?
    ensures Parse(teams, records + more) == Parse(teams, records)
    decreases |records|
  {
    assert (records + more)[0] == records[0] && (records + more)[1..] == records[1..] + more;
    var parts := Split(records[0], ';');
    if |parts| == 3 {
      var step := Handle(teams, parts[2], parts[0], parts[1]);
      if step.status == Ok {
        ParseStops(step.teams, records[1..], more);
      }
    }
  }

  /**
    A run keeps the league invariant, and the matches played add up to two per
    applied record, whether the run ends well or not.
   */
  lemma {:induction false} ParseKeepsInvariant(teams: seq<Team>, records: seq<string>)
    requires LeagueInvariant(teams)
    ensures var run := Parse(teams, records);
            && LeagueInvariant(run.teams)
            && Total(run.teams, Played) == Total(teams, Played) + 2 * FirstInvalid(records)
    decreases |records|
  {
    if records != [] {
      var parts := Split(records[0], ';');
      if |parts| == 3 {
        var step := Handle(teams, parts[2], parts[0], parts[1]);
        HandleKeepsInvariant(teams, parts[2], parts[0], parts[1]);
        HandleOk(teams, records[0]);
        if step.status == Ok {
          ParseKeepsInvariant(step.teams, records[1..]);
        }
      }
    }
  }
}
