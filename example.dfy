/**
  The tally of the test data that comes with the program: six matches between
  four teams, stated first for any four distinct names without `;` and then
  for the names the test uses.
 */
module TallyExample {
  import opened GoSplit
  import opened Standings
  import opened Ranking
  import opened Tournament

  /** Four different team names that can stand in a record. */
  predicate Names(a: string, b: string, c: string, d: string)
  {
    ';' !in a && ';' !in b && ';' !in c && ';' !in d &&
    a != b && a != c && a != d && b != c && b != d && c != d
  }

  /** A record `x;y;res`. */
  function Line(x: string, y: string, res: string): string
  {
    x + ";" + y + ";" + res
  }

  /**
    The six records of the test with Alaskians `a`, Badgers `b`,
    Californians `c` and Donkeys `d`, in input order.
   */
  function Matches(a: string, b: string, c: string, d: string): seq<string>
  {
    [Line(a, b, "win"), Line(d, c, "draw"), Line(d, a, "win"),
     Line(c, b, "loss"), Line(b, d, "loss"), Line(a, c, "win")]
  }

  /** The expected standings, most points first. */
  function Standing(a: string, b: string, c: string, d: string): seq<Team>
  {
    [Team(d, 3, 2, 1, 0, 7), Team(a, 3, 2, 0, 1, 6), Team(b, 3, 1, 0, 2, 3), Team(c, 3, 0, 1, 2, 1)]
  }

  /** The league after each record, teams in order of first mention. */
  function After1(a: string, b: string): seq<Team>
  {
    [Team(a, 1, 1, 0, 0, 3), Team(b, 1, 0, 0, 1, 0)]
  }

  function After2(a: string, b: string, c: string, d: string): seq<Team>
  {
    [Team(a, 1, 1, 0, 0, 3), Team(b, 1, 0, 0, 1, 0), Team(d, 1, 0, 1, 0, 1), Team(c, 1, 0, 1, 0, 1)]
  }

  function After3(a: string, b: string, c: string, d: string): seq<Team>
  {
    [Team(a, 2, 1, 0, 1, 3), Team(b, 1, 0, 0, 1, 0), Team(d, 2, 1, 1, 0, 4), Team(c, 1, 0, 1, 0, 1)]
  }

  function After4(a: string, b: string, c: string, d: string): seq<Team>
  {
    [Team(a, 2, 1, 0, 1, 3), Team(b, 2, 1, 0, 1, 3), Team(d, 2, 1, 1, 0, 4), Team(c, 2, 0, 1, 1, 1)]
  }

  function After5(a: string, b: string, c: string, d: string): seq<Team>
  {
    [Team(a, 2, 1, 0, 1, 3), Team(b, 3, 1, 0, 2, 3), Team(d, 3, 2, 1, 0, 7), Team(c, 2, 0, 1, 1, 1)]
  }

  function After6(a: string, b: string, c: string, d: string): seq<Team>
  {
    [Team(a, 3, 2, 0, 1, 6), Team(b, 3, 1, 0, 2, 3), Team(d, 3, 2, 1, 0, 7), Team(c, 3, 0, 1, 2, 1)]
  }

  /** A record with three `;`-free fields splits back into those fields. */
  lemma SplitLine(x: string, y: string, res: string)
    requires ';' !in x && ';' !in y && ';' !in res
    ensures Split(Line(x, y, res), ';') == [x, y, res]
  {
    var parts := [x, y, res];
    assert parts[1..] == [y, res] && [y, res][1..] == [res];
    assert Join([y, res], ';') == y + [';'] + res;
    assert Join(parts, ';') == x + [';'] + (y + [';'] + res);
    assert x + [';'] + (y + [';'] + res) == Line(x, y, res);
    SplitJoin(parts, ';');
  }

  /** The first record of a run, once split, is handled on the league as it stands. */
  lemma ParseFirst(teams: seq<Team>, x: string, y: string, res: string, rest: seq<string>)
    requires ';' !in x && ';' !in y && ';' !in res
    ensures var step := Handle(teams, res, x, y);
            Parse(teams, [Line(x, y, res)] + rest) ==
              if step.status == Ok then Parse(step.teams, rest) else Run(step.teams, Err(InvalidOutcome))
  {
    SplitLine(x, y, res);
    assert ([Line(x, y, res)] + rest)[1..] == rest;
  }

  /** Looking up a name that is at position `i` and nowhere before. */
  lemma FindAt(teams: seq<Team>, name: string, i: nat)
    requires i < |teams| && teams[i].name == name
    requires forall j :: 0 <= j < i ==> teams[j].name != name
    ensures FindOrCreate(teams, name) == Found(teams, i)
  {
    assert HasTeam(teams, name);
  }

  /** Looking up a name that is not there yet. */
  lemma FindNone(teams: seq<Team>, name: string)
    requires forall j :: 0 <= j < |teams| ==> teams[j].name != name
    ensures FindOrCreate(teams, name) == Found(teams + [NewTeam(name)], |teams|)
  {
  }

  /** Both halves of a match's score, written out as the resulting list. */
  lemma Scoring(s: seq<Team>, i1: nat, i2: nat, o: Outcome, t: seq<Team>)
    requires i1 < |s| && i2 < |s| && i1 != i2 && |t| == |s|
    requires t[i1] == Record(s[i1], o) && t[i2] == Record(s[i2], Opposite(o))
    requires forall k :: 0 <= k < |s| && k != i1 && k != i2 ==> t[k] == s[k]
    ensures var once := s[i1 := Record(s[i1], o)];
            once[i2 := Record(once[i2], Opposite(o))] == t
  {
  }

  /** One match between two teams of the league, scored at their positions. */
  lemma Match(teams: seq<Team>, res: string, o: Outcome, x: string, y: string,
              g: seq<Team>, i1: nat, i2: nat, after: seq<Team>)
    requires ParseOutcome(res) == Some(o)
    requires Register(teams, x, y) == Registered(g, i1, i2)
    requires i1 < |g| && i2 < |g| && i1 != i2 && |after| == |g|
    requires after[i1] == Record(g[i1], o) && after[i2] == Record(g[i2], Opposite(o))
    requires forall k :: 0 <= k < |g| && k != i1 && k != i2 ==> after[k] == g[k]
    ensures Handle(teams, res, x, y) == Step(after, Ok)
  {
    Scoring(g, i1, i2, o, after);
  }

  /** The first record, a win, adds both teams. */
  lemma Match1(a: string, b: string)
    requires ';' !in a && ';' !in b && a != b
    ensures Handle([], "win", a, b) == Step(After1(a, b), Ok)
  {
    FindNone([], a);
    FindNone([NewTeam(a)], b);
    assert [NewTeam(a)] + [NewTeam(b)] == [NewTeam(a), NewTeam(b)];
    Match([], "win", Win, a, b, [NewTeam(a), NewTeam(b)], 0, 1, After1(a, b));
  }

  lemma Match2(a: string, b: string, c: string, d: string)
    requires Names(a, b, c, d)
    ensures Handle(After1(a, b), "draw", d, c) == Step(After2(a, b, c, d), Ok)
  {
    var s := After1(a, b);
    FindNone(s, d);
    FindNone(s + [NewTeam(d)], c);
    var g := s + [NewTeam(d)] + [NewTeam(c)];
    Match(s, "draw", Draw, d, c, g, 2, 3, After2(a, b, c, d));
  }

  lemma Match3(a: string, b: string, c: string, d: string)
    requires Names(a, b, c, d)
    ensures Handle(After2(a, b, c, d), "win", d, a) == Step(After3(a, b, c, d), Ok)
  {
    var s := After2(a, b, c, d);
    FindAt(s, d, 2);
    FindAt(s, a, 0);
    Match(s, "win", Win, d, a, s, 2, 0, After3(a, b, c, d));
  }

  lemma Match4(a: string, b: string, c: string, d: string)
    requires Names(a, b, c, d)
    ensures Handle(After3(a, b, c, d), "loss", c, b) == Step(After4(a, b, c, d), Ok)
  {
    var s := After3(a, b, c, d);
    FindAt(s, c, 3);
    FindAt(s, b, 1);
    Match(s, "loss", Loss, c, b, s, 3, 1, After4(a, b, c, d));
  }

  lemma Match5(a: string, b: string, c: string, d: string)
    requires Names(a, b, c, d)
    ensures Handle(After4(a, b, c, d), "loss", b, d) == Step(After5(a, b, c, d), Ok)
  {
    var s := After4(a, b, c, d);
    FindAt(s, b, 1);
    FindAt(s, d, 2);
    Match(s, "loss", Loss, b, d, s, 1, 2, After5(a, b, c, d));
  }

  lemma Match6(a: string, b: string, c: string, d: string)
    requires Names(a, b, c, d)
    ensures Handle(After5(a, b, c, d), "win", a, c) == Step(After6(a, b, c, d), Ok)
  {
    var s := After5(a, b, c, d);
    FindAt(s, a, 0);
    FindAt(s, c, 3);
    Match(s, "win", Win, a, c, s, 0, 3, After6(a, b, c, d));
  }

  /** The records from position `k` on take the league from its state after `k` records to After6. */
  lemma Rest5(a: string, b: string, c: string, d: string)
    requires Names(a, b, c, d)
    ensures Parse(After5(a, b, c, d), Matches(a, b, c, d)[5..]) == Run(After6(a, b, c, d), Ok)
  {
    assert Matches(a, b, c, d)[5..] == [Line(a, c, "win")] + [];
    Match6(a, b, c, d);
    ParseFirst(After5(a, b, c, d), a, c, "win", []);
  }

  lemma Rest4(a: string, b: string, c: string, d: string)
    requires Names(a, b, c, d)
    ensures Parse(After4(a, b, c, d), Matches(a, b, c, d)[4..]) == Run(After6(a, b, c, d), Ok)
  {
    assert Matches(a, b, c, d)[4..] == [Line(b, d, "loss")] + Matches(a, b, c, d)[5..];
    Rest5(a, b, c, d);
    Match5(a, b, c, d);
    ParseFirst(After4(a, b, c, d), b, d, "loss", Matches(a, b, c, d)[5..]);
  }

  lemma Rest3(a: string, b: string, c: string, d: string)
    requires Names(a, b, c, d)
    ensures Parse(After3(a, b, c, d), Matches(a, b, c, d)[3..]) == Run(After6(a, b, c, d), Ok)
  {
    assert Matches(a, b, c, d)[3..] == [Line(c, b, "loss")] + Matches(a, b, c, d)[4..];
    Rest4(a, b, c, d);
    Match4(a, b, c, d);
    ParseFirst(After3(a, b, c, d), c, b, "loss", Matches(a, b, c, d)[4..]);
  }

  lemma Rest2(a: string, b: string, c: string, d: string)
    requires Names(a, b, c, d)
    ensures Parse(After2(a, b, c, d), Matches(a, b, c, d)[2..]) == Run(After6(a, b, c, d), Ok)
  {
    assert Matches(a, b, c, d)[2..] == [Line(d, a, "win")] + Matches(a, b, c, d)[3..];
    Rest3(a, b, c, d);
    Match3(a, b, c, d);
    ParseFirst(After2(a, b, c, d), d, a, "win", Matches(a, b, c, d)[3..]);
  }

  lemma Rest1(a: string, b: string, c: string, d: string)
    requires Names(a, b, c, d)
    ensures Parse(After1(a, b), Matches(a, b, c, d)[1..]) == Run(After6(a, b, c, d), Ok)
  {
    assert Matches(a, b, c, d)[1..] == [Line(d, c, "draw")] + Matches(a, b, c, d)[2..];
    Rest2(a, b, c, d);
    Match2(a, b, c, d);
    ParseFirst(After1(a, b), d, c, "draw", Matches(a, b, c, d)[2..]);
  }

  lemma Rest0(a: string, b: string, c: string, d: string)
    requires Names(a, b, c, d)
    ensures Parse([], Matches(a, b, c, d)[0..]) == Run(After6(a, b, c, d), Ok)
  {
    assert Matches(a, b, c, d)[0..] == [Line(a, b, "win")] + Matches(a, b, c, d)[1..];
    Rest1(a, b, c, d);
    Match1(a, b);
    ParseFirst([], a, b, "win", Matches(a, b, c, d)[1..]);
  }

  /** All six records are accepted; the league ends as After6, in order of first mention. */
  lemma ParseMatches(a: string, b: string, c: string, d: string)
    requires Names(a, b, c, d)
    ensures Parse([], Matches(a, b, c, d)) == Run(After6(a, b, c, d), Ok)
  {
    Rest0(a, b, c, d);
    assert Matches(a, b, c, d)[0..] == Matches(a, b, c, d);
  }

  /** The final league is one ranking away from the expected standings. */
  lemma ExpectedIsRanking(a: string, b: string, c: string, d: string)
    requires Names(a, b, c, d)
    ensures IsRanking(Standing(a, b, c, d), After6(a, b, c, d))
  {
    var s := After6(a, b, c, d);
    assert Standing(a, b, c, d) == [s[2]] + [s[0], s[1]] + [s[3]];
    assert s == [s[0], s[1]] + [s[2]] + [s[3]];
  }

  /** No two teams of the final league share a point total. */
  lemma FinalTieFree(a: string, b: string, c: string, d: string)
    requires Names(a, b, c, d)
    ensures TieFree(multiset(After6(a, b, c, d)))
  {
    var s := After6(a, b, c, d);
    var m := multiset(s);
    assert m == multiset{s[0]} + multiset{s[1]} + multiset{s[2]} + multiset{s[3]};
    forall x | x in m ensures x == s[0] || x == s[1] || x == s[2] || x == s[3] {
    }
    forall x | x in m ensures m[x] == 1 {
    }
  }

  /** The tally of the six matches prints exactly the expected table. */
  method TallyMatches(a: string, b: string, c: string, d: string) returns (r: Tallied)
    requires Names(a, b, c, d)
    ensures r == Table(Standing(a, b, c, d))
  {
    r := Tally(Matches(a, b, c, d));
    ParseMatches(a, b, c, d);
    ExpectedIsRanking(a, b, c, d);
    FinalTieFree(a, b, c, d);
    RankingUnique(r.rows, Standing(a, b, c, d));
  }

  const Alaskians: string := "Allegoric Alaskians"
  const Badgers: string := "Blithering Badgers"
  const Californians: string := "Courageous Californians"
  const Donkeys: string := "Devastating Donkeys"

  /** The test's names are four different names without `;`. */
  lemma TestNames()
    ensures Names(Alaskians, Badgers, Californians, Donkeys)
  {
    assert Alaskians[0] == 'A' && Badgers[0] == 'B' && Californians[0] == 'C' && Donkeys[0] == 'D';
  }

  /**
    The test's six records, `Allegoric Alaskians;Blithering Badgers;win` and
    so on, give its table: Donkeys 7, Alaskians 6, Badgers 3, Californians 1.
   */
  method TallyTestData() returns (r: Tallied)
    ensures r == Table([
      Team("Devastating Donkeys", 3, 2, 1, 0, 7),
      Team("Allegoric Alaskians", 3, 2, 0, 1, 6),
      Team("Blithering Badgers", 3, 1, 0, 2, 3),
      Team("Courageous Californians", 3, 0, 1, 2, 1)])
  {
    TestNames();
    r := TallyMatches(Alaskians, Badgers, Californians, Donkeys);
  }

  /** A record with two fields stops the tally before any team is added. */
  lemma TwoFields()
    ensures Parse([], ["A;B"]) == Run([], Err(WrongFieldCount))
  {
    assert Split("A;B", ';') == ["A", "B"] by {
      SplitJoin(["A", "B"], ';');
      assert Join(["A", "B"], ';') == "A;B";
    }
  }

  /** An unknown outcome fails, but only after both teams have been added. */
  lemma UnknownOutcome()
    ensures Parse([], ["A;B;tie"]) == Run([NewTeam("A"), NewTeam("B")], Err(InvalidOutcome))
  {
    SplitLine("A", "B", "tie");
    assert Line("A", "B", "tie") == "A;B;tie";
    FindNone([], "A");
    FindNone([NewTeam("A")], "B");
    assert [NewTeam("A")] + [NewTeam("B")] == [NewTeam("A"), NewTeam("B")];
  }

  /** The second of two wins against each other. */
  lemma SecondWin(a: string, b: string)
    requires ';' !in a && ';' !in b && a != b
    ensures Parse(After1(a, b), [Line(b, a, "win")]) ==
            Run([Team(a, 2, 1, 0, 1, 3), Team(b, 2, 1, 0, 1, 3)], Ok)
  {
    var after1 := After1(a, b);
    FindAt(after1, b, 1);
    FindAt(after1, a, 0);
    Match(after1, "win", Win, b, a, after1, 1, 0, [Team(a, 2, 1, 0, 1, 3), Team(b, 2, 1, 0, 1, 3)]);
    ParseFirst(after1, b, a, "win", []);
    assert [Line(b, a, "win")] == [Line(b, a, "win")] + [];
  }

  /** Two wins against each other: both teams end on one win, one loss and 3 points. */
  lemma ParseMutualWins(a: string, b: string)
    requires ';' !in a && ';' !in b && a != b
    ensures Parse([], [Line(a, b, "win"), Line(b, a, "win")]) ==
            Run([Team(a, 2, 1, 0, 1, 3), Team(b, 2, 1, 0, 1, 3)], Ok)
  {
    Match1(a, b);
    SecondWin(a, b);
    ParseFirst([], a, b, "win", [Line(b, a, "win")]);
    assert [Line(a, b, "win"), Line(b, a, "win")] == [Line(a, b, "win")] + [Line(b, a, "win")];
  }

  /** A list holding exactly two given teams is one of their two orders. */
  lemma PairOrders(rows: seq<Team>, x: Team, y: Team)
    requires multiset(rows) == multiset([x, y])
    ensures rows == [x, y] || rows == [y, x]
  {
    assert |rows| == 2;
    assert rows == [rows[0], rows[1]];
    assert multiset(rows) == multiset{rows[0], rows[1]};
  }

  /**
    Two wins against each other leave both teams on 3 points: the table is
    one of the two orders of the pair, and which one is not fixed.
   */
  method TallyTie(a: string, b: string) returns (r: Tallied)
    requires ';' !in a && ';' !in b && a != b
    ensures r.Table?
    ensures r.rows == [Team(a, 2, 1, 0, 1, 3), Team(b, 2, 1, 0, 1, 3)] ||
            r.rows == [Team(b, 2, 1, 0, 1, 3), Team(a, 2, 1, 0, 1, 3)]
  {
    var records := [Line(a, b, "win"), Line(b, a, "win")];
    ParseMutualWins(a, b);
    r := Tally(records);
    PairOrders(r.rows, Team(a, 2, 1, 0, 1, 3), Team(b, 2, 1, 0, 1, 3));
  }
}
