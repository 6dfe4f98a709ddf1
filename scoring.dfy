/**
 * League scoring: who won each played submatch, the per-player list of
 * submatch points, the per-player totals, and the pip strings shown next to
 * each player.
 */
module Scoring {
  import opened LeagueData

  /** The team index that wins a submatch: team 0 only on a strict win, so a tie goes to team 1. */
  function WinningTeam(r: Score): (t: nat)
    ensures t == 0 || t == 1
    ensures t == 0 <==> r.yellow > r.black
  {
    if r.yellow > r.black then 0 else 1
  }

  /** `match[team]`: the roster of team 0 (yellow) or team 1 (black). */
  function Roster(s: Submatch, team: nat): seq<Player>
  {
    if team == 0 then s.yellow else s.black
  }

  /** How many (submatch, result) pairs `zip` produces. */
  function Played(m: Match): nat
  {
    if |m.submatches| <= |m.results| then |m.submatches| else |m.results|
  }

  /** The point `p` earns in the `i`-th played submatch. */
  function Point(m: Match, p: Player, i: nat): int
    requires i < Played(m)
  {
    if p in Roster(m.submatches[i], WinningTeam(m.results[i])) then 1 else 0
  }

  /** The points of `p` over the first `k` played submatches, in play order. */
  function Tally(m: Match, p: Player, k: nat): seq<int>
    requires k <= Played(m)
  {
    seq(k, j requires 0 <= j < k => Point(m, p, j))
  }

  /** What `get_player_points_per_match` returns. */
  function PointsPerMatch(m: Match): map<Player, seq<int>>
  {
    map p | p in m.players :: Tally(m, p, Played(m))
  }

  /** Python's `sum` over a list, left to right. */
  function Sum(s: seq<int>): int
  {
    if s == [] then 0 else Sum(s[..|s| - 1]) + s[|s| - 1]
  }

  /** What `calc_points` returns. */
  function CalcPoints(m: Match): map<Player, int>
  {
    var points := PointsPerMatch(m);
    map p | p in points :: Sum(points[p])
  }

  /**
   * `get_player_points_per_match`: a list per player, built by appending one
   * entry per zipped (submatch, result) pair to every player's list.
   */
  method GetPlayerPointsPerMatch(m: Match) returns (points: map<Player, seq<int>>)
    ensures points.Keys == set p | p in m.players
    ensures forall p :: p in points ==> |points[p]| == Played(m)
    ensures forall p, i :: p in points && 0 <= i < Played(m) ==>
      points[p][i] == (if p in Roster(m.submatches[i], WinningTeam(m.results[i])) then 1 else 0)
    ensures points == PointsPerMatch(m)
  {
    points := map p | p in m.players :: [];
    var n := Played(m);
    var i := 0;
    while i < n
      invariant 0 <= i <= n
      invariant points.Keys == set p | p in m.players
      invariant forall p :: p in points ==> points[p] == Tally(m, p, i)
    {
      var wteam := WinningTeam(m.results[i]);
      var roster := Roster(m.submatches[i], wteam);
      var todo := points.Keys;
      while todo != {}
        invariant todo <= points.Keys
        invariant points.Keys == set p | p in m.players
        invariant forall p :: p in points && p !in todo ==> points[p] == Tally(m, p, i + 1)
        invariant forall p :: p in todo ==> points[p] == Tally(m, p, i)
        decreases todo
      {
        var name :| name in todo;
        assert Tally(m, name, i) + [Point(m, name, i)] == Tally(m, name, i + 1);
        points := points[name := points[name] + [if name in roster then 1 else 0]];
        todo := todo - {name};
      }
      i := i + 1;
    }
    assert forall p :: p in points ==> points[p] == Tally(m, p, Played(m));
  }

  lemma {:induction false} SumOfPointsBounds(s: seq<int>)
    requires forall i :: 0 <= i < |s| ==> s[i] == 0 || s[i] == 1
    ensures 0 <= Sum(s) <= |s|
  {
    if s != [] {
      SumOfPointsBounds(s[..|s| - 1]);
    }
  }

  /** Each player of the match has a total, between 0 and the number of played submatches. */
  lemma CalcPointsBound(m: Match)
    ensures CalcPoints(m).Keys == set p | p in m.players
    ensures forall p :: p in CalcPoints(m) ==> 0 <= CalcPoints(m)[p] <= Played(m)
  {
    forall p | p in CalcPoints(m)
      ensures 0 <= CalcPoints(m)[p] <= Played(m)
    {
      SumOfPointsBounds(PointsPerMatch(m)[p]);
    }
  }

  /** `calc_points`: each player's list of points, summed. */
  method CalcPointsOf(m: Match) returns (tally: map<Player, int>)
    ensures tally.Keys == set p | p in m.players
    ensures forall p :: p in tally ==> 0 <= tally[p] <= Played(m)
    ensures tally == CalcPoints(m)
  {
    var points := GetPlayerPointsPerMatch(m);
    tally := map p | p in points :: Sum(points[p]);
    CalcPointsBound(m);
  }

  /**
   * Recording one more result changes a player's total by the point of that
   * result when a submatch is still waiting for it, and not at all when
   * `zip` has no submatch left to pair it with.
   */
  lemma PointsAfterResult(m: Match, r: Score, p: Player)
    requires p in m.players
    ensures var m' := m.(results := m.results + [r]);
      p in CalcPoints(m') && p in CalcPoints(m) &&
      CalcPoints(m')[p] == CalcPoints(m)[p] +
        (if |m.results| < |m.submatches| && p in Roster(m.submatches[|m.results|], WinningTeam(r))
         then 1 else 0)
  {
    var m' := m.(results := m.results + [r]);
    var t := Tally(m, p, Played(m));
    var t' := Tally(m', p, Played(m'));
    assert forall j :: 0 <= j < Played(m) ==> m'.results[j] == m.results[j];
    if |m.results| < |m.submatches| {
      assert Played(m') == Played(m) + 1;
      assert t'[..|t'| - 1] == t;
    } else {
      assert t' == t;
    }
  }

  /** The pip shown per entry of a player's list: filled for a win. */
  function Pip(point: int): char
  {
    if point == 1 then '\U{25CF}' else '\U{25CB}'
  }

  /** `ljust` with blanks: `s` padded on the right to at least `width` characters. */
  function LeftJustify(s: string, width: nat): (r: string)
    ensures |r| == if |s| >= width then |s| else width
    ensures r[..|s|] == s
    ensures forall i :: |s| <= i < |r| ==> r[i] == ' '
  {
    if |s| >= width then s else s + seq(width - |s|, _ => ' ')
  }

  /** `pstring`: one pip per entry, padded with blanks to at least three characters. */
  function Pips(ps: seq<int>): (r: string)
    ensures |r| == if |ps| >= 3 then |ps| else 3
    ensures forall i :: 0 <= i < |ps| ==> r[i] == Pip(ps[i])
    ensures forall i :: |ps| <= i < |r| ==> r[i] == ' '
  {
    LeftJustify(seq(|ps|, i requires 0 <= i < |ps| => Pip(ps[i])), 3)
  }
}

module ScoringExamples {
  import opened Wrappers
  import opened LeagueData
  import opened Scoring

  function TwoGameMatch(first: Score, second: Score): Match
  {
    Match(None, ["A", "B", "C", "D"],
          [Submatch(["A", "B"], ["C", "D"]), Submatch(["A", "B"], ["C", "D"])],
          [first, second], None, None, None)
  }

  lemma TallyOf(m: Match, p: Player, a: int, b: int)
    requires Played(m) == 2 && Point(m, p, 0) == a && Point(m, p, 1) == b
    ensures p in m.players ==> p in CalcPoints(m) && CalcPoints(m)[p] == a + b
  {
    assert Tally(m, p, 2) == [a, b];
    assert Sum([a, b]) == Sum([a]) + b;
  }

  /** Yellow wins 5:3, then black wins 2:4: every player ends with one point. */
  lemma OneWinEach()
    ensures var pts := CalcPoints(TwoGameMatch(Score(5, 3), Score(2, 4)));
      pts.Keys == {"A", "B", "C", "D"} &&
      pts["A"] == 1 && pts["B"] == 1 && pts["C"] == 1 && pts["D"] == 1
  {
    var m := TwoGameMatch(Score(5, 3), Score(2, 4));
    CalcPointsBound(m);
    assert (set p | p in m.players) == {"A", "B", "C", "D"};
    TallyOf(m, "A", 1, 0);
    TallyOf(m, "B", 1, 0);
    TallyOf(m, "C", 0, 1);
    TallyOf(m, "D", 0, 1);
  }

  /** Two drawn games both go to team 1 (black). */
  lemma DrawsGoToBlack()
    ensures var pts := CalcPoints(TwoGameMatch(Score(3, 3), Score(0, 0)));
      pts.Keys == {"A", "B", "C", "D"} &&
      pts["A"] == 0 && pts["B"] == 0 && pts["C"] == 2 && pts["D"] == 2
  {
    var m := TwoGameMatch(Score(3, 3), Score(0, 0));
    CalcPointsBound(m);
    assert (set p | p in m.players) == {"A", "B", "C", "D"};
    TallyOf(m, "A", 0, 0);
    TallyOf(m, "B", 0, 0);
    TallyOf(m, "C", 1, 1);
    TallyOf(m, "D", 1, 1);
  }
}
