/** A league match run from start to finish through the plugin's handlers. */
module LeagueScenario {
  import opened Wrappers
  import opened LeagueData
  import opened Scoring
  import opened ScoringExamples
  import opened Events
  import opened ResultsStore
  import opened League

  function TwoSubmatches(): Match
  {
    Match(Some(7), ["A", "B", "C", "D"],
          [Submatch(["A", "B"], ["C", "D"]), Submatch(["A", "C"], ["B", "D"])],
          [], None, None, None)
  }

  lemma TwoSubmatchesWellFormed(m: Match)
    requires m.players == TwoSubmatches().players && m.submatches == TwoSubmatches().submatches
    ensures WellFormed(m)
  {
    forall i, p | 0 <= i < |m.submatches| && (p in m.submatches[i].yellow || p in m.submatches[i].black)
      ensures p in m.players
    {
      assert i == 0 || i == 1;
    }
  }

  /** Yellow wins the first submatch, black the second: B plays on both winning teams. */
  lemma FinalTally(m: Match)
    requires m.players == TwoSubmatches().players && m.submatches == TwoSubmatches().submatches
    requires m.results == [Score(5, 3), Score(2, 4)]
    ensures var pts := CalcPoints(m);
      pts.Keys == {"A", "B", "C", "D"} && pts["A"] == 1 && pts["B"] == 2 && pts["C"] == 0 && pts["D"] == 1
  {
    CalcPointsBound(m);
    assert (set p | p in m.players) == {"A", "B", "C", "D"};
    assert Played(m) == 2;
    assert WinningTeam(m.results[0]) == 0 && WinningTeam(m.results[1]) == 1;
    TallyOf(m, "A", 1, 0);
    TallyOf(m, "B", 1, 1);
    TallyOf(m, "C", 0, 0);
    TallyOf(m, "D", 0, 1);
  }

  /** The running match after the first result: started at time 100, yellow won 5:3. */
  function AfterFirst(): Match
  {
    TwoSubmatches().(startTime := Some(100), results := [Score(5, 3)])
  }

  /** The match once both results are in. */
  function AfterSecond(): Match
  {
    TwoSubmatches().(startTime := Some(100), results := [Score(5, 3), Score(2, 4)])
  }

  /** `start_competition` at time 100, then `win_game` with 5:3: the plugin moves to the second submatch. */
  method StartAndWinFirst(plugin: Plugin)
    requires plugin.active.None?
    modifies plugin, plugin.bus, plugin.backend
    ensures plugin.active == Some(AfterFirst()) && plugin.currentGame == 1
    ensures |plugin.bus.log| == |old(plugin.bus.log)| + 5
    ensures unchanged(plugin.backend)
  {
    var m := TwoSubmatches();
    TwoSubmatchesWellFormed(m);
    PlayersInfoDefined(m, 0);
    plugin.StartCompetition(m, 100);
    var m1 := Recorded(plugin.active.value, Score(5, 3));
    assert m1 == AfterFirst();
    TwoSubmatchesWellFormed(m1);
    PlayersInfoDefined(m1, 0);
    PlayersInfoDefined(m1, 1);
    plugin.WinGame(Score(5, 3), 200, 0);
  }

  /** `win_game` with 2:4 on the last submatch at time 300: the match ends and its result file is written. */
  method WinLast(plugin: Plugin)
    requires plugin.active == Some(AfterFirst()) && plugin.currentGame == 1
    modifies plugin, plugin.bus, plugin.backend
    ensures plugin.active.None?
    ensures |plugin.bus.log| == |old(plugin.bus.log)| + 4
    ensures plugin.bus.log[|old(plugin.bus.log)| + 1..] == [
      Event("end_competition", PointsTally(CalcPoints(AfterSecond()))),
      Event("results_written", NoData),
      Event("set_players", Teams([], []))]
    ensures plugin.backend.results ==
      old(plugin.backend.results)[ResultFileName(7) := AfterSecond().(endTime := Some(300))]
  {
    var m2 := Recorded(AfterFirst(), Score(2, 4));
    assert m2 == AfterSecond();
    TwoSubmatchesWellFormed(m2);
    PlayersInfoDefined(m2, 1);
    plugin.WinGame(Score(2, 4), 300, 0);
  }

  /**
   * Starting a two-submatch match and reporting two results publishes the
   * point tally, writes the finished match once under its id, acknowledges
   * the write and returns the plugin to idle.
   */
  method PlayTwoSubmatches() returns (log: seq<Event<Payload>>, files: map<string, Match>, idle: bool)
    ensures |log| == 9 && idle
    ensures log[6].name == "end_competition" && log[6].data.PointsTally?
    ensures var pts := log[6].data.points;
      pts.Keys == {"A", "B", "C", "D"} && pts["A"] == 1 && pts["B"] == 2 && pts["C"] == 0 && pts["D"] == 1
    ensures log[7] == Event("results_written", NoData) && log[8] == Event("set_players", Teams([], []))
    ensures files.Keys == {ResultFileName(7)}
    ensures files[ResultFileName(7)] ==
      TwoSubmatches().(results := [Score(5, 3), Score(2, 4)], startTime := Some(100), endTime := Some(300))
  {
    var bus := new Bus<Payload>();
    var store := new DiskBackend(None, map[], map[]);
    var plugin := new Plugin(bus, store);
    StartAndWinFirst(plugin);
    WinLast(plugin);
    FinalTally(AfterSecond());
    log, files, idle := bus.log, store.results, plugin.active.None?;
  }
}
