/**
 * The league plugin: the state machine that runs a league match submatch by
 * submatch (`start_competition`, `win_game`, `cancel_competition`), its
 * snapshot (`save`/`load`) and the league menu. Bus notifications are
 * appended to the bus log; `time.time()` is the parameter `now`.
 */
module League {
  import opened Wrappers
  import opened LeagueData
  import opened Scoring
  import opened Events
  import opened ResultsStore

  /** The game mode the plugin switches the table to for league play. */
  const LeagueMode: int := 5

  /** `s[i]` with Python's negative indices; None where Python raises IndexError. */
  function PyIndex<T>(s: seq<T>, i: int): (r: Option<T>)
    ensures 0 <= i < |s| ==> r == Some(s[i])
    ensures -|s| <= i < 0 ==> r == Some(s[|s| + i])
    ensures r.None? <==> i >= |s| || i < -|s|
  {
    if 0 <= i < |s| then Some(s[i])
    else if -|s| <= i < 0 then Some(s[|s| + i])
    else None
  }

  /**
   * The `set_players` payload `update_players` publishes for the current
   * submatch; None where it raises: no submatch at that index (IndexError),
   * or a roster player who is not one of the match's players (KeyError).
   */
  function PlayersInfo(m: Match, currentGame: int): (r: Option<Payload>)
    ensures var g := PyIndex(m.submatches, currentGame);
      r.Some? <==>
        (g.Some? &&
         (forall p :: p in g.value.yellow ==> p in m.players) &&
         (forall p :: p in g.value.black ==> p in m.players))
    ensures r.Some? ==>
      var g := PyIndex(m.submatches, currentGame).value;
      r.value.TeamsWithPoints? && r.value.yellow == g.yellow && r.value.black == g.black &&
      |r.value.yellowPoints| == |g.yellow| && |r.value.blackPoints| == |g.black|
  {
    match PyIndex(m.submatches, currentGame)
    case None => None
    case Some(g) =>
      var points := PointsPerMatch(m);
      if (forall p :: p in g.yellow ==> p in points) && (forall p :: p in g.black ==> p in points) then
        Some(TeamsWithPoints(g.yellow, g.black, PipColumn(points, g.yellow), PipColumn(points, g.black)))
      else None
  }

  /** The pip string of each roster player, in roster order. */
  function PipColumn(points: map<Player, seq<int>>, roster: seq<Player>): (r: seq<string>)
    requires forall p :: p in roster ==> p in points
    ensures |r| == |roster|
    ensures forall i :: 0 <= i < |roster| ==> r[i] == Pips(points[roster[i]])
  {
    seq(|roster|, i requires 0 <= i < |roster| => Pips(points[roster[i]]))
  }

  /** A match the state machine can run: some submatch, and every roster player is a match player. */
  ghost predicate WellFormed(m: Match)
  {
    |m.submatches| > 0 &&
    forall i, p :: 0 <= i < |m.submatches| && (p in m.submatches[i].yellow || p in m.submatches[i].black) ==>
      p in m.players
  }

  /** The match after `win_game` appended one `[yellow, black]` result. */
  function Recorded(m: Match, score: Score): (r: Match)
    ensures r.results == m.results + [score]
    ensures r.(results := m.results) == m
  {
    m.(results := m.results + [score])
  }

  /**
   * For a well-formed match, `update_players` never raises at a valid index:
   * it shows that submatch's rosters with every player's pip string.
   */
  lemma PlayersInfoDefined(m: Match, currentGame: int)
    requires WellFormed(m) && 0 <= currentGame < |m.submatches|
    ensures PlayersInfo(m, currentGame).Some?
    ensures var info := PlayersInfo(m, currentGame).value;
      var g := m.submatches[currentGame];
      info.yellow == g.yellow && info.black == g.black &&
      |info.yellowPoints| == |g.yellow| && |info.blackPoints| == |g.black| &&
      (forall i :: 0 <= i < |g.yellow| ==> info.yellowPoints[i] == Pips(Tally(m, g.yellow[i], Played(m)))) &&
      (forall i :: 0 <= i < |g.black| ==> info.blackPoints[i] == Pips(Tally(m, g.black[i], Played(m))))
  {
    var g := m.submatches[currentGame];
    forall p | p in g.yellow ensures p in PointsPerMatch(m) {
      assert p in m.players;
    }
    forall p | p in g.black ensures p in PointsPerMatch(m) {
      assert p in m.players;
    }
  }

  /** Time stamps, id and division play no part in what the players are shown. */
  lemma SameScoringData(m: Match, m': Match)
    requires m.players == m'.players && m.submatches == m'.submatches && m.results == m'.results
    ensures PointsPerMatch(m) == PointsPerMatch(m') && CalcPoints(m) == CalcPoints(m')
    ensures forall cg :: PlayersInfo(m, cg) == PlayersInfo(m', cg)
  {
    forall p | p in m.players ensures Tally(m, p, Played(m)) == Tally(m', p, Played(m')) {
    }
  }

  /** The event a menu action fires, followed by `menu_hide`. */
  function Trigger(name: string, data: Payload): seq<Event<Payload>>
  {
    [Event(name, data), Event("menu_hide", NoData)]
  }

  /** A menu label: a text, or the four player columns of a match (their fixed-width layout is not modelled). */
  datatype Label = Text(text: string) | PlayerColumns(columns: seq<Player>)

  datatype MenuItem =
    | Action(title: Label, fires: seq<Event<Payload>>)   // a label with the events it fires
    | Inert(title: Label)                                // a label without an action
    | Submenu(title: Label, items: seq<MenuItem>)        // a label opening a list of entries

  /** The two entries that close every menu level. */
  function Footer(): seq<MenuItem>
  {
    [Inert(Text("")), Inert(Text("« Back"))]
  }

  /** The entry that starts a scheduled match, tagged with its division. */
  function MatchEntry(m: Match, division: string): MenuItem
    requires |m.players| >= 4
  {
    Action(PlayerColumns(m.players[..4]), Trigger("start_competition", MatchData(m.(division := Some(division)))))
  }

  /** The submenu of one division: its name, one start entry per match, then the footer. */
  predicate DivisionMenu(item: MenuItem, d: Division)
  {
    item.Submenu? && item.title == Text(d.name) &&
    |item.items| == |d.matches| + 2 && item.items[|d.matches|..] == Footer() &&
    forall j :: 0 <= j < |d.matches| ==>
      |d.matches[j].players| >= 4 && item.items[j] == MatchEntry(d.matches[j], d.name)
  }

  /**
   * The entries of one division's submenu: one per match, then the footer;
   * None when a match lacks the four players its entry is formatted from
   * (`format` raises IndexError and the menu is abandoned).
   */
  method DivisionEntries(name: string, matches: seq<Match>) returns (items: Option<seq<MenuItem>>)
    ensures items.None? <==> exists l :: 0 <= l < |matches| && |matches[l].players| < 4
    ensures items.Some? ==>
      |items.value| == |matches| + 2 && items.value[|matches|..] == Footer() &&
      forall j :: 0 <= j < |matches| ==> items.value[j] == MatchEntry(matches[j], name)
  {
    var entries: seq<MenuItem> := [];
    var j := 0;
    while j < |matches|
      invariant 0 <= j <= |matches| && |entries| == j
      invariant forall l :: 0 <= l < j ==> |matches[l].players| >= 4
      invariant forall l :: 0 <= l < j ==> entries[l] == MatchEntry(matches[l], name)
    {
      var m := matches[j].(division := Some(name));
      if |m.players| < 4 {
        return None;
      }
      entries := entries + [Action(PlayerColumns(m.players[..4]), Trigger("start_competition", MatchData(m)))];
      j := j + 1;
    }
    return Some(entries + Footer());
  }

  /** Every listed match has the four players the entry format needs. */
  predicate AllFormattable(comp: Schedule)
  {
    forall i, j :: 0 <= i < |comp| && 0 <= j < |comp[i].matches| ==> |comp[i].matches[j].players| >= 4
  }

  /** Snapshot of the plugin, as `save` returns it: the running match and the submatch index. */
  datatype PluginState = PluginState(active: Option<Match>, currentGame: int)

  /** What happened, in order: a notification, or a result file written. */
  datatype Effect = Published(event: Event<Payload>) | ResultWritten(name: string)

  class Plugin {
    const bus: Bus<Payload>
    const backend: DiskBackend
    var active: Option<Match>       // self.match
    var currentGame: int            // self.current_game
    ghost var trace: seq<Effect>

    constructor (bus: Bus<Payload>, backend: DiskBackend)
      ensures this.bus == bus && this.backend == backend
      ensures active == None && currentGame == 0 && trace == []
    {
      this.bus := bus;
      this.backend := backend;
      active := None;
      currentGame := 0;
      trace := [];
    }

    /**
     * While a match runs, the current submatch exists, the match can be
     * shown, and one result is recorded per finished submatch.
     */
    ghost predicate Consistent()
      reads this
    {
      active.Some? ==>
        WellFormed(active.value) && 0 <= currentGame < |active.value.submatches| &&
        |active.value.results| == currentGame
    }

    method Publish(name: string, data: Payload)
      modifies bus, this`trace
      ensures bus.log == old(bus.log) + [Event(name, data)]
      ensures trace == old(trace) + [Published(Event(name, data))]
    {
      bus.Notify(name, data);
      trace := trace + [Published(Event(name, data))];
    }

    /** `save` */
    function Save(): (s: PluginState)
      reads this
      ensures s.active == active && s.currentGame == currentGame
    {
      PluginState(active, currentGame)
    }

    /** `load`: restores a snapshot; a running match is shown again and the league mode set. */
    method Load(state: PluginState)
      modifies this, bus
      ensures Save() == state
      ensures state.active.None? ==> bus.log == old(bus.log)
      ensures state.active.Some? ==>
        var info := PlayersInfo(state.active.value, state.currentGame);
        bus.log == old(bus.log) +
          (if info.Some? then [Event("set_players", info.value), Event("set_game_mode", GameMode(LeagueMode))] else [])
    {
      currentGame := state.currentGame;
      active := state.active;
      if active.Some? {
        var raised := UpdatePlayers();
        if raised {
          return;
        }
        Publish("set_game_mode", GameMode(LeagueMode));
      }
    }

    /** `update_players`: publishes the current submatch's rosters and pips, unless it raises. */
    method UpdatePlayers() returns (raised: bool)
      requires active.Some?
      modifies bus, this`trace
      ensures var info := PlayersInfo(active.value, currentGame);
        raised == info.None? &&
        bus.log == old(bus.log) + (if info.Some? then [Event("set_players", info.value)] else []) &&
        trace == old(trace) + (if info.Some? then [Published(Event("set_players", info.value))] else [])
    {
      var m := active.value;
      var g := PyIndex(m.submatches, currentGame);
      if g.None? {
        return true;
      }
      var points := GetPlayerPointsPerMatch(m);
      if !((forall p :: p in g.value.yellow ==> p in points) && (forall p :: p in g.value.black ==> p in points)) {
        return true;
      }
      var yellow, black := g.value.yellow, g.value.black;
      var teams := TeamsWithPoints(yellow, black, PipColumn(points, yellow), PipColumn(points, black));
      Publish("set_players", teams);
      raised := false;
    }

    /** `clear_players` */
    method ClearPlayers()
      modifies bus, this`trace
      ensures bus.log == old(bus.log) + [Event("set_players", Teams([], []))]
      ensures trace == old(trace) + [Published(Event("set_players", Teams([], [])))]
    {
      Publish("set_players", Teams([], []));
    }

    /**
     * `start_competition`: the given match becomes the running one, stamped
     * with its start time, at submatch 0; the score is reset, the league
     * mode set and the first submatch shown (unless showing it raises).
     */
    method StartCompetition(data: Match, now: int)
      modifies this, bus
      ensures active == Some(data.(startTime := Some(now))) && currentGame == 0
      ensures var info := PlayersInfo(data, 0);
        bus.log == old(bus.log) + [Event("reset_score", NoData), Event("set_game_mode", GameMode(LeagueMode))] +
          (if info.Some? then [Event("set_players", info.value)] else [])
      ensures WellFormed(data) && data.results == [] ==> Consistent()
    {
      active := Some(data.(startTime := Some(now)));
      currentGame := 0;
      Publish("reset_score", NoData);
      Publish("set_game_mode", GameMode(LeagueMode));
      SameScoringData(active.value, data);
      var _ := UpdatePlayers();
    }

    /**
     * `win_game`: records the submatch result. Before the last submatch it
     * moves on to the next one; after the last it publishes the points,
     * stamps the end time, writes the result file, acknowledges it, clears
     * the players and ends the match. Without a running match nothing
     * happens. Where showing the players raises, the handler stops there.
     */
    method WinGame(score: Score, now: int, draw: nat)
      requires draw <= 10000
      modifies this, bus, backend
      ensures old(active).None? ==>
        active == None && currentGame == old(currentGame) && bus.log == old(bus.log) &&
        trace == old(trace) && unchanged(backend)
      ensures old(active).Some? && old(currentGame) < |old(active).value.submatches| - 1 ==>
        var m := Recorded(old(active).value, score);
        var first := PlayersInfo(m, old(currentGame));
        var second := PlayersInfo(m, old(currentGame) + 1);
        active == Some(m) && unchanged(backend) &&
        (first.None? ==> currentGame == old(currentGame) && bus.log == old(bus.log)) &&
        (first.Some? ==>
          currentGame == old(currentGame) + 1 &&
          bus.log == old(bus.log) + [Event("set_players", first.value)] +
            (if second.Some? then [Event("set_players", second.value)] else []))
      ensures old(active).Some? && old(currentGame) >= |old(active).value.submatches| - 1 ==>
        var m := Recorded(old(active).value, score);
        var first := PlayersInfo(m, old(currentGame));
        var finished := m.(endTime := Some(now));
        currentGame == old(currentGame) &&
        (first.None? ==> active == Some(m) && bus.log == old(bus.log) && unchanged(backend)) &&
        (first.Some? ==>
          active == None &&
          bus.log == old(bus.log) + [
            Event("set_players", first.value),
            Event("end_competition", PointsTally(CalcPoints(m))),
            Event("results_written", NoData),
            Event("set_players", Teams([], []))] &&
          trace == old(trace) + [
            Published(Event("set_players", first.value)),
            Published(Event("end_competition", PointsTally(CalcPoints(m)))),
            ResultWritten(ResultFileFor(finished, draw)),
            Published(Event("results_written", NoData)),
            Published(Event("set_players", Teams([], [])))] &&
          backend.results == old(backend.results)[ResultFileFor(finished, draw) := finished] &&
          backend.ops == old(backend.ops) + [WriteResultFile(ResultFileFor(finished, draw), finished)] &&
          backend.leagueFile == old(backend.leagueFile) && backend.processed == old(backend.processed) &&
          backend.tmpFile == old(backend.tmpFile))
      ensures old(Consistent()) ==> Consistent()
    {
      if active.None? {
        return;
      }
      ghost var wasConsistent := Consistent();
      var m := Recorded(active.value, score);
      active := Some(m);
      if currentGame < |m.submatches| - 1 {
        if wasConsistent {
          PlayersInfoDefined(m, currentGame);
          PlayersInfoDefined(m, currentGame + 1);
        }
        NextSubmatch();
      } else {
        if wasConsistent {
          PlayersInfoDefined(m, currentGame);
        }
        FinishMatch(now, draw);
      }
    }

    /** The `win_game` branch that moves on to the next submatch. */
    method NextSubmatch()
      requires active.Some?
      modifies this`currentGame, this`trace, bus
      ensures var first := PlayersInfo(active.value, old(currentGame));
        var second := PlayersInfo(active.value, old(currentGame) + 1);
        (first.None? ==> currentGame == old(currentGame) && bus.log == old(bus.log)) &&
        (first.Some? ==>
          currentGame == old(currentGame) + 1 &&
          bus.log == old(bus.log) + [Event("set_players", first.value)] +
            (if second.Some? then [Event("set_players", second.value)] else []))
    {
      var raised := UpdatePlayers();
      if raised {
        return;
      }
      currentGame := currentGame + 1;
      raised := UpdatePlayers();
    }

    /** The `win_game` branch that ends the match after its last submatch. */
    method FinishMatch(now: int, draw: nat)
      requires active.Some? && draw <= 10000
      modifies this`active, this`trace, bus, backend
      ensures var m := old(active).value;
        var first := PlayersInfo(m, currentGame);
        var finished := m.(endTime := Some(now));
        (first.None? ==> active == old(active) && bus.log == old(bus.log) && unchanged(backend)) &&
        (first.Some? ==>
          active == None &&
          bus.log == old(bus.log) + [
            Event("set_players", first.value),
            Event("end_competition", PointsTally(CalcPoints(m))),
            Event("results_written", NoData),
            Event("set_players", Teams([], []))] &&
          trace == old(trace) + [
            Published(Event("set_players", first.value)),
            Published(Event("end_competition", PointsTally(CalcPoints(m)))),
            ResultWritten(ResultFileFor(finished, draw)),
            Published(Event("results_written", NoData)),
            Published(Event("set_players", Teams([], [])))] &&
          backend.results == old(backend.results)[ResultFileFor(finished, draw) := finished] &&
          backend.ops == old(backend.ops) + [WriteResultFile(ResultFileFor(finished, draw), finished)] &&
          backend.leagueFile == old(backend.leagueFile) && backend.processed == old(backend.processed) &&
          backend.tmpFile == old(backend.tmpFile))
    {
      ghost var log0, trace0 := bus.log, trace;
      var raised := UpdatePlayers();
      if raised {
        return;
      }
      ghost var shown := Event("set_players", PlayersInfo(active.value, currentGame).value);
      assert bus.log == log0 + [shown] && trace == trace0 + [Published(shown)];
      var m := active.value;
      var tally := CalcPointsOf(m);
      Publish("end_competition", PointsTally(tally));
      ghost var ended := Event("end_competition", PointsTally(tally));
      assert bus.log == log0 + [shown, ended] && trace == trace0 + [Published(shown), Published(ended)];
      m := m.(endTime := Some(now));
      active := Some(m);
      backend.WriteResults(m, draw);
      ghost var written := ResultWritten(ResultFileFor(m, draw));
      trace := trace + [written];
      Publish("results_written", NoData);
      assert bus.log == log0 + [shown, ended, Event("results_written", NoData)];
      assert trace == trace0 + [Published(shown), Published(ended), written, Published(Event("results_written", NoData))];
      ClearPlayers();
      active := None;
      assert bus.log == log0 + [shown, ended, Event("results_written", NoData), Event("set_players", Teams([], []))];
      assert trace == trace0 + [Published(shown), Published(ended), written,
        Published(Event("results_written", NoData)), Published(Event("set_players", Teams([], [])))];
    }

    /** `cancel_competition`: from any state, no match runs and the players are cleared. */
    method CancelCompetition()
      modifies this, bus
      ensures active == None && currentGame == old(currentGame)
      ensures bus.log == old(bus.log) + [Event("set_players", Teams([], []))]
      ensures Consistent()
    {
      active := None;
      ClearPlayers();
    }

    /**
     * `get_menu_entries`: a running match offers only its cancellation;
     * otherwise one submenu per division, one entry per playable match.
     * A missing league file, or a match without four players to format,
     * gives the empty menu.
     */
    method GetMenuEntries(draw: nat) returns (menu: seq<MenuItem>)
      requires draw <= 10000
      ensures active.Some? ==> menu == [Action(Text("Cancel official game"), Trigger("cancel_competition", NoData))]
      ensures active.None? && backend.leagueFile.None? ==> menu == []
      ensures active.None? && backend.leagueFile.Some? ==>
        var comp := Playable(backend.leagueFile.value, backend.results.Keys, draw);
        (!AllFormattable(comp) ==> menu == []) &&
        (AllFormattable(comp) ==>
          |menu| == 1 && menu[0].Submenu? && menu[0].title == Text("League") &&
          |menu[0].items| == |comp| + 2 && menu[0].items[|comp|..] == Footer() &&
          forall i :: 0 <= i < |comp| ==> DivisionMenu(menu[0].items[i], comp[i]))
    {
      if active.Some? {
        return [Action(Text("Cancel official game"), Trigger("cancel_competition", NoData))];
      }
      var games := backend.GetGames(draw);
      if games.Err? {
        return [];
      }
      var comp := games.value;
      var entries: seq<MenuItem> := [];
      var i := 0;
      while i < |comp|
        invariant 0 <= i <= |comp| && |entries| == i
        invariant forall k :: 0 <= k < i ==> DivisionMenu(entries[k], comp[k])
      {
        var items := DivisionEntries(comp[i].name, comp[i].matches);
        if items.None? {
          return [];
        }
        var div := Submenu(Text(comp[i].name), items.value);
        assert DivisionMenu(div, comp[i]);
        entries := entries + [div];
        i := i + 1;
      }
      entries := entries + Footer();
      menu := [Submenu(Text("League"), entries)];
    }
  }

  /** Cancelling twice leaves the state of cancelling once; only the players are cleared again. */
  method CancelTwice(plugin: Plugin)
    modifies plugin, plugin.bus
    ensures plugin.Save() == PluginState(None, old(plugin.currentGame))
    ensures plugin.bus.log == old(plugin.bus.log) +
      [Event("set_players", Teams([], [])), Event("set_players", Teams([], []))]
  {
    plugin.CancelCompetition();
    ghost var once := plugin.Save();
    plugin.CancelCompetition();
    assert plugin.Save() == once;
  }
}
