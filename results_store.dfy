/**
 * The league's results store (`DiskBackend`). The disk is abstract state:
 * the league schedule file, its temporary sibling, the result files of the
 * results directory and of the processed directory, each by file name, and
 * a log of the file operations performed.
 */
module ResultsStore {
  import opened Wrappers
  import opened LeagueData
  import Decimal

  /** The file operations `DiskBackend` performs, in order. */
  datatype FsOp =
    | WriteTemp(schedule: Schedule)              // the schedule written to the temporary file
    | RenameTempToLeague                         // the temporary file renamed over the league file
    | WriteResultFile(name: string, m: Match)    // a match written to the results directory
    | MoveToProcessed(name: string)              // a result file moved to the processed directory

  datatype Failure = FileNotFound

  const ResultPrefix: string := "result_"
  const ResultSuffix: string := ".json"

  /** Whether a file name matches the result pattern: `result_`, anything, `.json`. */
  predicate MatchesResultPattern(name: string)
  {
    |name| >= |ResultPrefix| + |ResultSuffix| &&
    name[..|ResultPrefix|] == ResultPrefix &&
    name[|name| - |ResultSuffix|..] == ResultSuffix
  }

  /** What a result file name holds between its prefix and its suffix. */
  function IdPart(name: string): string
    requires MatchesResultPattern(name)
  {
    name[|ResultPrefix|..|name| - |ResultSuffix|]
  }

  /**
   * The name of the result file for match id `id`: it matches the result
   * pattern, and its middle is `'%d' % id`.
   */
  function ResultFileName(id: int): (r: string)
    ensures MatchesResultPattern(r)
    ensures IdPart(r) == Decimal.IntToDecimal(id)
  {
    var digits := Decimal.IntToDecimal(id);
    var r := ResultPrefix + digits + ResultSuffix;
    assert r[..|ResultPrefix|] == ResultPrefix;
    assert r[|r| - |ResultSuffix|..] == ResultSuffix;
    assert r[|ResultPrefix|..|r| - |ResultSuffix|] == digits;
    r
  }

  /** The id reads back from its result file name. */
  lemma ResultFileNameReadsBack(id: int)
    ensures Decimal.DecimalToInt(IdPart(ResultFileName(id))) == id
  {
    Decimal.IntRoundTrip(id);
  }

  /**
   * `_get_result_file_for`: the file is named after the match id, or, for a
   * match without one, after `draw`, the value `random.randint(0, 10000)`
   * gave.
   */
  function ResultFileFor(m: Match, draw: nat): (r: string)
    requires draw <= 10000
    ensures MatchesResultPattern(r)
  {
    ResultFileName(if m.id.Some? then m.id.value else draw)
  }

  /** The id read back from a match's result file name is its id, or `draw` for a match without one. */
  lemma ResultFileForReadsBack(m: Match, draw: nat)
    requires draw <= 10000
    ensures Decimal.DecimalToInt(IdPart(ResultFileFor(m, draw))) == if m.id.Some? then m.id.value else draw
  {
    ResultFileNameReadsBack(if m.id.Some? then m.id.value else draw);
  }

  /** Result file names tell match ids apart: two ids share a file only if they are equal. */
  lemma ResultFileNameInjective(a: int, b: int)
    requires ResultFileName(a) == ResultFileName(b)
    ensures a == b
  {
    var na, nb := ResultFileName(a), ResultFileName(b);
    assert Decimal.IntToDecimal(a) == na[|ResultPrefix|..|na| - |ResultSuffix|];
    assert Decimal.IntToDecimal(b) == nb[|ResultPrefix|..|nb| - |ResultSuffix|];
    Decimal.IntToDecimalInjective(a, b);
  }

  /** Every file `write_results` creates is found again by `get_result_files`. */
  lemma ResultFileMatchesPattern(id: int)
    ensures MatchesResultPattern(ResultFileName(id))
  {
    var name := ResultFileName(id);
    assert name[..|ResultPrefix|] == ResultPrefix;
    assert name[|name| - |ResultSuffix|..] == ResultSuffix;
  }

  /** The matches of `ms` whose result file does not exist yet, in order. */
  function Unplayed(ms: seq<Match>, existing: set<string>, draw: nat): seq<Match>
    requires draw <= 10000
  {
    if ms == [] then []
    else (if ResultFileFor(ms[0], draw) in existing then [] else [ms[0]]) + Unplayed(ms[1..], existing, draw)
  }

  /** The schedule with every division's matches filtered. */
  function Playable(competition: Schedule, existing: set<string>, draw: nat): Schedule
    requires draw <= 10000
  {
    seq(|competition|, i requires 0 <= i < |competition| =>
      competition[i].(matches := Unplayed(competition[i].matches, existing, draw)))
  }

  /** A match is kept exactly when it has no result file. */
  lemma {:induction false} UnplayedMembers(ms: seq<Match>, existing: set<string>, draw: nat, m: Match)
    requires draw <= 10000
    ensures m in Unplayed(ms, existing, draw) <==> m in ms && ResultFileFor(m, draw) !in existing
  {
    if ms != [] {
      UnplayedMembers(ms[1..], existing, draw, m);
      assert ms == [ms[0]] + ms[1..];
    }
  }

  /** Filtering keeps the original order: it distributes over concatenation. */
  lemma {:induction false} UnplayedAppend(a: seq<Match>, b: seq<Match>, existing: set<string>, draw: nat)
    requires draw <= 10000
    ensures Unplayed(a + b, existing, draw) == Unplayed(a, existing, draw) + Unplayed(b, existing, draw)
  {
    if a != [] {
      var ab := a + b;
      assert ab != [] && ab[0] == a[0];
      assert ab[1..] == a[1..] + b;
      UnplayedAppend(a[1..], b, existing, draw);
      var head := if ResultFileFor(a[0], draw) in existing then [] else [a[0]];
      assert Unplayed(ab, existing, draw) == head + Unplayed(a[1..] + b, existing, draw);
      assert Unplayed(a, existing, draw) == head + Unplayed(a[1..], existing, draw);
    } else {
      assert a + b == b;
    }
  }

  /** With no result files for them, every match is offered. */
  lemma {:induction false} UnplayedNoneWritten(ms: seq<Match>, existing: set<string>, draw: nat)
    requires draw <= 10000
    requires forall i :: 0 <= i < |ms| ==> ResultFileFor(ms[i], draw) !in existing
    ensures Unplayed(ms, existing, draw) == ms
  {
    if ms != [] {
      UnplayedNoneWritten(ms[1..], existing, draw);
    }
  }

  /**
   * Every division stays; in each, exactly the matches without a result file
   * remain, so a match whose result was written is never offered again.
   */
  lemma PlayableSchedule(competition: Schedule, existing: set<string>, draw: nat)
    requires draw <= 10000
    ensures |Playable(competition, existing, draw)| == |competition|
    ensures forall i, m :: 0 <= i < |competition| ==>
      Playable(competition, existing, draw)[i].name == competition[i].name &&
      (m in Playable(competition, existing, draw)[i].matches <==>
        m in competition[i].matches && ResultFileFor(m, draw) !in existing)
  {
    forall i, m | 0 <= i < |competition|
      ensures m in Playable(competition, existing, draw)[i].matches <==>
        m in competition[i].matches && ResultFileFor(m, draw) !in existing
    {
      UnplayedMembers(competition[i].matches, existing, draw, m);
    }
  }

  class DiskBackend {
    var leagueFile: Option<Schedule>     // league.json, None when missing
    var tmpFile: Option<Schedule>        // league.json_tmp
    var results: map<string, Match>      // results/
    var processed: map<string, Match>    // processed/
    var ops: seq<FsOp>

    /** The store over the disk as found (the directories exist or are created empty). */
    constructor (leagueFile: Option<Schedule>, results: map<string, Match>, processed: map<string, Match>)
      ensures this.leagueFile == leagueFile && tmpFile == None
      ensures this.results == results && this.processed == processed && ops == []
    {
      this.leagueFile := leagueFile;
      this.tmpFile := None;
      this.results := results;
      this.processed := processed;
      this.ops := [];
    }

    /** `filter_played_games`: rewrites each division's match list in turn. */
    method FilterPlayedGames(competition: Schedule, draw: nat) returns (r: Schedule)
      requires draw <= 10000
      ensures |r| == |competition|
      ensures forall i :: 0 <= i < |r| ==>
        r[i].name == competition[i].name &&
        r[i].matches == Unplayed(competition[i].matches, results.Keys, draw)
      ensures r == Playable(competition, results.Keys, draw)
    {
      r := competition;
      var i := 0;
      while i < |r|
        invariant |r| == |competition| && 0 <= i <= |r|
        invariant forall j :: 0 <= j < i ==>
          r[j] == competition[j].(matches := Unplayed(competition[j].matches, results.Keys, draw))
        invariant forall j :: i <= j < |r| ==> r[j] == competition[j]
      {
        r := r[i := r[i].(matches := Unplayed(r[i].matches, results.Keys, draw))];
        i := i + 1;
      }
    }

    /** `get_games`: the schedule without played matches; raises when the league file is missing. */
    method GetGames(draw: nat) returns (r: Result<Schedule, Failure>)
      requires draw <= 10000
      ensures leagueFile.None? ==> r == Err(FileNotFound)
      ensures leagueFile.Some? ==> r == Ok(Playable(leagueFile.value, results.Keys, draw))
    {
      if leagueFile.None? {
        return Err(FileNotFound);
      }
      var games := FilterPlayedGames(leagueFile.value, draw);
      r := Ok(games);
    }

    /**
     * `write_games`: nothing is written when the league file already holds
     * this schedule; otherwise it goes to the temporary file, which is then
     * renamed over the league file.
     */
    method WriteGames(competition: Schedule)
      modifies this
      ensures results == old(results) && processed == old(processed)
      ensures old(leagueFile) == Some(competition) ==>
        leagueFile == old(leagueFile) && tmpFile == old(tmpFile) && ops == old(ops)
      ensures old(leagueFile) != Some(competition) ==>
        leagueFile == Some(competition) && tmpFile == None &&
        ops == old(ops) + [WriteTemp(competition), RenameTempToLeague]
    {
      if leagueFile.Some? && leagueFile.value == competition {
        return;
      }
      tmpFile := Some(competition);
      ops := ops + [WriteTemp(competition)];
      leagueFile, tmpFile := tmpFile, None;
      ops := ops + [RenameTempToLeague];
    }

    /** `write_results`: the match is stored under its result file name (replacing any earlier file). */
    method WriteResults(m: Match, draw: nat)
      requires draw <= 10000
      modifies this
      ensures results == old(results)[ResultFileFor(m, draw) := m]
      ensures ops == old(ops) + [WriteResultFile(ResultFileFor(m, draw), m)]
      ensures leagueFile == old(leagueFile) && tmpFile == old(tmpFile) && processed == old(processed)
    {
      var name := ResultFileFor(m, draw);
      results := results[name := m];
      ops := ops + [WriteResultFile(name, m)];
    }

    /** `get_result_files`: the result files present, in no particular order. */
    function GetResultFiles(): (names: set<string>)
      reads this
      ensures forall n :: n in names <==> n in results && MatchesResultPattern(n)
    {
      set n | n in results && MatchesResultPattern(n)
    }

    /**
     * `mark_result_as_processed`: moves the file into the processed
     * directory, replacing a file of that name there; raises when there is
     * no such result file, so a second call for one name fails.
     */
    method MarkResultAsProcessed(name: string) returns (r: Result<(), Failure>)
      modifies this
      ensures leagueFile == old(leagueFile) && tmpFile == old(tmpFile)
      ensures name !in old(results) ==>
        r == Err(FileNotFound) && results == old(results) && processed == old(processed) && ops == old(ops)
      ensures name in old(results) ==>
        r == Ok(()) && results == old(results) - {name} &&
        processed == old(processed)[name := old(results)[name]] &&
        ops == old(ops) + [MoveToProcessed(name)]
    {
      if name !in results {
        return Err(FileNotFound);
      }
      processed := processed[name := results[name]];
      results := results - {name};
      ops := ops + [MoveToProcessed(name)];
      r := Ok(());
    }
  }

  /** Writing the same schedule twice writes the league file once. */
  method WriteGamesTwice(store: DiskBackend, competition: Schedule)
    modifies store
    ensures store.leagueFile == Some(competition)
    ensures old(store.leagueFile) != Some(competition) ==>
      store.ops == old(store.ops) + [WriteTemp(competition), RenameTempToLeague]
    ensures old(store.leagueFile) == Some(competition) ==> store.ops == old(store.ops)
  {
    store.WriteGames(competition);
    store.WriteGames(competition);
  }
}
