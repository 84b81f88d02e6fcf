/**
 * Team scoring and the victory check of `AShooterGameMode`, as pure
 * functions over the replicated fields `TeamScores`, `bGameEnded` and
 * `WinningTeam` (and the restart timer). The class `GameMode.ShooterGameMode`
 * implements the members with the source's loops and is proved to agree.
 */
module ScoreRules {
  import opened Common

  /** `FTeamScoreData`: a team id and its score (an `int32`). */
  datatype TeamScore = TeamScore(teamId: byte, score: int)

  /** What the victory restart timer calls back: `RestartGameAfterVictory`. */
  datatype RestartCallback = RestartGame

  /**
   * What the game mode reads but never writes: `TargetScore` (at least 1 by
   * its `ClampMin`), `VictoryRestartDelay`, and `HasAuthority()`.
   */
  datatype MatchConfig = MatchConfig(targetScore: int, restartDelay: real, authority: bool)

  /** The header defaults: 10 points win, and the game restarts 5 s after a victory. */
  function DefaultMatchConfig(authority: bool): (r: MatchConfig)
    ensures r.targetScore == 10 && r.restartDelay == 5.0 && r.authority == authority
  {
    MatchConfig(10, 5.0, authority)
  }

  /** The fields the game mode's members update. */
  datatype Match = Match(
    scores: seq<TeamScore>,
    ended: bool,
    winner: byte,
    restartTimer: Timer<RestartCallback>)

  /**
   * A call of the statistics hooks `RecordKill` and `RecordDeath`, whose
   * bodies are not part of this model: only the fact and the order of the
   * calls are kept.
   */
  datatype StatCall = KillRecorded(killer: ControllerRef) | DeathRecorded(victim: ControllerRef)

  /** A game mode as constructed: empty table, not ended, `WinningTeam = 255`. */
  const Fresh: Match := Match([], false, NoTeam, Cleared)

  /**
   * The index of the first entry for `team`, or -1 (`INDEX_NONE`) when the
   * table has none: the search loop of `IncrementTeamScore`.
   */
  function FindTeam(table: seq<TeamScore>, team: byte): (r: int)
    ensures -1 <= r < |table|
    ensures r == -1 <==> forall i :: 0 <= i < |table| ==> table[i].teamId != team
    ensures r >= 0 ==> table[r].teamId == team && forall j :: 0 <= j < r ==> table[j].teamId != team
  {
    FirstIndex(TeamIds(table), team)
  }

  /** The team ids of the table, in its order. */
  function TeamIds(table: seq<TeamScore>): (r: seq<byte>)
    ensures |r| == |table| && forall i :: 0 <= i < |table| ==> r[i] == table[i].teamId
  {
    seq(|table|, i requires 0 <= i < |table| => table[i].teamId)
  }

  /** A team's score as the table records it: its first entry's, or 0 without one. */
  function ScoreOf(table: seq<TeamScore>, team: byte): int
  {
    var i := FindTeam(table, team);
    if i == -1 then 0 else table[i].score
  }

  /** No team has two entries. */
  predicate UniqueTeams(table: seq<TeamScore>)
  {
    forall i, j :: 0 <= i < j < |table| ==> table[i].teamId != table[j].teamId
  }

  /**
   * One point for `team`, found or created: an existing entry is raised by
   * one in place, otherwise `(team, 1)` is appended at the end.
   */
  function Credit(table: seq<TeamScore>, team: byte): (r: seq<TeamScore>)
    ensures FindTeam(table, team) == -1 ==> r == table + [TeamScore(team, 1)]
    ensures FindTeam(table, team) >= 0 ==>
      && |r| == |table|
      && r[FindTeam(table, team)] == TeamScore(team, table[FindTeam(table, team)].score + 1)
      && forall i :: 0 <= i < |table| && i != FindTeam(table, team) ==> r[i] == table[i]
    ensures UniqueTeams(table) ==> UniqueTeams(r)
  {
    var i := FindTeam(table, team);
    if i == -1 then table + [TeamScore(team, 1)]
    else table[i := TeamScore(team, table[i].score + 1)]
  }

  /**
   * Read as a map from team to score, `Credit` adds one to `team` and leaves
   * every other team's score as it was.
   */
  lemma CreditAddsOnePoint(table: seq<TeamScore>, team: byte, other: byte)
    ensures ScoreOf(Credit(table, team), team) == ScoreOf(table, team) + 1
    ensures other != team ==> ScoreOf(Credit(table, team), other) == ScoreOf(table, other)
  {
    var r := Credit(table, team);
    var i := FindTeam(table, team);
    var k := FindTeam(table, other);
    if i == -1 {
      assert forall j :: 0 <= j < |table| ==> r[j] == table[j];
      assert r[|table|].teamId == team;
      assert FindTeam(r, team) == |table|;
      if other != team {
        if k == -1 {
          assert FindTeam(r, other) == -1;
        } else {
          assert FindTeam(r, other) == k;
        }
      }
    } else {
      assert FindTeam(r, team) == i;
      if other != team {
        if k == -1 {
          assert FindTeam(r, other) == -1;
        } else {
          assert FindTeam(r, other) == k;
        }
      }
    }
  }

  /** The sum of all scores in the table. */
  function Total(table: seq<TeamScore>): int
  {
    if table == [] then 0 else table[0].score + Total(table[1..])
  }

  lemma {:induction false} TotalAppend(table: seq<TeamScore>, e: TeamScore)
    ensures Total(table + [e]) == Total(table) + e.score
    decreases |table|
  {
    if table == [] {
      assert table + [e] == [e];
    } else {
      assert (table + [e])[1..] == table[1..] + [e];
      TotalAppend(table[1..], e);
    }
  }

  lemma {:induction false} TotalUpdate(table: seq<TeamScore>, i: nat, e: TeamScore)
    requires i < |table|
    ensures Total(table[i := e]) == Total(table) - table[i].score + e.score
    decreases |table|
  {
    if i > 0 {
      assert table[i := e][1..] == table[1..][i - 1 := e];
      TotalUpdate(table[1..], i - 1, e);
    }
  }

  /** Every credit adds exactly one point to the table as a whole. */
  lemma CreditRaisesTotalByOne(table: seq<TeamScore>, team: byte)
    ensures Total(Credit(table, team)) == Total(table) + 1
  {
    var i := FindTeam(table, team);
    if i == -1 {
      TotalAppend(table, TeamScore(team, 1));
    } else {
      TotalUpdate(table, i, TeamScore(team, table[i].score + 1));
    }
  }

  /**
   * The index of the first entry, in array order, whose score reached the
   * target, or -1: the scan of `CheckVictoryCondition`.
   */
  function FirstWinner(table: seq<TeamScore>, target: int): (r: int)
    ensures -1 <= r < |table|
    ensures r == -1 <==> forall i :: 0 <= i < |table| ==> table[i].score < target
    ensures r >= 0 ==> table[r].score >= target && forall j :: 0 <= j < r ==> table[j].score < target
  {
    if table == [] then -1
    else if table[0].score >= target then 0
    else
      var k := FirstWinner(table[1..], target);
      if k == -1 then -1 else k + 1
  }

  /**
   * `CheckVictoryCondition`: on the authority, the first team at or above
   * `TargetScore` wins: the game ends, that team is recorded, and the restart
   * timer is armed. It does not look at `bGameEnded`.
   */
  function CheckVictoryStep(m: Match, cfg: MatchConfig): (r: Match)
    ensures r.scores == m.scores
    ensures !cfg.authority || FirstWinner(m.scores, cfg.targetScore) == -1 ==> r == m
    ensures cfg.authority && FirstWinner(m.scores, cfg.targetScore) >= 0 ==>
      && r.ended
      && r.winner == m.scores[FirstWinner(m.scores, cfg.targetScore)].teamId
      && r.restartTimer == Arm(RestartGame, cfg.restartDelay)
  {
    if !cfg.authority then m
    else
      var w := FirstWinner(m.scores, cfg.targetScore);
      if w == -1 then m
      else m.(ended := true, winner := m.scores[w].teamId, restartTimer := Arm(RestartGame, cfg.restartDelay))
  }

  /**
   * `IncrementTeamScore`: ignored without authority and once the game has
   * ended; otherwise one point for `team`, then the victory check.
   */
  function IncrementStep(m: Match, cfg: MatchConfig, team: byte): (r: Match)
    ensures !cfg.authority || m.ended ==> r == m
    ensures cfg.authority && !m.ended ==> r == CheckVictoryStep(m.(scores := Credit(m.scores, team)), cfg)
    ensures cfg.authority && !m.ended ==> ScoreOf(r.scores, team) == ScoreOf(m.scores, team) + 1
  {
    if !cfg.authority then m
    else if m.ended then m
    else
      CreditAddsOnePoint(m.scores, team, team);
      CheckVictoryStep(m.(scores := Credit(m.scores, team)), cfg)
  }

  /** `RestartGameAfterVictory`, its state reset: not ended, no winner, empty table. */
  function RestartStep(m: Match): (r: Match)
    ensures !r.ended && r.winner == NoTeam && r.scores == []
    ensures r.restartTimer == m.restartTimer
  {
    m.(ended := false, winner := NoTeam, scores := [])
  }

  /** `BeginPlay`: start from an empty table. */
  function BeginPlayStep(m: Match): (r: Match)
    ensures r.scores == [] && r.(scores := m.scores) == m
  {
    m.(scores := [])
  }

  /** The victory restart timer runs out: the handle is spent and the restart runs. */
  function RestartElapsedStep(m: Match): (r: Match)
    ensures m.restartTimer == Cleared ==> r == m
    ensures m.restartTimer.Armed? ==> r == RestartStep(m.(restartTimer := Cleared))
  {
    if m.restartTimer.Cleared? then m else RestartStep(m.(restartTimer := Cleared))
  }

  // ---------------------------------------------------------------------
  // Match invariant and its preservation.
  // ---------------------------------------------------------------------

  /**
   * Team ids are unique, every score lies in `1..TargetScore`, and while the
   * game runs no score has reached the target.
   */
  predicate MatchInvariant(m: Match, cfg: MatchConfig)
  {
    && UniqueTeams(m.scores)
    && (forall i :: 0 <= i < |m.scores| ==> 1 <= m.scores[i].score <= cfg.targetScore)
    && (!m.ended ==> forall i :: 0 <= i < |m.scores| ==> m.scores[i].score < cfg.targetScore)
  }

  lemma FreshSatisfiesInvariant(cfg: MatchConfig)
    ensures MatchInvariant(Fresh, cfg)
  {
  }

  lemma IncrementKeepsInvariant(m: Match, cfg: MatchConfig, team: byte)
    requires cfg.targetScore >= 1 && MatchInvariant(m, cfg)
    ensures MatchInvariant(IncrementStep(m, cfg, team), cfg)
  {
    if cfg.authority && !m.ended {
      var t := Credit(m.scores, team);
      var i := FindTeam(m.scores, team);
      forall j | 0 <= j < |t|
        ensures 1 <= t[j].score <= cfg.targetScore
      {
        if i == -1 && j == |m.scores| {
        } else if j == i {
        } else {
          assert t[j] == m.scores[j];
        }
      }
    }
  }

  lemma CheckVictoryKeepsInvariant(m: Match, cfg: MatchConfig)
    requires MatchInvariant(m, cfg)
    ensures MatchInvariant(CheckVictoryStep(m, cfg), cfg)
  {
  }

  lemma RestartKeepsInvariant(m: Match, cfg: MatchConfig)
    ensures MatchInvariant(RestartStep(m), cfg)
    ensures MatchInvariant(m, cfg) ==> MatchInvariant(RestartElapsedStep(m), cfg)
    ensures MatchInvariant(m, cfg) ==> MatchInvariant(BeginPlayStep(m), cfg)
  {
  }

  /**
   * Because the game ends as soon as a score reaches `TargetScore` and ended
   * games take no points, no score ever exceeds the target, so `++Score`
   * cannot overflow an `int32` once the target fits in one.
   */
  lemma ScoresFitInt32(m: Match, cfg: MatchConfig)
    requires MatchInvariant(m, cfg) && cfg.targetScore <= Int32Max
    ensures forall i :: 0 <= i < |m.scores| ==> 1 <= m.scores[i].score <= Int32Max
  {
  }

  /** Points for a sequence of teams, one `IncrementTeamScore` each. */
  function Increments(m: Match, cfg: MatchConfig, teams: seq<byte>): Match
    decreases |teams|
  {
    if teams == [] then m else Increments(IncrementStep(m, cfg, teams[0]), cfg, teams[1..])
  }

  /** Once the game has ended, no number of further increments changes anything. */
  lemma {:induction false} EndedGameIsFrozen(m: Match, cfg: MatchConfig, teams: seq<byte>)
    requires m.ended
    ensures Increments(m, cfg, teams) == m
    decreases |teams|
  {
    if teams != [] {
      EndedGameIsFrozen(IncrementStep(m, cfg, teams[0]), cfg, teams[1..]);
    }
  }

  /** The invariant holds after any sequence of increments. */
  lemma {:induction false} IncrementsKeepInvariant(m: Match, cfg: MatchConfig, teams: seq<byte>)
    requires cfg.targetScore >= 1 && MatchInvariant(m, cfg)
    ensures MatchInvariant(Increments(m, cfg, teams), cfg)
    decreases |teams|
  {
    if teams != [] {
      IncrementKeepsInvariant(m, cfg, teams[0]);
      IncrementsKeepInvariant(IncrementStep(m, cfg, teams[0]), cfg, teams[1..]);
    }
  }

  /** `n` copies of one team id. */
  function Repeat(team: byte, n: nat): (r: seq<byte>)
    ensures |r| == n && forall i :: 0 <= i < n ==> r[i] == team
  {
    if n == 0 then [] else [team] + Repeat(team, n - 1)
  }

  /**
   * Victory by threshold: from a fresh table on the authority, `k` points for
   * one team (no more than the target) give that team one entry with score
   * `k`, and the game has ended exactly when `k` reached the target, with that
   * team as the winner.
   */
  lemma {:induction false} OneTeamReachesTarget(cfg: MatchConfig, team: byte, k: nat)
    requires cfg.authority && 1 <= k <= cfg.targetScore
    ensures Increments(Fresh, cfg, Repeat(team, k)).scores == [TeamScore(team, k)]
    ensures Increments(Fresh, cfg, Repeat(team, k)).ended <==> k == cfg.targetScore
    ensures k == cfg.targetScore ==> Increments(Fresh, cfg, Repeat(team, k)).winner == team
    decreases k
  {
    if k == 1 {
      assert Repeat(team, 1) == [team];
      assert Increments(Fresh, cfg, [team]) == Increments(IncrementStep(Fresh, cfg, team), cfg, []);
    } else {
      OneTeamReachesTarget(cfg, team, k - 1);
      var before := Increments(Fresh, cfg, Repeat(team, k - 1));
      IncrementsLast(Fresh, cfg, Repeat(team, k - 1), team);
      assert Repeat(team, k) == Repeat(team, k - 1) + [team];
      assert FindTeam(before.scores, team) == 0;
    }
  }

  lemma {:induction false} IncrementsLast(m: Match, cfg: MatchConfig, teams: seq<byte>, last: byte)
    ensures Increments(m, cfg, teams + [last]) == IncrementStep(Increments(m, cfg, teams), cfg, last)
    decreases |teams|
  {
    if teams == [] {
      assert [] + [last] == [last];
      assert Increments(m, cfg, [last]) == Increments(IncrementStep(m, cfg, last), cfg, []);
    } else {
      assert (teams + [last])[1..] == teams[1..] + [last];
      IncrementsLast(IncrementStep(m, cfg, teams[0]), cfg, teams[1..], last);
    }
  }

  /**
   * With the header defaults, a team scoring alone from a fresh match has
   * not won after nine points and has won with its tenth.
   */
  lemma DefaultMatchIsWonAtTen(team: byte)
    ensures !Increments(Fresh, DefaultMatchConfig(true), Repeat(team, 9)).ended
    ensures Increments(Fresh, DefaultMatchConfig(true), Repeat(team, 10)).ended
    ensures Increments(Fresh, DefaultMatchConfig(true), Repeat(team, 10)).winner == team
  {
    OneTeamReachesTarget(DefaultMatchConfig(true), team, 9);
    OneTeamReachesTarget(DefaultMatchConfig(true), team, 10);
  }

  /**
   * `CheckVictoryCondition` has no end-of-game guard, but the table it scans
   * is all it reads, so running it again leaves the match state as it was:
   * the winner stays the first team in array order that reached the target.
   * (A second call does set the restart timer again, which restarts its
   * countdown, and calls `BP_OnTeamVictory` again; neither the clock nor
   * that event is part of this state.)
   */
  lemma CheckVictoryIsIdempotent(m: Match, cfg: MatchConfig)
    ensures CheckVictoryStep(CheckVictoryStep(m, cfg), cfg) == CheckVictoryStep(m, cfg)
  {
  }

  /**
   * A `VictoryRestartDelay` of zero arms no restart timer: once a team has
   * won, the game stays ended and the restart never runs.
   */
  lemma ZeroRestartDelayNeverRestarts(m: Match, cfg: MatchConfig)
    requires cfg.authority && cfg.restartDelay <= 0.0 && FirstWinner(m.scores, cfg.targetScore) >= 0
    ensures var r := CheckVictoryStep(m, cfg);
      r.ended && r.restartTimer == Cleared && RestartElapsedStep(r) == r
  {
  }
}
