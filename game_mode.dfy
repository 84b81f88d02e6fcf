/**
 * `AShooterGameMode` as a class. `IncrementTeamScore` keeps the source's
 * index search followed by an in-place update or an append, and
 * `CheckVictoryCondition` its first-match scan; both are proved to have the
 * effect `ScoreRules` gives them and to keep `ScoreRules.MatchInvariant`.
 */
module GameMode {
  import opened Common
  import opened ScoreRules

  class ShooterGameMode {
    const config: MatchConfig

    var teamScores: seq<TeamScore>
    var gameEnded: bool
    var winningTeam: byte
    var victoryRestartTimer: Timer<RestartCallback>
    /** Calls of the statistics hooks, in order. */
    var statCalls: seq<StatCall>

    /** The fields as a `ScoreRules` snapshot. */
    function State(): Match
      reads this
    {
      Match(teamScores, gameEnded, winningTeam, victoryRestartTimer)
    }

    ghost predicate Valid()
      reads this
    {
      config.targetScore >= 1 && MatchInvariant(State(), config)
    }

    constructor (config: MatchConfig)
      requires config.targetScore >= 1
      ensures this.config == config && State() == Fresh && statCalls == []
      ensures Valid()
    {
      this.config := config;
      teamScores, gameEnded, winningTeam := [], false, NoTeam;
      victoryRestartTimer := Cleared;
      statCalls := [];
    }

    method BeginPlay()
      requires Valid()
      modifies this
      ensures State() == BeginPlayStep(old(State())) && statCalls == old(statCalls)
      ensures Valid()
    {
      teamScores := [];
    }

    method IncrementTeamScore(team: byte)
      requires Valid()
      modifies this
      ensures State() == IncrementStep(old(State()), config, team) && statCalls == old(statCalls)
      ensures Valid()
    {
      if !config.authority {
        return;
      }
      if gameEnded {
        return;
      }
      var teamIndex := TeamIndexOf(team);
      var score := if teamIndex != -1 then teamScores[teamIndex].score else 0;
      score := score + 1;
      if teamIndex != -1 {
        teamScores := teamScores[teamIndex := teamScores[teamIndex].(score := score)];
      } else {
        teamScores := teamScores + [TeamScore(team, score)];
      }
      assert teamScores == Credit(old(teamScores), team);
      IncrementKeepsInvariant(old(State()), config, team);
      CheckVictoryCondition();
    }

    /** The index search at the head of `IncrementTeamScore`: the first entry of `team`, or -1. */
    method TeamIndexOf(team: byte) returns (teamIndex: int)
      ensures teamIndex == FindTeam(teamScores, team)
      ensures teamIndex >= 0 ==> teamScores[teamIndex].teamId == team
    {
      teamIndex := -1;
      var i := 0;
      while i < |teamScores|
        invariant 0 <= i <= |teamScores|
        invariant forall j :: 0 <= j < i ==> teamScores[j].teamId != team
      {
        if teamScores[i].teamId == team {
          return i;
        }
        i := i + 1;
      }
    }

    method CheckVictoryCondition()
      modifies this
      ensures State() == CheckVictoryStep(old(State()), config) && statCalls == old(statCalls)
      ensures old(Valid()) ==> Valid()
    {
      if !config.authority {
        return;
      }
      var i := 0;
      while i < |teamScores|
        invariant 0 <= i <= |teamScores|
        invariant forall j :: 0 <= j < i ==> teamScores[j].score < config.targetScore
        invariant State() == old(State())
      {
        if teamScores[i].score >= config.targetScore {
          gameEnded := true;
          winningTeam := teamScores[i].teamId;
          victoryRestartTimer := Arm(RestartGame, config.restartDelay);
          break;
        }
        i := i + 1;
      }
    }

    /** The state reset of `RestartGameAfterVictory`; the map reload is not modelled. */
    method RestartGameAfterVictory()
      modifies this
      ensures State() == RestartStep(old(State())) && statCalls == old(statCalls)
      ensures config.targetScore >= 1 ==> Valid()
    {
      gameEnded := false;
      winningTeam := NoTeam;
      teamScores := [];
    }

    /** The victory restart timer runs out: its handle is spent and the restart runs. */
    method OnVictoryRestartTimer()
      requires Valid()
      modifies this
      ensures State() == RestartElapsedStep(old(State())) && statCalls == old(statCalls)
      ensures Valid()
    {
      if victoryRestartTimer.Armed? {
        victoryRestartTimer := Cleared;
        RestartGameAfterVictory();
      }
    }

    method RecordKill(killer: ControllerRef)
      modifies this
      ensures State() == old(State()) && statCalls == old(statCalls) + [KillRecorded(killer)]
      ensures old(Valid()) ==> Valid()
    {
      statCalls := statCalls + [KillRecorded(killer)];
    }

    method RecordDeath(victim: ControllerRef)
      modifies this
      ensures State() == old(State()) && statCalls == old(statCalls) + [DeathRecorded(victim)]
      ensures old(Valid()) ==> Valid()
    {
      statCalls := statCalls + [DeathRecorded(victim)];
    }
  }
}
