/**
  FortniteReplayHelper: the match report derived from a decoded replay.

  For the whole match it gives the duration and the roster counts (NPCs,
  team index 2 and below, left out). For a chosen player it gives the
  eliminations the player made, in replay order and numbered from 1, the
  first elimination the player suffered, and the outcome the template
  prints. Opponents are looked up by id in the unfiltered player list and
  fall back to "Unknown", not a bot, when the id is missing. Displayed times
  carry the user's offset in seconds.

  The values here are the data the source hands to its Scriban templates;
  the template text itself is not modelled.
*/
module MatchReport {
  import opened Wrappers
  import opened Text
  import opened Clock
  import opened Replay

  /** Looking at player data, NPCs have TeamIndex 2 and players 3 or more. */
  const MinimumTeamIndexForPlayers: int := 3

  predicate IsRealPlayer(p: Player) { p.teamIndex >= MinimumTeamIndexForPlayers }

  /**
    GetAllPlayersInReplay_Without_NPCs: the players with a team index of at
    least 3, all of them, in decoder order.
  */
  function PlayersWithoutNpcs(replay: ReplayData): (r: seq<Player>)
    ensures forall p :: p in r ==> p in replay.players && p.teamIndex >= MinimumTeamIndexForPlayers
    ensures forall p: Player :: p.teamIndex >= MinimumTeamIndexForPlayers ==> multiset(r)[p] == multiset(replay.players)[p]
    ensures IsSubsequence(r, replay.players)
  {
    FilterSpec(replay.players, IsRealPlayer);
    Filter(replay.players, IsRealPlayer)
  }

  /** The exceptions the report can raise on decoded data. */
  datatype ReportError =
    | BadEventTime(time: string)   // DateTime.ParseExact rejected an elimination time
    | LengthOverflow               // Convert.ToInt32(LengthInMs) overflowed

  /** An opponent as the report shows it. */
  datatype Opponent = Opponent(name: string, isBot: bool)

  /**
    `PlayerData.FirstOrDefault(d => d.PlayerId == id.ToUpper())`, then
    `?.PlayerName ?? "Unknown"` and `?.IsBot ?? false`.
  */
  function ResolveOpponent(players: seq<Player>, infoId: string): (r: Opponent)
    ensures (forall i :: 0 <= i < |players| ==> players[i].id != ToUpper(infoId)) ==> r == Opponent("Unknown", false)
    ensures (exists i :: 0 <= i < |players| && players[i].id == ToUpper(infoId)) ==>
              exists i :: && 0 <= i < |players| && players[i].id == ToUpper(infoId)
                          && (forall j :: 0 <= j < i ==> players[j].id != ToUpper(infoId))
                          && r == Opponent(players[i].name, players[i].isBot)
  {
    match FindPlayer(players, ToUpper(infoId))
    case None => Opponent("Unknown", false)
    case Some(p) => Opponent(p.name, p.isBot)
  }

  function EliminatorIs(id: string): Elimination -> bool
  {
    (e: Elimination) => e.eliminator == id
  }

  function EliminatedIs(id: string): Elimination -> bool
  {
    (e: Elimination) => e.eliminated == id
  }

  /**
    `Eliminations.Where(c => c.Eliminator == player.PlayerId.ToUpper())`:
    exactly the eliminations the player made, in replay order.
  */
  function KillsBy(eliminations: seq<Elimination>, playerId: string): (r: seq<Elimination>)
    ensures forall e :: e in r ==> e in eliminations && e.eliminator == ToUpper(playerId)
    ensures forall e: Elimination :: e.eliminator == ToUpper(playerId) ==> multiset(r)[e] == multiset(eliminations)[e]
    ensures IsSubsequence(r, eliminations)
  {
    FilterSpec(eliminations, EliminatorIs(ToUpper(playerId)));
    Filter(eliminations, EliminatorIs(ToUpper(playerId)))
  }

  /** One entry of `eliminations`: shifted time, opponent, 1-based index. */
  datatype KillRecord = KillRecord(time: string, playerName: string, isBot: bool, index: int)

  /** The `eliminated` record: shifted time and the eliminator. */
  datatype DeathRecord = DeathRecord(time: string, playerName: string, isBot: bool)

  /**
    The `Select((elim, idx) => ...)` over the player's eliminations, forced by
    ToList: records numbered `before + 1`, `before + 2`, ... in order. The
    first time that does not parse raises the FormatException.
  */
  function KillRecords(events: seq<Elimination>, players: seq<Player>, offset: int, before: nat)
    : (r: Result<seq<KillRecord>, ReportError>)
    ensures r.Success? <==> forall i :: 0 <= i < |events| ==> ParseMinSec(events[i].time).Some?
    ensures r.Success? ==> |r.value| == |events|
    decreases |events|
  {
    if events == [] then Success([])
    else
      match ShiftTime(events[0].time, offset)
      case None => Failure(BadEventTime(events[0].time))
      case Some(time) =>
        var opponent := ResolveOpponent(players, events[0].eliminatedInfoId);
        var record := KillRecord(time, opponent.name, opponent.isBot, before + 1);
        match KillRecords(events[1..], players, offset, before + 1)
        case Failure(e) => Failure(e)
        case Success(rest) => Success([record] + rest)
  }
  /** A failing kill list names the first event whose time does not parse. */
  lemma {:induction false} KillRecordsFirstFailure(events: seq<Elimination>, players: seq<Player>, offset: int, before: nat)
    ensures var r := KillRecords(events, players, offset, before);
            r.Failure? ==>
              exists i :: && 0 <= i < |events| && ParseMinSec(events[i].time).None?
                          && (forall j :: 0 <= j < i ==> ParseMinSec(events[j].time).Some?)
                          && r.error == BadEventTime(events[i].time)
    decreases |events|
  {
    var r := KillRecords(events, players, offset, before);
    if events != [] && r.Failure? {
      if ShiftTime(events[0].time, offset).None? {
        assert ParseMinSec(events[0].time).None?;
      } else {
        var rest := events[1..];
        KillRecordsFirstFailure(rest, players, offset, before + 1);
        var k :| && 0 <= k < |rest| && ParseMinSec(rest[k].time).None?
                 && (forall j :: 0 <= j < k ==> ParseMinSec(rest[j].time).Some?)
                 && KillRecords(rest, players, offset, before + 1).error == BadEventTime(rest[k].time);
        assert rest[k] == events[k + 1];
        forall j | 0 <= j < k + 1 ensures ParseMinSec(events[j].time).Some? {
          if j > 0 {
            assert events[j] == rest[j - 1];
          }
        }
      }
    }
  }

  /** Entry i of a kill list has index before + i + 1, the shifted time of event i and its resolved opponent. */
  lemma {:induction false} KillRecordsAt(events: seq<Elimination>, players: seq<Player>, offset: int, before: nat)
    ensures var r := KillRecords(events, players, offset, before);
            r.Success? ==>
              forall i :: 0 <= i < |events| ==>
                && r.value[i].index == before + i + 1
                && Some(r.value[i].time) == ShiftTime(events[i].time, offset)
                && Opponent(r.value[i].playerName, r.value[i].isBot) == ResolveOpponent(players, events[i].eliminatedInfoId)
    decreases |events|
  {
    var r := KillRecords(events, players, offset, before);
    if events != [] && r.Success? {
      var rest := events[1..];
      var tail := KillRecords(rest, players, offset, before + 1);
      KillRecordsAt(rest, players, offset, before + 1);
      assert r.value[1..] == tail.value;
      forall i | 0 <= i < |events|
        ensures && r.value[i].index == before + i + 1
                && Some(r.value[i].time) == ShiftTime(events[i].time, offset)
                && Opponent(r.value[i].playerName, r.value[i].isBot) == ResolveOpponent(players, events[i].eliminatedInfoId)
      {
        if i > 0 {
          assert r.value[i] == tail.value[i - 1] && events[i] == rest[i - 1];
        }
      }
    }
  }


  /**
    `Eliminations.Where(c => c.Eliminated == player.PlayerId.ToUpper())`
    mapped lazily and cut by FirstOrDefault: only the first such event is
    looked at (its time parsed, its eliminator resolved); later ones are
    ignored.
  */
  function DeathRecordOf(replay: ReplayData, player: Player, offset: int): (r: Result<Option<DeathRecord>, ReportError>)
    ensures (forall i :: 0 <= i < |replay.eliminations| ==> replay.eliminations[i].eliminated != ToUpper(player.id))
              <==> r == Success(None)
    ensures r != Success(None) ==>
              exists i :: && 0 <= i < |replay.eliminations|
                          && replay.eliminations[i].eliminated == ToUpper(player.id)
                          && (forall j :: 0 <= j < i ==> replay.eliminations[j].eliminated != ToUpper(player.id))
                          && var e := replay.eliminations[i];
                             var opponent := ResolveOpponent(replay.players, e.eliminatorInfoId);
                             r == match ShiftTime(e.time, offset)
                                  case None => Failure(BadEventTime(e.time))
                                  case Some(t) => Success(Some(DeathRecord(t, opponent.name, opponent.isBot)))
  {
    match FirstIndex(replay.eliminations, EliminatedIs(ToUpper(player.id)))
    case None => Success(None)
    case Some(i) =>
      var e := replay.eliminations[i];
      match ShiftTime(e.time, offset)
      case None => Failure(BadEventTime(e.time))
      case Some(time) =>
        var opponent := ResolveOpponent(replay.players, e.eliminatorInfoId);
        Success(Some(DeathRecord(time, opponent.name, opponent.isBot)))
  }

  /** The values RenderPlayerResultFromTemplate hands to its template. */
  datatype PlayerResult = PlayerResult(
    playerName: string,
    eliminations: seq<KillRecord>,
    eliminated: Option<DeathRecord>,
    placement: Option<int>)

  /** RenderPlayerResultFromTemplate for a non-null player: eliminations first, then the death record. */
  function RenderPlayerResult(replay: ReplayData, player: Player, offset: int): (r: Result<PlayerResult, ReportError>)
    ensures r.Success? ==> r.value.playerName == player.name && r.value.placement == player.placement
    ensures r.Success? ==> |r.value.eliminations| == |KillsBy(replay.eliminations, player.id)|
  {
    match KillRecords(KillsBy(replay.eliminations, player.id), replay.players, offset, 0)
    case Failure(e) => Failure(e)
    case Success(kills) =>
      match DeathRecordOf(replay, player, offset)
      case Failure(e) => Failure(e)
      case Success(death) => Success(PlayerResult(player.name, kills, death, player.placement))
  }

  /** The three endings of the player template. */
  datatype Outcome = WasEliminated | Won | EndedEarly

  /**
    `{{ if eliminated }}` ... `{{ else }}{{ if placement == 1 }}` ... `{{ else }}`
    "The replay ended before the match ends."
  */
  function OutcomeOf(result: PlayerResult): (r: Outcome)
    ensures r == WasEliminated <==> result.eliminated.Some?
    ensures r == Won <==> result.eliminated.None? && result.placement == Some(1)
    ensures r == EndedEarly <==> result.eliminated.None? && result.placement != Some(1)
  {
    if result.eliminated.Some? then WasEliminated
    else if result.placement == Some(1) then Won
    else EndedEarly
  }

  /**
    The outcome follows the replay: eliminated exactly when some event names
    the player as eliminated; otherwise a win exactly at placement 1, and
    "ended before the match ends" for every other placement or none.
  */
  lemma OutcomeFollowsReplay(replay: ReplayData, player: Player, offset: int)
    requires RenderPlayerResult(replay, player, offset).Success?
    ensures var outcome := OutcomeOf(RenderPlayerResult(replay, player, offset).value);
      && (outcome == WasEliminated <==> exists e :: e in replay.eliminations && e.eliminated == ToUpper(player.id))
      && (outcome == Won <==> (forall e :: e in replay.eliminations ==> e.eliminated != ToUpper(player.id))
                              && player.placement == Some(1))
      && (outcome == EndedEarly <==> (forall e :: e in replay.eliminations ==> e.eliminated != ToUpper(player.id))
                                     && player.placement != Some(1))
  {
    var result := RenderPlayerResult(replay, player, offset).value;
    PlayerResultDeath(replay, player, offset);
    DeathRecordNamesElimination(replay, player, offset, result.eliminated);
  }

  /** A successful player result carries the death record as it was computed. */
  lemma PlayerResultDeath(replay: ReplayData, player: Player, offset: int)
    requires RenderPlayerResult(replay, player, offset).Success?
    ensures DeathRecordOf(replay, player, offset) == Success(RenderPlayerResult(replay, player, offset).value.eliminated)
  {
  }

  /** A death record exists exactly when some event eliminates the player. */
  lemma DeathRecordNamesElimination(replay: ReplayData, player: Player, offset: int, death: Option<DeathRecord>)
    requires DeathRecordOf(replay, player, offset) == Success(death)
    ensures death.Some? <==> exists e :: e in replay.eliminations && e.eliminated == ToUpper(player.id)
  {
    if exists e :: e in replay.eliminations && e.eliminated == ToUpper(player.id) {
      var e :| e in replay.eliminations && e.eliminated == ToUpper(player.id);
      var i :| 0 <= i < |replay.eliminations| && replay.eliminations[i] == e;
      assert death.Some?;
    }
  }

  /**
    The kill list: entry i is the (i+1)-th elimination the player made, in
    replay order, with its time shifted by the offset and its opponent
    resolved by id, "Unknown" when missing.
  */
  lemma KillListIsExact(replay: ReplayData, player: Player, offset: int)
    requires RenderPlayerResult(replay, player, offset).Success?
    ensures var kills := RenderPlayerResult(replay, player, offset).value.eliminations;
            var made := KillsBy(replay.eliminations, player.id);
      && |kills| == |made|
      && forall i :: 0 <= i < |kills| ==>
           && kills[i].index == i + 1
           && made[i].eliminator == ToUpper(player.id)
           && Some(kills[i].time) == ShiftTime(made[i].time, offset)
           && Opponent(kills[i].playerName, kills[i].isBot) == ResolveOpponent(replay.players, made[i].eliminatedInfoId)
  {
    var made := KillsBy(replay.eliminations, player.id);
    var records := KillRecords(made, replay.players, offset, 0);
    assert records.Success?;
    KillRecordsAt(made, replay.players, offset, 0);
    forall i | 0 <= i < |made| ensures made[i].eliminator == ToUpper(player.id) {
      assert made[i] in made;
    }
  }

  /** The kill list fails exactly when one of the player's eliminations has a time that does not parse. */
  lemma KillTimesDecideFailure(replay: ReplayData, player: Player, offset: int)
    ensures KillRecords(KillsBy(replay.eliminations, player.id), replay.players, offset, 0).Failure? <==>
              exists e :: e in KillsBy(replay.eliminations, player.id) && ParseMinSec(e.time).None?
  {
    TimesDecideFailure(KillsBy(replay.eliminations, player.id), replay.players, offset, 0);
  }

  /** Any kill list fails exactly when one of its events has a time that does not parse. */
  lemma TimesDecideFailure(events: seq<Elimination>, players: seq<Player>, offset: int, before: nat)
    ensures KillRecords(events, players, offset, before).Failure? <==>
              exists e :: e in events && ParseMinSec(e.time).None?
  {
    if exists e :: e in events && ParseMinSec(e.time).None? {
      var e :| e in events && ParseMinSec(e.time).None?;
      var i :| 0 <= i < |events| && events[i] == e;
    }
  }


  /** The death record fails exactly when the first elimination of the player has a time that does not parse. */
  lemma DeathTimeDecidesFailure(replay: ReplayData, player: Player, offset: int)
    ensures DeathRecordOf(replay, player, offset).Failure? <==>
      exists i :: && 0 <= i < |replay.eliminations|
                  && replay.eliminations[i].eliminated == ToUpper(player.id)
                  && (forall j :: 0 <= j < i ==> replay.eliminations[j].eliminated != ToUpper(player.id))
                  && ParseMinSec(replay.eliminations[i].time).None?
  {
    var id := ToUpper(player.id);
    var elims := replay.eliminations;
    var found := FirstIndex(elims, EliminatedIs(id));
    assert forall j :: 0 <= j < |elims| ==> (EliminatedIs(id)(elims[j]) <==> elims[j].eliminated == id);
    if found.Some? {
      FirstTimeDecidesFailure(replay, player, offset, found.value);
    }
  }

  /** With the first elimination of the player at index k, the death record fails exactly when its time does not parse. */
  lemma FirstTimeDecidesFailure(replay: ReplayData, player: Player, offset: int, k: nat)
    requires FirstIndex(replay.eliminations, EliminatedIs(ToUpper(player.id))) == Some(k)
    ensures DeathRecordOf(replay, player, offset).Failure? <==> ParseMinSec(replay.eliminations[k].time).None?
    ensures forall i :: && 0 <= i < |replay.eliminations|
                        && replay.eliminations[i].eliminated == ToUpper(player.id)
                        && (forall j :: 0 <= j < i ==> replay.eliminations[j].eliminated != ToUpper(player.id))
                        ==> i == k
  {
    var id := ToUpper(player.id);
    var elims := replay.eliminations;
    assert elims[k].eliminated == id by {
      assert EliminatedIs(id)(elims[k]);
    }
    forall i | && 0 <= i < |elims| && elims[i].eliminated == id
               && (forall j :: 0 <= j < i ==> elims[j].eliminated != id)
      ensures i == k
    {
      assert EliminatedIs(id)(elims[i]);
    }
  }


  /**
    The report fails only on a time that is actually parsed: the time of an
    elimination the player made, or of the first elimination the player
    suffered; a bad time on any later elimination of the player is ignored.
  */
  lemma PlayerResultFailsOnlyOnParsedTimes(replay: ReplayData, player: Player, offset: int)
    ensures RenderPlayerResult(replay, player, offset).Failure? <==>
      || (exists e :: e in KillsBy(replay.eliminations, player.id) && ParseMinSec(e.time).None?)
      || (exists i :: && 0 <= i < |replay.eliminations|
                      && replay.eliminations[i].eliminated == ToUpper(player.id)
                      && (forall j :: 0 <= j < i ==> replay.eliminations[j].eliminated != ToUpper(player.id))
                      && ParseMinSec(replay.eliminations[i].time).None?)
  {
    KillTimesDecideFailure(replay, player, offset);
    DeathTimeDecidesFailure(replay, player, offset);
  }

  /** The values RenderMatchResultFromTemplate hands to its template; NoMatchStart is its empty string. */
  datatype MatchSummary =
    | NoMatchStart
    | Summary(duration: string, stats: RosterStats, playerName: string, playerResult: Option<PlayerResult>)

  /**
    RenderMatchResultFromTemplate. Without a match start time the report is
    empty. The end time converts LengthInMs to a 32-bit integer, which fails
    above Int32.MaxValue before anything else is computed. The counts are
    over the roster without NPCs; without a player the player fields are
    blank.
  */
  function RenderMatchResult(replay: ReplayData, player: Option<Player>, offset: int): (r: Result<MatchSummary, ReportError>)
    ensures !replay.hasMatchStart ==> r == Success(NoMatchStart)
    ensures replay.hasMatchStart && replay.lengthInMs > Int32Max ==> r == Failure(LengthOverflow)
    ensures r.Success? && r.value.Summary? ==>
              && r.value.stats.total == |PlayersWithoutNpcs(replay)|
              && r.value.stats.humans + r.value.stats.bots == r.value.stats.total
              && r.value.stats.bots == |Filter(PlayersWithoutNpcs(replay), IsBot)|
              && r.value.duration == Duration(replay.lengthInMs)
    ensures replay.hasMatchStart && replay.lengthInMs <= Int32Max && player.None? ==>
              r.Success? && r.value.Summary? && r.value.playerName == "" && r.value.playerResult.None?
    ensures r.Success? && r.value.Summary? && player.Some? ==>
              && r.value.playerName == player.value.name
              && r.value.playerResult.Some?
              && Success(r.value.playerResult.value) == RenderPlayerResult(replay, player.value, offset)
    ensures replay.hasMatchStart && replay.lengthInMs <= Int32Max && player.Some? ==>
              (r.Failure? <==> RenderPlayerResult(replay, player.value, offset).Failure?)
  {
    if !replay.hasMatchStart then Success(NoMatchStart)
    else if replay.lengthInMs > Int32Max then Failure(LengthOverflow)
    else
      var stats := Stats(PlayersWithoutNpcs(replay));
      var duration := Duration(replay.lengthInMs);
      match player
      case None => Success(Summary(duration, stats, "", None))
      case Some(p) =>
        match RenderPlayerResult(replay, p, offset)
        case Failure(e) => Failure(e)
        case Success(result) => Success(Summary(duration, stats, p.name, Some(result)))
  }

  /** Two real players, one of them a bot, and an NPC: the roster counts 2, 1 human, 1 bot. */
  lemma RosterScenario()
    ensures var a := Player("A", "alice", false, 3, Some(2));
            var b := Player("B", "bob", true, 3, Some(1));
            var n := Player("N", "npc", false, 2, None);
            var replay := ReplayData([a, b, n], [], true, 0);
      && PlayersWithoutNpcs(replay) == [a, b]
      && Stats(PlayersWithoutNpcs(replay)) == RosterStats(2, 1, 1)
  {
    var a := Player("A", "alice", false, 3, Some(2));
    var b := Player("B", "bob", true, 3, Some(1));
    var n := Player("N", "npc", false, 2, None);
    assert [a, b, n][1..] == [b, n] && [b, n][1..] == [n] && [n][1..] == [];
    assert [b][1..] == [] && [a, b][1..] == [b];
  }

  /**
    A player eliminated twice in the data, by an id missing from the roster
    and then by a known player: the record is the first event, with the
    opponent "Unknown", not a bot.
  */
  lemma FirstDeathScenario()
    ensures var p := Player("P1", "me", false, 3, Some(7));
            var k := Player("K", "killer", true, 3, Some(1));
            var first := Elimination("GHOST", "P1", "ghost", "p1", "00:30");
            var second := Elimination("K", "P1", "K", "p1", "00:40");
            var replay := ReplayData([p, k], [first, second], true, 0);
      DeathRecordOf(replay, p, 0) == Success(Some(DeathRecord("00:30", "Unknown", false)))
  {
    var p := Player("P1", "me", false, 3, Some(7));
    var k := Player("K", "killer", true, 3, Some(1));
    var first := Elimination("GHOST", "P1", "ghost", "p1", "00:30");
    var second := Elimination("K", "P1", "K", "p1", "00:40");
    var replay := ReplayData([p, k], [first, second], true, 0);
    assert ToUpper("P1") == "P1";
    assert ToUpper("ghost") == "GHOST";
    ShiftExamples();
    ShiftByZero("00:30");
    assert FindPlayer([p, k], "GHOST").None?;
  }
}
