/**
  The web front end's session table. An upload decodes a replay, stores it
  under a fresh session id and answers with the name-sorted player list; a
  result request looks the session up and renders the match report for the
  player at the chosen index of that same list; export hands back the
  stored replay; delete drops the session.

  The table is a field of SessionStore that the handlers update in place.
  Reading the form, writing and deleting the temporary file, decoding the
  replay, generating the session id and serialising JSON are all outside the
  model: their outcomes arrive as parameters.
*/
module WebSessions {
  import opened Wrappers
  import opened Text
  import opened Replay
  import opened MatchReport

  /** ReplaySession(Helper, TempFilePath): the decoded replay behind the helper, and where its upload was saved. */
  datatype Session = Session(replay: ReplayData, tempFilePath: string)

  /** One element of the upload's player list. */
  datatype PlayerEntry = PlayerEntry(index: nat, caption: string, playerId: string, playerName: string, isBot: bool)

  /** Why an upload is answered with BadRequest. */
  datatype UploadError = MissingFile | UnreadableReplay

  datatype UploadResponse =
    | UploadOk(sessionId: string, players: seq<PlayerEntry>)
    | UploadBadRequest(error: UploadError)

  /**
    The answer to /api/result. A report that fails to render (a malformed
    event time, an over-long match) is an exception the handler does not
    catch, so the request fails as a whole: ResultFault.
  */
  datatype ResultResponse =
    | ResultOk(result: MatchSummary)
    | ResultNotFound
    | ResultFault(error: ReportError)

  /** The answer to /api/export: the replay to serialise, as a download named replay.json. */
  datatype ExportResponse =
    | ExportFile(data: ReplayData, contentType: string, fileName: string)
    | ExportNotFound

  /** `GetAllPlayersInReplay().OrderBy(p => p.PlayerName)`: the players both handlers index into. */
  function SortedRoster(replay: ReplayData): (r: seq<Player>)
    ensures SortedByName(r)
    ensures multiset(r) == multiset(PlayersWithoutNpcs(replay))
    ensures forall p :: p in r <==> p in replay.players && IsRealPlayer(p)
  {
    var roster := PlayersWithoutNpcs(replay);
    var r := OrderByName(roster);
    assert forall p :: p in r <==> p in roster by {
      forall p ensures p in r <==> p in roster {
        assert p in r <==> p in multiset(r);
        assert p in roster <==> p in multiset(roster);
      }
    }
    r
  }

  /** The `Select((p, idx) => ...)` projection: each player with its position and picker label. */
  function PlayerEntries(players: seq<Player>): (r: seq<PlayerEntry>)
    ensures |r| == |players|
    ensures forall i :: 0 <= i < |r| ==>
              && r[i].index == i && r[i].caption == PlayerLabel(players[i])
              && r[i].playerId == players[i].id && r[i].playerName == players[i].name && r[i].isBot == players[i].isBot
  {
    seq(|players|, i requires 0 <= i < |players| =>
      PlayerEntry(i, PlayerLabel(players[i]), players[i].id, players[i].name, players[i].isBot))
  }

  /** The bounds-checked `players[req.PlayerIndex]`; -1, the initial "no player" choice, selects nobody. */
  function SelectPlayer(players: seq<Player>, index: int): (r: Option<Player>)
    ensures r.Some? <==> 0 <= index < |players|
    ensures r.Some? ==> r.value in players
  {
    if 0 <= index < |players| then Some(players[index]) else None
  }

  /**
    The upload list and the result handler agree: the entry at position i
    carries index i, and selecting that index picks the very player the
    entry describes (same id, name and kind). Any other index selects
    nobody.
  */
  lemma UploadIndicesSelectTheirPlayer(replay: ReplayData, index: int)
    ensures var players := SortedRoster(replay);
            var entries := PlayerEntries(players);
            && |entries| == |PlayersWithoutNpcs(replay)|
            && (0 <= index < |entries| ==>
                  && entries[index].index == index
                  && SelectPlayer(players, entries[index].index).Some?
                  && var p := SelectPlayer(players, entries[index].index).value;
                     && p.id == entries[index].playerId
                     && p.name == entries[index].playerName
                     && p.isBot == entries[index].isBot
                     && entries[index].caption == PlayerLabel(p)
                     && IsRealPlayer(p))
            && (!(0 <= index < |entries|) ==> SelectPlayer(players, index).None?)
  {
    var players := SortedRoster(replay);
    assert |players| == |multiset(players)| == |multiset(PlayersWithoutNpcs(replay))|;
    if 0 <= index < |players| {
      assert players[index] in players;
    }
  }

  /** The upload handler's answer: BadRequest for a missing or empty file or a replay that cannot be read, else the new id and the player list. */
  function UploadAnswer(file: Option<seq<bv8>>, decoded: Option<ReplayData>, sessionId: string): (r: UploadResponse)
    ensures r == UploadBadRequest(MissingFile) <==> file.None? || |file.value| == 0
    ensures r.UploadOk? <==> file.Some? && |file.value| > 0 && decoded.Some?
    ensures r.UploadOk? ==> r.sessionId == sessionId && |r.players| == |PlayersWithoutNpcs(decoded.value)|
  {
    if file.None? || |file.value| == 0 then UploadBadRequest(MissingFile)
    else if decoded.None? then UploadBadRequest(UnreadableReplay)
    else
      var players := SortedRoster(decoded.value);
      assert |players| == |multiset(players)| == |multiset(PlayersWithoutNpcs(decoded.value))|;
      UploadOk(sessionId, PlayerEntries(players))
  }

  /** The result handler's reply to a rendered report: Ok with the report, or the exception that escapes. */
  function Reply(rendered: Result<MatchSummary, ReportError>): (r: ResultResponse)
    ensures r.ResultOk? <==> rendered.Success?
    ensures r.ResultOk? ==> r.result == rendered.value
    ensures r.ResultFault? ==> r.error == rendered.error
  {
    match rendered
    case Success(summary) => ResultOk(summary)
    case Failure(e) => ResultFault(e)
  }

  /** The result handler's answer for a table: NotFound for an unknown id, else the report for the selected player (or for nobody). */
  function ResultAnswer(sessions: map<string, Session>, sessionId: string, playerIndex: int, offset: int): (r: ResultResponse)
    ensures sessionId !in sessions <==> r == ResultNotFound
    ensures sessionId in sessions ==>
              var replay := sessions[sessionId].replay;
              r == Reply(RenderMatchResult(replay, SelectPlayer(SortedRoster(replay), playerIndex), offset))
  {
    if sessionId !in sessions then ResultNotFound
    else
      var replay := sessions[sessionId].replay;
      Reply(RenderMatchResult(replay, SelectPlayer(SortedRoster(replay), playerIndex), offset))
  }

  /** The export handler's answer: NotFound for an unknown id, else the stored replay as replay.json. */
  function ExportAnswer(sessions: map<string, Session>, sessionId: string): (r: ExportResponse)
    ensures sessionId !in sessions <==> r == ExportNotFound
    ensures r.ExportFile? ==> r.data == sessions[sessionId].replay
  {
    if sessionId !in sessions then ExportNotFound
    else ExportFile(sessions[sessionId].replay, "application/json", "replay.json")
  }

  /**
    After a successful upload, a result request for the new id and an index
    taken from the returned list renders the report of the player that list
    entry describes; an index outside the list (such as -1) renders the
    report without a player.
  */
  lemma UploadThenResult(sessions: map<string, Session>, file: seq<bv8>, replay: ReplayData,
                         tempPath: string, sessionId: string, playerIndex: int, offset: int)
    requires |file| > 0
    ensures var answer := UploadAnswer(Some(file), Some(replay), sessionId);
            var table := sessions[sessionId := Session(replay, tempPath)];
            var players := SortedRoster(replay);
            && answer == UploadOk(sessionId, PlayerEntries(players))
            && (0 <= playerIndex < |answer.players| ==>
                  && players[playerIndex].id == answer.players[playerIndex].playerId
                  && players[playerIndex].name == answer.players[playerIndex].playerName
                  && ResultAnswer(table, sessionId, playerIndex, offset)
                       == Reply(RenderMatchResult(replay, Some(players[playerIndex]), offset)))
            && (!(0 <= playerIndex < |answer.players|) ==>
                  ResultAnswer(table, sessionId, playerIndex, offset) == Reply(RenderMatchResult(replay, None, offset)))
  {
    var table := sessions[sessionId := Session(replay, tempPath)];
    assert sessionId in table && table[sessionId].replay == replay;
  }

  /** Deleting a session makes every later request for it NotFound and leaves the other sessions as they were. */
  lemma DeleteForgetsOnlyThatSession(sessions: map<string, Session>, sessionId: string, other: string, playerIndex: int, offset: int)
    requires other != sessionId
    ensures ResultAnswer(sessions - {sessionId}, sessionId, playerIndex, offset) == ResultNotFound
    ensures ExportAnswer(sessions - {sessionId}, sessionId) == ExportNotFound
    ensures ResultAnswer(sessions - {sessionId}, other, playerIndex, offset) == ResultAnswer(sessions, other, playerIndex, offset)
    ensures ExportAnswer(sessions - {sessionId}, other) == ExportAnswer(sessions, other)
  {
  }

  class SessionStore {
    var sessions: map<string, Session>

    /** The empty table the server starts with. */
    constructor()
      ensures sessions == map[]
    {
      sessions := map[];
    }

    /**
      POST /api/upload. The file is checked first; the session is added only
      once the replay has been read, under the new id, so a failure adds
      nothing. The id is a fresh GUID, hence not yet a key.
    */
    method Upload(file: Option<seq<bv8>>, decoded: Option<ReplayData>, tempPath: string, sessionId: string)
      returns (r: UploadResponse)
      requires sessionId !in sessions
      modifies this
      ensures r == UploadAnswer(file, decoded, sessionId)
      ensures r.UploadOk? ==> sessions == old(sessions)[sessionId := Session(decoded.value, tempPath)]
      ensures !r.UploadOk? ==> sessions == old(sessions)
    {
      if file.None? || |file.value| == 0 {
        return UploadBadRequest(MissingFile);
      }
      if decoded.None? {
        return UploadBadRequest(UnreadableReplay);
      }
      var players := PlayerEntries(SortedRoster(decoded.value));
      sessions := sessions[sessionId := Session(decoded.value, tempPath)];
      r := UploadOk(sessionId, players);
    }

    /** POST /api/result: a lookup, so the table is left as it is. */
    method Result(sessionId: string, playerIndex: int, offset: int) returns (r: ResultResponse)
      ensures r == ResultAnswer(sessions, sessionId, playerIndex, offset)
    {
      if sessionId !in sessions {
        return ResultNotFound;
      }
      var session := sessions[sessionId];
      var players := SortedRoster(session.replay);
      var selected: Option<Player> := None;
      if 0 <= playerIndex < |players| {
        selected := Some(players[playerIndex]);
      }
      var rendered := RenderMatchResult(session.replay, selected, offset);
      if rendered.Failure? {
        return ResultFault(rendered.error);
      }
      r := ResultOk(rendered.value);
    }

    /** GET /api/export/{sessionId}: a lookup, so the table is left as it is. */
    method Export(sessionId: string) returns (r: ExportResponse)
      ensures r == ExportAnswer(sessions, sessionId)
    {
      if sessionId !in sessions {
        return ExportNotFound;
      }
      r := ExportFile(sessions[sessionId].replay, "application/json", "replay.json");
    }

    /**
      DELETE /api/session/{sessionId}: removes the session if there is one and
      answers Ok either way, so deleting twice is the same as deleting once.
      Returns the removed session, whose temporary file the server deletes.
    */
    method Delete(sessionId: string) returns (removed: Option<Session>)
      modifies this
      ensures sessions == old(sessions) - {sessionId}
      ensures removed.Some? <==> sessionId in old(sessions)
      ensures removed.Some? ==> removed.value == old(sessions)[sessionId]
      ensures sessionId !in old(sessions) ==> sessions == old(sessions)
    {
      if sessionId in sessions {
        removed := Some(sessions[sessionId]);
        sessions := sessions - {sessionId};
      } else {
        removed := None;
        assert sessions - {sessionId} == sessions;
      }
    }
  }
}
