/**
  MainWindow: the older desktop report. It shares the replay and the rank
  labels with the helper but differs in three rules: the roster is the
  players with a placement; the elimination line shows the recorded time
  without the offset; and "Victory Royale" is printed whenever the player
  was never eliminated, whatever the placement. An opponent id that does not
  resolve throws (indexing an empty list) instead of falling back to
  "Unknown".

  The report is built as a string by a loop that appends one line per
  elimination the player made. The window keeps the loaded replay, the
  picker items, the selected player, the offset in seconds and the shown
  report in fields that its event handlers update.
*/
module Desktop {
  import opened Wrappers
  import opened Text
  import opened Clock
  import opened Replay
  import Ordinal
  import MatchReport

  /** The exceptions the desktop report can raise. */
  datatype DesktopError =
    | BadEventTime(time: string)   // DateTime.ParseExact rejected an elimination time
    | PlayerNotFound(id: string)   // `[0]` on an empty lookup of an opponent id
    | LengthOverflow               // Convert.ToInt32(LengthInMs) overflowed
    | BadOffsetText(text: string)  // Int32.Parse rejected the offset box

  /** MainWindow.FormNumber, a second copy of the helper's rank label; both give the same text. */
  function FormNumber(num: int): (r: string)
    ensures r == Ordinal.FormNumber(num)
  {
    if num <= 0 then IntToString(num)
    else
      var sp := if num < 10 then " " else "";
      var digits := NatToString(num);
      if num % 100 == 11 || num % 100 == 12 || num % 100 == 13 then sp + digits + "th"
      else if num % 10 == 1 then sp + digits + "st"
      else if num % 10 == 2 then sp + digits + "nd"
      else if num % 10 == 3 then sp + digits + "rd"
      else sp + digits + "th"
  }

  predicate HasPlacement(p: Player) { p.placement.Some? }

  /** getAllPlayersInReplay: the players whose placement is set, all of them, in decoder order. */
  function Roster(replay: ReplayData): (r: seq<Player>)
    ensures forall p :: p in r ==> p in replay.players && p.placement.Some?
    ensures forall p: Player :: p.placement.Some? ==> multiset(r)[p] == multiset(replay.players)[p]
    ensures IsSubsequence(r, replay.players)
  {
    FilterSpec(replay.players, HasPlacement);
    Filter(replay.players, HasPlacement)
  }

  /** The file path, decoded replay and start and end texts the window holds. */
  datatype LoadedFile = LoadedFile(filePath: Option<string>, replay: Option<ReplayData>, startedAt: string, endedAt: string)

  /** ComboBoxItem_Player: the label shown and the player behind it. */
  datatype PickerItem = PickerItem(caption: string, player: Player)

  function Labelled(players: seq<Player>): seq<PickerItem>
  {
    seq(|players|, i requires 0 <= i < |players| => PickerItem(PlayerLabel(players[i]), players[i]))
  }

  /** The items Button_Click puts in the picker. */
  function PickerItems(replay: ReplayData): seq<PickerItem>
  {
    Labelled(OrderByName(Roster(replay)))
  }

  /** The picker holds the roster sorted by name, each player once per roster entry, labelled with its bot flag. */
  lemma PickerListsRosterByName(replay: ReplayData)
    ensures var items := PickerItems(replay);
      && |items| == |Roster(replay)|
      && (forall i :: 0 < i < |items| ==> NameLe(items[i - 1].player.name, items[i].player.name))
      && multiset(seq(|items|, i requires 0 <= i < |items| => items[i].player)) == multiset(Roster(replay))
      && (forall i :: 0 <= i < |items| ==> (EndsWith(items[i].caption, " - bot") <==> items[i].player.isBot))
  {
    var sorted := OrderByName(Roster(replay));
    var items := Labelled(sorted);
    assert seq(|items|, i requires 0 <= i < |items| => items[i].player) == sorted;
  }

  function BotLabel(isBot: bool): string { if isBot then "bot" else "human" }

  /**
    One kill line "{rank}: {shifted time} - {name}({bot|human})\n". The time
    is parsed before the opponent is looked up, so a bad time is reported
    first.
  */
  function KillLine(rank: int, e: Elimination, players: seq<Player>, offset: int): (r: Result<string, DesktopError>)
    ensures ShiftTime(e.time, offset).None? ==> r == Failure(BadEventTime(e.time))
    ensures r.Failure? ==> r.error == BadEventTime(e.time) || r.error == PlayerNotFound(ToUpper(e.eliminatedInfoId))
    ensures r.Success? ==> |r.value| > 0 && r.value[|r.value| - 1] == '\n'
  {
    match ShiftTime(e.time, offset)
    case None => Failure(BadEventTime(e.time))
    case Some(time) =>
      match FindPlayer(players, ToUpper(e.eliminatedInfoId))
      case None => Failure(PlayerNotFound(ToUpper(e.eliminatedInfoId)))
      case Some(killed) => Success(FormNumber(rank) + ": " + time + " - " + killed.name + "(" + BotLabel(killed.isBot) + ")\n")
  }

  /** Appends the lines in order; the first line that throws ends the text with its error. */
  function JoinLines<E>(lines: seq<Result<string, E>>): Result<string, E>
    decreases |lines|
  {
    if lines == [] then Success("")
    else
      match lines[0]
      case Failure(x) => Failure(x)
      case Success(line) =>
        match JoinLines(lines[1..])
        case Failure(x) => Failure(x)
        case Success(rest) => Success(line + rest)
  }

  lemma JoinLinesCons<E>(lines: seq<Result<string, E>>)
    requires lines != []
    ensures JoinLines(lines) ==
      match lines[0]
      case Failure(x) => Failure(x)
      case Success(line) =>
        match JoinLines(lines[1..])
        case Failure(x) => Failure(x)
        case Success(rest) => Success(line + rest)
  {
  }

  lemma {:induction false} JoinLinesAppend<E>(a: seq<Result<string, E>>, b: seq<Result<string, E>>)
    ensures JoinLines(a + b) ==
      match JoinLines(a)
      case Failure(x) => Failure(x)
      case Success(t) =>
        match JoinLines(b)
        case Failure(x) => Failure(x)
        case Success(u) => Success(t + u)
    decreases |a|
  {
    if a == [] {
      assert a + b == b;
      if JoinLines(b).Success? {
        assert "" + JoinLines(b).value == JoinLines(b).value;
      }
    } else {
      assert (a + b)[0] == a[0] && (a + b)[1..] == a[1..] + b;
      JoinLinesAppend(a[1..], b);
      if a[0].Success? && JoinLines(a[1..]).Success? && JoinLines(b).Success? {
        var line, t, u := a[0].value, JoinLines(a[1..]).value, JoinLines(b).value;
        assert line + (t + u) == (line + t) + u;
      }
    }
  }
  /** The text of the first n + 1 lines is the text of the first n followed by line n, unless an earlier line threw. */
  lemma JoinLinesSnoc<E>(lines: seq<Result<string, E>>, n: nat)
    requires n < |lines|
    ensures JoinLines(lines[..n + 1]) ==
      match JoinLines(lines[..n])
      case Failure(x) => Failure(x)
      case Success(t) =>
        match lines[n]
        case Failure(x) => Failure(x)
        case Success(line) => Success(t + line)
  {
    var last := [lines[n]];
    assert lines[..n] + last == lines[..n + 1];
    JoinLinesAppend(lines[..n], last);
    JoinLinesCons(last);
    assert last[1..] == [];
    if lines[n].Success? {
      assert lines[n].value + "" == lines[n].value;
    }
  }

  /** Once a prefix of the lines throws, the whole text is that error. */
  lemma JoinLinesStopsAtFailure<E>(lines: seq<Result<string, E>>, n: nat)
    requires n <= |lines|
    requires JoinLines(lines[..n]).Failure?
    ensures JoinLines(lines) == JoinLines(lines[..n])
  {
    assert lines[..n] + lines[n..] == lines;
    JoinLinesAppend(lines[..n], lines[n..]);
  }


  /** One line per item, written with its rank; ranks run on from `before + 1`. */
  function Lines<T, E>(items: seq<T>, write: (nat, T) -> Result<string, E>, before: nat): (r: seq<Result<string, E>>)
    ensures |r| == |items|
    decreases |items|
  {
    if items == [] then []
    else [write(before + 1, items[0])] + Lines(items[1..], write, before + 1)
  }

  /** The lines of a concatenation are the first part's lines, then the second's with ranks continued. */
  lemma {:induction false} LinesAppend<T, E>(a: seq<T>, b: seq<T>, write: (nat, T) -> Result<string, E>, before: nat)
    ensures Lines(a + b, write, before) == Lines(a, write, before) + Lines(b, write, before + |a|)
    decreases |a|
  {
    if a == [] {
      assert a + b == b;
    } else {
      assert (a + b)[0] == a[0] && (a + b)[1..] == a[1..] + b;
      LinesAppend(a[1..], b, write, before + 1);
    }
  }

  /** Line k is item k written with rank before + k + 1. */
  lemma {:induction false} LinesAt<T, E>(items: seq<T>, write: (nat, T) -> Result<string, E>, before: nat, k: nat)
    requires k < |items|
    ensures Lines(items, write, before)[k] == write(before + k + 1, items[k])
    decreases k
  {
    if k > 0 {
      LinesAt(items[1..], write, before + 1, k - 1);
    }
  }

  /** getMatchData's line writer for one replay and offset. */
  function KillWriter(players: seq<Player>, offset: int): (nat, Elimination) -> Result<string, DesktopError>
  {
    (rank: nat, e: Elimination) => KillLine(rank, e, players, offset)
  }

  /** The kill text: the kill lines, ranked from `before + 1`, appended; the first line that throws ends the report. */
  function KillText(events: seq<Elimination>, players: seq<Player>, offset: int, before: nat): Result<string, DesktopError>
  {
    JoinLines(Lines(events, KillWriter(players, offset), before))
  }

  /** The kill text of a concatenation: the first part's lines, then the second's with ranks continued. */
  lemma KillTextAppend(a: seq<Elimination>, b: seq<Elimination>, players: seq<Player>, offset: int, before: nat)
    ensures KillText(a + b, players, offset, before) ==
      match KillText(a, players, offset, before)
      case Failure(x) => Failure(x)
      case Success(t) =>
        match KillText(b, players, offset, before + |a|)
        case Failure(x) => Failure(x)
        case Success(u) => Success(t + u)
  {
    var write := KillWriter(players, offset);
    LinesAppend(a, b, write, before);
    JoinLinesAppend(Lines(a, write, before), Lines(b, write, before + |a|));
  }

  /** A kill record of the helper written as a desktop kill line. */
  function RecordLine(record: MatchReport.KillRecord): string
  {
    FormNumber(record.index) + ": " + record.time + " - " + record.playerName + "(" + BotLabel(record.isBot) + ")\n"
  }

  function RecordLines(records: seq<MatchReport.KillRecord>): string
    decreases |records|
  {
    if records == [] then "" else RecordLine(records[0]) + RecordLines(records[1..])
  }

  lemma KillTextCons(events: seq<Elimination>, players: seq<Player>, offset: int, before: nat)
    requires events != []
    ensures KillText(events, players, offset, before) ==
      match KillLine(before + 1, events[0], players, offset)
      case Failure(x) => Failure(x)
      case Success(line) =>
        match KillText(events[1..], players, offset, before + 1)
        case Failure(x) => Failure(x)
        case Success(rest) => Success(line + rest)
  {
    var write := KillWriter(players, offset);
    var lines := Lines(events, write, before);
    assert lines[0] == KillLine(before + 1, events[0], players, offset);
    assert lines[1..] == Lines(events[1..], write, before + 1);
    JoinLinesCons(lines);
  }

  /** A kill line is written when the time parses and the opponent resolves, and then shows that record. */
  lemma KillLineCases(rank: nat, e: Elimination, players: seq<Player>, offset: int)
    ensures KillLine(rank, e, players, offset).Success? <==>
              ShiftTime(e.time, offset).Some? && FindPlayer(players, ToUpper(e.eliminatedInfoId)).Some?
    ensures KillLine(rank, e, players, offset).Success? ==>
              var killed := FindPlayer(players, ToUpper(e.eliminatedInfoId)).value;
              KillLine(rank, e, players, offset).value
                == RecordLine(MatchReport.KillRecord(ShiftTime(e.time, offset).value, killed.name, killed.isBot, rank))
  {
  }

  predicate AllResolve(events: seq<Elimination>, players: seq<Player>)
  {
    forall i :: 0 <= i < |events| ==> FindPlayer(players, ToUpper(events[i].eliminatedInfoId)).Some?
  }

  /**
    The desktop kill list shows the helper's kill records line by line. It
    succeeds exactly when the helper's does and every opponent id resolves:
    where the helper would show "Unknown", the desktop throws.
  */
  lemma {:induction false} KillTextMatchesHelper(events: seq<Elimination>, players: seq<Player>, offset: int, before: nat)
    ensures KillText(events, players, offset, before).Success? <==>
              MatchReport.KillRecords(events, players, offset, before).Success? && AllResolve(events, players)
    ensures KillText(events, players, offset, before).Success? ==>
              KillText(events, players, offset, before).value
                == RecordLines(MatchReport.KillRecords(events, players, offset, before).value)
    decreases |events|
  {
    if events != [] {
      var e, rest := events[0], events[1..];
      KillTextMatchesHelper(rest, players, offset, before + 1);
      KillTextCons(events, players, offset, before);
      KillLineCases(before + 1, e, players, offset);
      var found := FindPlayer(players, ToUpper(e.eliminatedInfoId));
      assert AllResolve(events, players) <==> found.Some? && AllResolve(rest, players) by {
        if AllResolve(events, players) {
          forall i | 0 <= i < |rest| ensures FindPlayer(players, ToUpper(rest[i].eliminatedInfoId)).Some? {
            assert rest[i] == events[i + 1];
          }
        }
        if found.Some? && AllResolve(rest, players) {
          forall i | 0 <= i < |events| ensures FindPlayer(players, ToUpper(events[i].eliminatedInfoId)).Some? {
            if i > 0 {
              assert events[i] == rest[i - 1];
            }
          }
        }
      }
      var shifted := ShiftTime(e.time, offset);
      var restRecords := MatchReport.KillRecords(rest, players, offset, before + 1);
      if shifted.Some? && restRecords.Success? && found.Some? {
        var opponent := MatchReport.ResolveOpponent(players, e.eliminatedInfoId);
        assert opponent == MatchReport.Opponent(found.value.name, found.value.isBot);
        var record := MatchReport.KillRecord(shifted.value, opponent.name, opponent.isBot, before + 1);
        var records := [record] + restRecords.value;
        assert MatchReport.KillRecords(events, players, offset, before) == Success(records);
        assert records[0] == record && records[1..] == restRecords.value;
      }
    }
  }

  const VictoryRoyale: string := "==== Victory Royale!! ===="

  /**
    The line after the kills: for the first elimination of the player, its
    recorded time (without the offset) and the eliminator, who must resolve;
    with no elimination, "Victory Royale" whatever the placement.
  */
  function Ending(replay: ReplayData, player: Player): (r: Result<string, DesktopError>)
    ensures (forall e :: e in replay.eliminations ==> e.eliminated != ToUpper(player.id)) <==> r == Success(VictoryRoyale)
    ensures r.Success? && r.value != VictoryRoyale ==>
              exists i :: && 0 <= i < |replay.eliminations|
                          && replay.eliminations[i].eliminated == ToUpper(player.id)
                          && (forall j :: 0 <= j < i ==> replay.eliminations[j].eliminated != ToUpper(player.id))
                          && 14 + |replay.eliminations[i].time| <= |r.value|
                          && r.value[..14 + |replay.eliminations[i].time|] == "Eliminated at " + replay.eliminations[i].time
    ensures r.Success? ==> r.value == VictoryRoyale || (|r.value| > 0 && r.value[|r.value| - 1] == ')')
  {
    var id := ToUpper(player.id);
    match FirstIndex(replay.eliminations, MatchReport.EliminatedIs(id))
    case None => Success(VictoryRoyale)
    case Some(i) =>
      var e := replay.eliminations[i];
      match FindPlayer(replay.players, ToUpper(e.eliminatorInfoId))
      case None => Failure(PlayerNotFound(ToUpper(e.eliminatorInfoId)))
      case Some(eliminator) =>
        var r := "Eliminated at " + e.time + " by " + eliminator.name + "(" + BotLabel(eliminator.isBot) + ")";
        assert r[..14 + |e.time|] == "Eliminated at " + e.time;
        assert r[|r| - 1] == ')';
        Success(r)
  }

  /**
    When the player's first elimination is event k, the ending names that
    event's eliminator: the first player whose id is the upper-cased
    eliminator id, with the recorded time. It throws exactly when no player
    has that id, where the helper would show "Unknown".
  */
  lemma EndingAtFirstElimination(replay: ReplayData, player: Player, k: nat)
    requires FirstIndex(replay.eliminations, MatchReport.EliminatedIs(ToUpper(player.id))) == Some(k)
    ensures var e := replay.eliminations[k];
            var who := ToUpper(e.eliminatorInfoId);
            var r := Ending(replay, player);
            && (r.Failure? <==> forall i :: 0 <= i < |replay.players| ==> replay.players[i].id != who)
            && (r.Failure? ==> r.error == PlayerNotFound(who))
            && (r.Success? ==>
                  var o := MatchReport.ResolveOpponent(replay.players, e.eliminatorInfoId);
                  r.value == "Eliminated at " + e.time + " by " + o.name + "(" + BotLabel(o.isBot) + ")")
  {
  }

  /**
    The desktop ending and the helper's death record describe the same
    event: when the first death's time parses and its eliminator resolves,
    both are computed, and the ending shows the helper's eliminator
    (name and kind), and the helper's time is the ending's recorded time
    shifted by the offset.
  */
  lemma EndingAgreesWithDeathRecord(replay: ReplayData, player: Player, offset: int, k: nat)
    requires FirstIndex(replay.eliminations, MatchReport.EliminatedIs(ToUpper(player.id))) == Some(k)
    requires k < |replay.eliminations|
    requires ShiftTime(replay.eliminations[k].time, offset).Some?
    requires FindPlayer(replay.players, ToUpper(replay.eliminations[k].eliminatorInfoId)).Some?
    ensures Ending(replay, player).Success? && MatchReport.DeathRecordOf(replay, player, offset).Success?
    ensures var e := replay.eliminations[k];
            var death := MatchReport.DeathRecordOf(replay, player, offset).value;
            && death.Some?
            && ShiftTime(e.time, offset) == Some(death.value.time)
            && Ending(replay, player).value
                 == "Eliminated at " + e.time + " by " + death.value.playerName + "(" + BotLabel(death.value.isBot) + ")"
  {
    EndingAtFirstElimination(replay, player, k);
  }

  const KillHeader: string := "================\n"

  function Header(playerName: string): string
  {
    "======== Game Stats for " + playerName + " =========\n"
  }

  function PlayersTotal(stats: RosterStats): string
  {
    "Total Players: " + IntToString(stats.total)
  }

  function PlayersCounts(stats: RosterStats): string
  {
    "Human Players : " + IntToString(stats.humans) + " / Bots : " + IntToString(stats.bots)
  }

  /** The layout "======== Game Stats for {0} =========\n{1}\n{2}\n{3}\nGame Results\n{4}": the header first, the game result last. */
  function GameStats(playerName: string, matchDateTime: string, playersTotal: string, playersCounts: string, gameResult: string)
    : (r: string)
    ensures |Header(playerName)| + |gameResult| <= |r|
    ensures r[..|Header(playerName)|] == Header(playerName)
    ensures r[|r| - |gameResult|..] == gameResult
  {
    var rest := matchDateTime + "\n" + playersTotal + "\n" + playersCounts + "\nGame Results\n" + gameResult;
    assert rest[|rest| - |gameResult|..] == gameResult;
    Header(playerName) + rest
  }

  /** The report ends in "Victory Royale" exactly when its ending line is that banner rather than an elimination line, which ends in ')'. */
  lemma ReportEndsWithEnding(playerName: string, matchDateTime: string, playersTotal: string, playersCounts: string,
                             lines: string, ending: string)
    requires ending == VictoryRoyale || (|ending| > 0 && ending[|ending| - 1] == ')')
    ensures var r := GameStats(playerName, matchDateTime, playersTotal, playersCounts, lines + ending);
            EndsWith(r, VictoryRoyale) <==> ending == VictoryRoyale
  {
    var gameResult := lines + ending;
    var r := GameStats(playerName, matchDateTime, playersTotal, playersCounts, gameResult);
    SuffixOfAppend(lines, ending);
    EndingDecidesVictory(r, gameResult, ending);
  }

  /** A text whose last part ends with the ending shows "Victory Royale" last exactly when that is the ending. */
  lemma EndingDecidesVictory(r: string, gameResult: string, ending: string)
    requires |gameResult| <= |r| && r[|r| - |gameResult|..] == gameResult
    requires |ending| <= |gameResult| && gameResult[|gameResult| - |ending|..] == ending
    requires ending == VictoryRoyale || (|ending| > 0 && ending[|ending| - 1] == ')')
    ensures EndsWith(r, VictoryRoyale) <==> ending == VictoryRoyale
  {
    assert r[|r| - |ending|..] == ending by {
      assert r[|r| - |gameResult|..][|gameResult| - |ending|..] == r[|r| - |ending|..];
    }
    if ending != VictoryRoyale {
      assert r[|r| - 1] == r[|r| - |ending|..][|ending| - 1];
      assert VictoryRoyale[|VictoryRoyale| - 1] == '=';
    }
  }


  /**
    getMatchData: the report for a player, or "" when the replay has no
    match start. `startedAt` and `endedAt` are the local renderings of the
    start and end times.
  */
  function MatchDataText(replay: ReplayData, player: Player, offset: int, startedAt: string, endedAt: string)
    : (r: Result<string, DesktopError>)
    ensures !replay.hasMatchStart ==> r == Success("")
    ensures replay.hasMatchStart && replay.lengthInMs > Int32Max ==> r == Failure(LengthOverflow)
  {
    if !replay.hasMatchStart then Success("")
    else if replay.lengthInMs > Int32Max then Failure(LengthOverflow)
    else
      var matchDateTime := "Started at : " + startedAt + "\nEnded at :" + endedAt + "\n";
      var stats := Stats(Roster(replay));
      match KillText(MatchReport.KillsBy(replay.eliminations, player.id), replay.players, offset, 0)
      case Failure(x) => Failure(x)
      case Success(kills) =>
        match Ending(replay, player)
        case Failure(x) => Failure(x)
        case Success(ending) =>
          Success(GameStats(player.name, matchDateTime, PlayersTotal(stats), PlayersCounts(stats), KillHeader + kills + ending))
  }

  /**
    When a report is due, getMatchData throws exactly when a kill line or
    the ending throws, and the kill lines' error comes first.
  */
  lemma MatchDataTextFailsIff(replay: ReplayData, player: Player, offset: int, startedAt: string, endedAt: string)
    requires replay.hasMatchStart && replay.lengthInMs <= Int32Max
    ensures var r := MatchDataText(replay, player, offset, startedAt, endedAt);
            var kills := KillText(MatchReport.KillsBy(replay.eliminations, player.id), replay.players, offset, 0);
            var ending := Ending(replay, player);
            && (r.Failure? <==> kills.Failure? || ending.Failure?)
            && (kills.Failure? ==> r == Failure(kills.error))
            && (kills.Success? && ending.Failure? ==> r == Failure(ending.error))
  {
  }

  /**
    A report that is written starts with the header and ends in "Victory
    Royale" exactly when no event names the player as eliminated.
  */
  lemma MatchDataTextShowsOutcome(replay: ReplayData, player: Player, offset: int, startedAt: string, endedAt: string)
    requires replay.hasMatchStart
    requires MatchDataText(replay, player, offset, startedAt, endedAt).Success?
    ensures var r := MatchDataText(replay, player, offset, startedAt, endedAt).value;
            && |Header(player.name)| <= |r|
            && r[..|Header(player.name)|] == Header(player.name)
            && (EndsWith(r, VictoryRoyale) <==>
                  forall e :: e in replay.eliminations ==> e.eliminated != ToUpper(player.id))
  {
    var matchDateTime := "Started at : " + startedAt + "\nEnded at :" + endedAt + "\n";
    var stats := Stats(Roster(replay));
    var kills := KillText(MatchReport.KillsBy(replay.eliminations, player.id), replay.players, offset, 0);
    var ending := Ending(replay, player);
    assert kills.Success? && ending.Success?;
    ReportEndsWithEnding(player.name, matchDateTime, PlayersTotal(stats), PlayersCounts(stats), KillHeader + kills.value, ending.value);
  }

  /**
    The kill loop of getMatchData, over its line writer: appends the line for
    item i, ranked i + 1, to `text` for each item in order; the first line
    that throws ends the loop with its error.
  */
  method AppendLines<T, E>(text: string, items: seq<T>, write: (nat, T) -> Result<string, E>)
    returns (r: Result<string, E>)
    ensures r == match JoinLines(Lines(items, write, 0))
                 case Failure(x) => Failure(x)
                 case Success(lines) => Success(text + lines)
  {
    ghost var all := Lines(items, write, 0);
    var gameResult := text;
    ghost var lines := "";
    var i := 0;
    while i < |items|
      invariant 0 <= i <= |items|
      invariant gameResult == text + lines
      invariant JoinLines(all[..i]) == Success(lines)
    {
      var next := write(i + 1, items[i]);
      LinesAt(items, write, 0, i);
      JoinLinesSnoc(all, i);
      if next.Failure? {
        JoinLinesStopsAtFailure(all, i + 1);
        return Failure(next.error);
      }
      var line := next.value;
      AppendAssociates(text, lines, line);
      gameResult := gameResult + line;
      lines := lines + line;
      i := i + 1;
    }
    assert all[..i] == all;
    return Success(gameResult);
  }



  /** The foreach of Button_Click: one picker item per player, in the given order. */
  method LabelAll(players: seq<Player>) returns (items: seq<PickerItem>)
    ensures items == Labelled(players)
  {
    items := [];
    var i := 0;
    while i < |players|
      invariant 0 <= i <= |players|
      invariant |items| == i
      invariant forall j :: 0 <= j < i ==> items[j] == PickerItem(PlayerLabel(players[j]), players[j])
    {
      items := items + [PickerItem(PlayerLabel(players[i]), players[i])];
      i := i + 1;
    }
  }

  /** Button_Click's picker: the roster sorted by name, labelled. */
  method SortedPicker(replay: ReplayData) returns (items: seq<PickerItem>)
    ensures items == PickerItems(replay)
  {
    var sorted := OrderByName(Roster(replay));
    items := LabelAll(sorted);
  }

  /**
    The desktop window: the loaded replay and its file path, the picker
    items, the selected player, the offset box and the offset in force, and
    the report shown.
  */
  class MainWindow {
    var replayFilePath: Option<string>
    var replay: Option<ReplayData>
    var startedAtText: string
    var endedAtText: string
    var items: seq<PickerItem>
    var selected: Option<Player>
    var offsetText: string
    var timingOffset: int
    var resultText: string

    /** Int32.Parse of the offset box would throw. */
    predicate OffsetFails()
      reads this
    {
      TryParseInt32(offsetText).None?
    }

    /** What the window keeps of the last file it loaded. */
    function Loaded(): LoadedFile
      reads this
    {
      LoadedFile(replayFilePath, replay, startedAtText, endedAtText)
    }

    /** Picker items and a selection exist only once a replay is loaded. */
    ghost predicate Valid()
      reads this
    {
      replay.None? ==> items == [] && selected.None?
    }

    /**
      MainWindow(): the fields start at their C# defaults; the offset box
      holds whatever text the window's markup gives it.
    */
    constructor(initialOffsetText: string)
      ensures Valid()
      ensures replay.None? && replayFilePath.None? && items == [] && selected.None?
      ensures offsetText == initialOffsetText && timingOffset == 0 && resultText == ""
    {
      replayFilePath := None;
      replay := None;
      startedAtText := "";
      endedAtText := "";
      items := [];
      selected := None;
      offsetText := initialOffsetText;
      timingOffset := 0;
      resultText := "";
    }

    /**
      Button_Click after the file dialog. Clearing the picker drops the
      selection; when there was one, the combo box raises SelectionChanged,
      whose Int32.Parse of the offset box throws on bad text and ends the
      click there. Otherwise the dialog's path is stored, null when
      cancelled, and a chosen file's replay is kept and its roster listed by
      name.
    */
    method LoadReplay(path: Option<string>, decoded: ReplayData, startedAt: string, endedAt: string)
      returns (error: Option<DesktopError>)
      requires Valid()
      modifies this`items, this`selected, this`replayFilePath, this`replay, this`startedAtText, this`endedAtText
      ensures Valid() && selected.None?
      ensures error.Some? <==> old(selected).Some? && OffsetFails()
      ensures error.Some? ==> error.value == BadOffsetText(offsetText)
      ensures Loaded() == if error.Some? then old(Loaded())
                              else if path.None? then old(Loaded()).(filePath := None)
                              else LoadedFile(path, Some(decoded), startedAt, endedAt)
      ensures items == if error.None? && path.Some? then PickerItems(decoded) else []
    {
      error := ClearPicker();
      if error.Some? {
        return;
      }
      OpenFile(path, decoded, startedAt, endedAt);
    }

    /** Button_Click once the picker is cleared: the dialog's path is stored, null when cancelled, and a chosen file is shown. */
    method OpenFile(path: Option<string>, decoded: ReplayData, startedAt: string, endedAt: string)
      modifies this`items, this`replayFilePath, this`replay, this`startedAtText, this`endedAtText
      ensures Loaded() == if path.None? then old(Loaded()).(filePath := None)
                          else LoadedFile(path, Some(decoded), startedAt, endedAt)
      ensures items == if path.Some? then PickerItems(decoded) else old(items)
    {
      replayFilePath := path;
      if path.None? {
        return;
      }
      ShowChosenReplay(decoded, startedAt, endedAt);
    }

    /**
      `Items.Clear()`: the picker empties and the selection is dropped; a
      dropped selection raises SelectionChanged, which parses the offset box
      and throws on bad text (the refresh that follows has no player).
    */
    method ClearPicker() returns (error: Option<DesktopError>)
      modifies this`items, this`selected
      ensures items == [] && selected.None?
      ensures error.Some? <==> old(selected).Some? && OffsetFails()
      ensures error.Some? ==> error.value == BadOffsetText(offsetText)
    {
      items := [];
      error := None;
      if selected.Some? {
        selected := None;
        if TryParseInt32(offsetText).None? {
          error := Some(BadOffsetText(offsetText));
        }
      }
    }

    /** The rest of Button_Click for a chosen file: the replay is kept and its roster listed by name. */
    method ShowChosenReplay(decoded: ReplayData, startedAt: string, endedAt: string)
      modifies this`items, this`replay, this`startedAtText, this`endedAtText
      ensures items == PickerItems(decoded) && replay == Some(decoded)
      ensures startedAtText == startedAt && endedAtText == endedAt
    {
      var picker := SortedPicker(decoded);
      replay := Some(decoded);
      startedAtText := startedAt;
      endedAtText := endedAt;
      items := picker;
    }

    /**
      getMatchData: the loop appends one kill line per elimination the
      player made, then the ending; the text is the report MatchDataText
      describes, and a line that throws ends it with that error.
    */
    method GetMatchData(player: Player, offset: int) returns (r: Result<string, DesktopError>)
      requires replay.Some?
      ensures r == MatchDataText(replay.value, player, offset, startedAtText, endedAtText)
    {
      var data := replay.value;
      if !data.hasMatchStart {
        return Success("");
      }
      if data.lengthInMs > Int32Max {
        return Failure(LengthOverflow);
      }
      var matchDateTime := "Started at : " + startedAtText + "\nEnded at :" + endedAtText + "\n";
      var stats := Stats(Roster(data));
      var playersTotal := PlayersTotal(stats);
      var playersCounts := PlayersCounts(stats);
      var eliminations := MatchReport.KillsBy(data.eliminations, player.id);
      var killLines := AppendLines(KillHeader, eliminations, KillWriter(data.players, offset));
      if killLines.Failure? {
        return Failure(killLines.error);
      }
      var gameResult := killLines.value;
      var eliminated := Filter(data.eliminations, MatchReport.EliminatedIs(ToUpper(player.id)));
      FirstIsHeadOfFilter(data.eliminations, MatchReport.EliminatedIs(ToUpper(player.id)));
      if |eliminated| > 0 {
        var eliminator := FindPlayer(data.players, ToUpper(eliminated[0].eliminatorInfoId));
        if eliminator.None? {
          return Failure(PlayerNotFound(ToUpper(eliminated[0].eliminatorInfoId)));
        }
        var ending := "Eliminated at " + eliminated[0].time + " by " + eliminator.value.name
                      + "(" + BotLabel(eliminator.value.isBot) + ")";
        gameResult := gameResult + ending;
      } else {
        gameResult := gameResult + VictoryRoyale;
      }
      r := Success(GameStats(player.name, matchDateTime, playersTotal, playersCounts, gameResult));
    }

    /**
      UpdateMatchResult: with a player selected, the shown report becomes the
      report for that player at the offset in force; a report that throws
      leaves the shown text as it was.
    */
    method UpdateMatchResult() returns (error: Option<DesktopError>)
      requires Valid()
      modifies this
      ensures Valid()
      ensures replay == old(replay) && selected == old(selected) && items == old(items)
      ensures timingOffset == old(timingOffset) && offsetText == old(offsetText)
      ensures replayFilePath == old(replayFilePath)
      ensures startedAtText == old(startedAtText) && endedAtText == old(endedAtText)
      ensures selected.None? ==> resultText == old(resultText) && error.None?
      ensures selected.Some? ==>
                match MatchDataText(replay.value, selected.value, timingOffset, startedAtText, endedAtText)
                case Success(text) => resultText == text && error.None?
                case Failure(x) => resultText == old(resultText) && error == Some(x)
    {
      error := None;
      if selected.Some? {
        var report := GetMatchData(selected.value, timingOffset);
        match report
        case Success(text) => resultText := text;
        case Failure(x) => error := Some(x);
      }
    }

    /**
      TimeAdjustment_TextChanged: the offset in force changes only when the
      new text parses as a 32-bit integer, and then the report is refreshed;
      otherwise the event is left unhandled and the old offset stays.
    */
    method TimeAdjustmentTextChanged(text: string) returns (handled: bool, error: Option<DesktopError>)
      requires Valid()
      modifies this
      ensures Valid()
      ensures offsetText == text
      ensures handled <==> TryParseInt32(text).Some?
      ensures timingOffset == if handled then TryParseInt32(text).value else old(timingOffset)
      ensures replay == old(replay) && selected == old(selected) && items == old(items)
      ensures replayFilePath == old(replayFilePath)
      ensures startedAtText == old(startedAtText) && endedAtText == old(endedAtText)
      ensures !handled ==> resultText == old(resultText) && error.None?
      ensures handled && selected.None? ==> resultText == old(resultText) && error.None?
      ensures handled && selected.Some? ==>
                match MatchDataText(replay.value, selected.value, timingOffset, startedAtText, endedAtText)
                case Success(report) => resultText == report && error.None?
                case Failure(x) => resultText == old(resultText) && error == Some(x)
    {
      offsetText := text;
      error := None;
      match TryParseInt32(text)
      case Some(offset) =>
        timingOffset := offset;
        handled := true;
        error := UpdateMatchResult();
      case None =>
        handled := false;
    }

    /**
      ComboBox_SelectionChanged: the selection is stored first; the offset
      box is then parsed only to throw on bad text, and the refresh uses the
      offset already in force, not the parsed one.
    */
    method SelectionChanged(item: Option<PickerItem>) returns (error: Option<DesktopError>)
      requires Valid()
      requires item.Some? ==> item.value in items
      modifies this
      ensures Valid()
      ensures selected == if item.Some? then Some(item.value.player) else None
      ensures timingOffset == old(timingOffset) && offsetText == old(offsetText)
      ensures replay == old(replay) && items == old(items) && replayFilePath == old(replayFilePath)
      ensures startedAtText == old(startedAtText) && endedAtText == old(endedAtText)
      ensures TryParseInt32(offsetText).None? ==> resultText == old(resultText) && error == Some(BadOffsetText(offsetText))
      ensures TryParseInt32(offsetText).Some? && selected.None? ==> resultText == old(resultText) && error.None?
      ensures TryParseInt32(offsetText).Some? && selected.Some? ==>
                match MatchDataText(replay.value, selected.value, old(timingOffset), startedAtText, endedAtText)
                case Success(report) => resultText == report && error.None?
                case Failure(x) => resultText == old(resultText) && error == Some(x)
    {
      selected := if item.Some? then Some(item.value.player) else None;
      var parsed := TryParseInt32(offsetText);
      if parsed.None? {
        return Some(BadOffsetText(offsetText));
      }
      error := UpdateMatchResult();
    }
  }
}
