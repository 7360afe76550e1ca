/** The request handlers of `server/server.py` that hold logic of their own:
    the bounded retry around the chat model, the live-game line read from the
    schedule snapshot, and the play-by-play summary of the saved game. The JSON
    documents are given already parsed; each handler turns any exception into
    its fixed fallback text. */
module Server {
  import opened JsonValue
  import opened Sorting
  import opened MlbData

  // ---------------------------------------------------------------------------
  // get_gemini_response

  /** The outcome of one `chat.send_message` call. */
  datatype Reply = Ok(text: string) | Fail

  const Fallback: string := "I apologize, but I'm having trouble responding right now. Please try again."
  const DefaultMaxRetries: int := 3

  function Max0(n: int): nat {
    if n < 0 then 0 else n
  }

  /** `get_gemini_response(transcription, maxRetries)`, where `send(t, k)` is the
      reply the chat gives to the `k`-th call (counting from 0) sending `t`.
      Also returns how many calls were made. */
  method GetGeminiResponse(transcription: string, maxRetries: int, send: (string, nat) -> Reply)
    returns (response: string, calls: nat)
    ensures calls <= Max0(maxRetries)
    ensures forall k :: 0 <= k < calls - 1 ==> send(transcription, k).Fail?
    ensures (exists k :: 0 <= k < maxRetries && send(transcription, k).Ok?) ==>
      calls > 0 && send(transcription, calls - 1).Ok? && response == send(transcription, calls - 1).text
    ensures (forall k :: 0 <= k < maxRetries ==> send(transcription, k).Fail?) ==>
      calls == Max0(maxRetries) && response == Fallback
  {
    calls := 0;
    var attempt := 0;
    while attempt < maxRetries
      invariant 0 <= attempt <= Max0(maxRetries) && calls == attempt
      invariant forall k :: 0 <= k < attempt ==> send(transcription, k).Fail?
    {
      var reply := send(transcription, attempt);
      calls := calls + 1;
      if reply.Ok? {
        return reply.text, calls;
      }
      if attempt == maxRetries - 1 {
        return Fallback, calls;
      }
      attempt := attempt + 1;
    }
    return Fallback, calls;
  }

  /** `get_gemini_response(transcription)` with the default of three attempts:
      a first success is answered after one call, and three failures give the
      apology after exactly three calls. */
  method GetGeminiResponseDefault(transcription: string, send: (string, nat) -> Reply)
    returns (response: string, calls: nat)
    ensures 1 <= calls <= 3
    ensures send(transcription, 0).Ok? ==> calls == 1 && response == send(transcription, 0).text
    ensures (forall k :: 0 <= k < 3 ==> send(transcription, k).Fail?) ==> calls == 3 && response == Fallback
  {
    response, calls := GetGeminiResponse(transcription, DefaultMaxRetries, send);
    if send(transcription, 0).Ok? {
      assert calls > 0;
    }
  }

  // ---------------------------------------------------------------------------
  // get_live_games

  const NoLiveGames: string := "No live games at the moment"
  const LiveGamesError: string := "Unable to fetch game information"

  /** `game["status"]["abstractGameState"] == "Live"`. */
  function IsLive(game: Json): Option<bool> {
    var status :- Item(game, "status");
    var state :- Item(status, "abstractGameState");
    Some(state == JStr("Live"))
  }

  /** `[game for game in games if <game is live>]`. */
  function LiveFilter(games: seq<Json>): Option<seq<Json>> {
    if games == [] then Some([])
    else
      var live :- IsLive(games[0]);
      var rest :- LiveFilter(games[1..]);
      Some(if live then [games[0]] + rest else rest)
  }

  /** `v[0]`: the first item of a list, or the first character of a string. */
  function Index0(v: Json): Option<Json> {
    match v
    case JArr(items) => if items == [] then None else Some(items[0])
    case JStr(s) => if s == "" then None else Some(JStr([s[0]]))
    case _ => None
  }

  /** `f"LIVE: {away} ({awayScore}) vs {home} ({homeScore})"` for one game. */
  function ScoreLine(game: Json): Option<string> {
    var teams :- Item(game, "teams");
    var away :- Item(teams, "away");
    var awayTeam :- Item(away, "team");
    var awayName :- Item(awayTeam, "name");
    var home :- Item(teams, "home");
    var homeTeam :- Item(home, "team");
    var homeName :- Item(homeTeam, "name");
    var awayScore :- Item(away, "score");
    var homeScore :- Item(home, "score");
    Some("LIVE: " + PyStr(awayName) + " (" + PyStr(awayScore) + ") vs " + PyStr(homeName) + " (" + PyStr(homeScore) + ")")
  }

  /** The live line can be read exactly when all nine subscripts succeed;
      a missing team, name or score anywhere makes it fail. */
  lemma ScoreLineOk(game: Json)
    ensures ScoreLine(game).Some? <==>
      Item(game, "teams").Some? &&
      Item(Field(game, "teams"), "away").Some? &&
      Item(Field(Field(game, "teams"), "away"), "team").Some? &&
      Item(Field(Field(Field(game, "teams"), "away"), "team"), "name").Some? &&
      Item(Field(game, "teams"), "home").Some? &&
      Item(Field(Field(game, "teams"), "home"), "team").Some? &&
      Item(Field(Field(Field(game, "teams"), "home"), "team"), "name").Some? &&
      Item(Field(Field(game, "teams"), "away"), "score").Some? &&
      Item(Field(Field(game, "teams"), "home"), "score").Some?
  {
  }

  /** A game with both team names and both scores present reads as the live
      line, away side first. */
  lemma ScoreLineText(game: Json, away: Json, home: Json, awayName: Json, homeName: Json, awayScore: Json, homeScore: Json)
    requires Item(game, "teams").Some?
    requires Item(Field(game, "teams"), "away") == Some(away) && Item(Field(game, "teams"), "home") == Some(home)
    requires Item(away, "team").Some? && Item(Field(away, "team"), "name") == Some(awayName)
    requires Item(home, "team").Some? && Item(Field(home, "team"), "name") == Some(homeName)
    requires Item(away, "score") == Some(awayScore) && Item(home, "score") == Some(homeScore)
    ensures ScoreLine(game) == Some("LIVE: " + PyStr(awayName) + " (" + PyStr(awayScore) + ") vs " +
      PyStr(homeName) + " (" + PyStr(homeScore) + ")")
  {
  }

  /** The games of the first date, `data["dates"][0]["games"]`, as the
      comprehension visits them. */
  function TodayGames(dates: Json): Option<seq<Json>> {
    var first :- Index0(dates);
    var games :- Item(first, "games");
    LoopItems(games)
  }

  /** The `game_info` text `get_live_games` answers for the parsed `info.json`. */
  function LiveGames(data: Json): string {
    var dates := GetNone(data, "dates");
    if dates.None? then LiveGamesError
    else if !Truthy(dates.value) then NoLiveGames
    else
      var line := (
        var games :- TodayGames(dates.value);
        var live :- LiveFilter(games);
        if live == [] then Some(NoLiveGames) else ScoreLine(live[0]));
      line.GetOr(LiveGamesError)
  }

  /** The scan succeeds exactly when every game has a status state; then the
      result lists every live game, in order, and nothing else. */
  lemma {:induction false} LiveFilterSpec(games: seq<Json>)
    ensures LiveFilter(games).Some? <==> forall i :: 0 <= i < |games| ==> IsLive(games[i]).Some?
    ensures LiveFilter(games).Some? ==>
      multiset(LiveFilter(games).value) <= multiset(games) &&
      forall g :: g in LiveFilter(games).value ==> IsLive(g) == Some(true)
    ensures LiveFilter(games).Some? ==>
      forall i :: 0 <= i < |games| && IsLive(games[i]) == Some(true) ==> games[i] in LiveFilter(games).value
  {
    if games != [] {
      LiveFilterSpec(games[1..]);
      assert games == [games[0]] + games[1..];
      if LiveFilter(games).Some? {
        forall i | 0 <= i < |games| && IsLive(games[i]) == Some(true)
          ensures games[i] in LiveFilter(games).value
        {
          if i > 0 {
            assert games[i] == games[1..][i - 1];
          }
        }
      }
      if LiveFilter(games).Some? {
        forall i | 0 <= i < |games| ensures IsLive(games[i]).Some? {
          if i > 0 {
            assert games[i] == games[1..][i - 1];
          }
        }
      }
      if forall i :: 0 <= i < |games| ==> IsLive(games[i]).Some? {
        assert forall i :: 0 <= i < |games[1..]| ==> IsLive(games[1..][i]).Some? by {
          forall i | 0 <= i < |games[1..]| ensures IsLive(games[1..][i]).Some? {
            assert games[1..][i] == games[i + 1];
          }
        }
      }
    }
  }

  /** `live` lists the games at strictly increasing `positions` of `games`,
      and a position is listed exactly when its game is live. */
  predicate LivePositions(games: seq<Json>, live: seq<Json>, positions: seq<nat>) {
    && |positions| == |live|
    && (forall k :: 0 <= k < |positions| ==> positions[k] < |games| && live[k] == games[positions[k]])
    && (forall k, l :: 0 <= k < l < |positions| ==> positions[k] < positions[l])
    && (forall i :: 0 <= i < |games| ==> (i in positions <==> IsLive(games[i]) == Some(true)))
  }

  /** The scan keeps the live games in their schedule order: its entries are the
      games at strictly increasing positions, and every live position is one of
      them. */
  lemma {:induction false} LiveFilterOrder(games: seq<Json>) returns (positions: seq<nat>)
    requires LiveFilter(games).Some?
    ensures LivePositions(games, LiveFilter(games).value, positions)
  {
    if games == [] {
      positions := [];
    } else {
      var rest := LiveFilterOrder(games[1..]);
      positions := LivePositionsCons(games, LiveFilter(games[1..]).value, rest);
    }
  }

  /** One game more at the front: its position 0 is listed when it is live,
      and every other position moves one further on. */
  lemma LivePositionsCons(games: seq<Json>, liveRest: seq<Json>, rest: seq<nat>) returns (positions: seq<nat>)
    requires games != [] && IsLive(games[0]).Some?
    requires LivePositions(games[1..], liveRest, rest)
    ensures LivePositions(games, if IsLive(games[0]).value then [games[0]] + liveRest else liveRest, positions)
  {
    ShiftedPositions(games, liveRest, rest);
    if IsLive(games[0]).value {
      positions := [0] + Shift(rest);
      PrependLive(games, liveRest, Shift(rest));
    } else {
      positions := Shift(rest);
    }
  }

  /** `live` lists the games at strictly increasing positions of `games`, none
      of them 0, and a non-zero position is listed exactly when its game is live. */
  predicate TailPositions(games: seq<Json>, live: seq<Json>, positions: seq<nat>) {
    && |positions| == |live|
    && (forall k :: 0 <= k < |positions| ==> 0 < positions[k] < |games| && live[k] == games[positions[k]])
    && (forall k, l :: 0 <= k < l < |positions| ==> positions[k] < positions[l])
    && (forall i :: 0 < i < |games| ==> (i in positions <==> IsLive(games[i]) == Some(true)))
  }

  /** A live first game joins the front of the list at position 0. */
  lemma PrependLive(games: seq<Json>, liveRest: seq<Json>, shifted: seq<nat>)
    requires games != [] && IsLive(games[0]) == Some(true)
    requires TailPositions(games, liveRest, shifted)
    ensures LivePositions(games, [games[0]] + liveRest, [0] + shifted)
  {
    var positions, live := [0] + shifted, [games[0]] + liveRest;
    forall k | 0 < k < |positions| ensures positions[k] == shifted[k - 1] && live[k] == liveRest[k - 1] {
    }
    forall i | 0 < i < |games| ensures (i in positions <==> i in shifted) {
    }
  }

  /** Shifted by one, the live positions of the tail are the live positions of
      the whole list apart from position 0. */
  lemma ShiftedPositions(games: seq<Json>, liveRest: seq<Json>, rest: seq<nat>)
    requires games != []
    requires LivePositions(games[1..], liveRest, rest)
    ensures TailPositions(games, liveRest, Shift(rest))
    ensures IsLive(games[0]) == Some(false) ==> LivePositions(games, liveRest, Shift(rest))
  {
    ShiftMembers(rest, |games|);
    forall k | 0 <= k < |rest| ensures liveRest[k] == games[Shift(rest)[k]] {
      assert games[1..][rest[k]] == games[rest[k] + 1];
    }
    forall i | 0 < i < |games| ensures (i in Shift(rest) <==> IsLive(games[i]) == Some(true)) {
      assert games[1..][i - 1] == games[i];
    }
  }

  /** Every position one further on. */
  function Shift(ps: seq<nat>): (r: seq<nat>)
    ensures |r| == |ps| && forall k :: 0 <= k < |ps| ==> r[k] == ps[k] + 1
  {
    seq(|ps|, k requires 0 <= k < |ps| => ps[k] + 1)
  }

  lemma ShiftMembers(ps: seq<nat>, n: nat)
    ensures 0 !in Shift(ps)
    ensures forall i :: 0 < i <= n ==> (i in Shift(ps) <==> i - 1 in ps)
  {
    var r := Shift(ps);
    forall i | 0 < i <= n ensures (i in r <==> i - 1 in ps) {
      if i in r {
        var k :| 0 <= k < |r| && r[k] == i;
      }
      if i - 1 in ps {
        var k :| 0 <= k < |ps| && ps[k] == i - 1;
        assert r[k] == i;
      }
    }
  }

  /** The first entry of the scan is the first live game: every earlier game is
      not live. No live game at all leaves the scan empty. */
  lemma {:induction false} LiveFilterFirst(games: seq<Json>)
    requires LiveFilter(games).Some?
    ensures LiveFilter(games).value == [] <==> forall i :: 0 <= i < |games| ==> IsLive(games[i]) == Some(false)
    ensures LiveFilter(games).value != [] ==>
      exists k :: 0 <= k < |games| && LiveFilter(games).value[0] == games[k] &&
        IsLive(games[k]) == Some(true) &&
        forall j :: 0 <= j < k ==> IsLive(games[j]) == Some(false)
  {
    if games != [] {
      var live := IsLive(games[0]).value;
      var rest := LiveFilter(games[1..]).value;
      LiveFilterFirst(games[1..]);
      if live {
        assert LiveFilter(games).value[0] == games[0];
      } else {
        assert LiveFilter(games).value == rest;
        if rest == [] {
          forall i | 0 <= i < |games| ensures IsLive(games[i]) == Some(false) {
            if i > 0 {
              assert games[i] == games[1..][i - 1];
            }
          }
        } else {
          var k :| 0 <= k < |games[1..]| && rest[0] == games[1..][k] &&
            IsLive(games[1..][k]) == Some(true) &&
            forall j :: 0 <= j < k ==> IsLive(games[1..][j]) == Some(false);
          assert games[k + 1] == games[1..][k];
          forall j | 0 <= j < k + 1 ensures IsLive(games[j]) == Some(false) {
            if j > 0 {
              assert games[j] == games[1..][j - 1];
            }
          }
        }
      }
    }
  }

  /** A schedule whose `dates` is missing, null or empty has no live game;
      a snapshot that is no dict at all, or whose first date's games cannot be
      read, is an error. */
  lemma LiveGamesNoDates(data: Json)
    ensures data.JObj? && !Truthy(Field(data, "dates")) ==> LiveGames(data) == NoLiveGames
    ensures !data.JObj? ==> LiveGames(data) == LiveGamesError
    ensures data.JObj? && Truthy(Field(data, "dates")) && TodayGames(Field(data, "dates")).None? ==>
      LiveGames(data) == LiveGamesError
  {
    if data.JObj? {
      assert GetNone(data, "dates") == Some(Field(data, "dates"));
    }
  }

  /** With the first date's games in hand, the answer is the score line of the
      first live game; later live games play no part. No live game gives the
      "no live games" text, and a game without a status state anywhere in the
      list is an error. */
  lemma LiveGamesChoosesFirstLive(data: Json, games: seq<Json>)
    requires data.JObj? && Truthy(Field(data, "dates"))
    requires TodayGames(Field(data, "dates")) == Some(games)
    ensures (exists i :: 0 <= i < |games| && IsLive(games[i]).None?) ==> LiveGames(data) == LiveGamesError
    ensures (forall i :: 0 <= i < |games| ==> IsLive(games[i]) == Some(false)) ==> LiveGames(data) == NoLiveGames
    ensures forall k ::
      (&& 0 <= k < |games| && IsLive(games[k]) == Some(true)
       && (forall j :: 0 <= j < k ==> IsLive(games[j]) == Some(false))
       && (forall j :: k < j < |games| ==> IsLive(games[j]).Some?))
      ==> LiveGames(data) == ScoreLine(games[k]).GetOr(LiveGamesError)
  {
    assert GetNone(data, "dates") == Some(Field(data, "dates"));
    LiveFilterSpec(games);
    if LiveFilter(games).Some? {
      LiveFilterFirst(games);
      var live := LiveFilter(games).value;
      if live != [] {
        var k0 :| 0 <= k0 < |games| && live[0] == games[k0] &&
          IsLive(games[k0]) == Some(true) &&
          forall j :: 0 <= j < k0 ==> IsLive(games[j]) == Some(false);
        forall k | 0 <= k < |games| && IsLive(games[k]) == Some(true) &&
          (forall j :: 0 <= j < k ==> IsLive(games[j]) == Some(false))
          ensures k == k0
        {
        }
      }
    }
  }

  // ---------------------------------------------------------------------------
  // get_game_summary

  const SummaryError: string := "Unable to generate game summary"

  /** `play['about']['startTime']`, which must be a string for `.replace`. */
  function StartTime(play: Json): Option<string> {
    var about :- Item(play, "about");
    var startTime :- Item(about, "startTime");
    if startTime.JStr? then Some(startTime.s) else None
  }

  /** The sort key; only consulted once every play's start time is a string. */
  function SortKey(play: Json): string {
    StartTime(play).GetOr("")
  }

  /** `s.replace('T', ' ')`. */
  function ReplaceT(s: string): (r: string)
    ensures |r| == |s|
    ensures forall i :: 0 <= i < |s| ==> r[i] == (if s[i] == 'T' then ' ' else s[i])
  {
    if s == [] then [] else [if s[0] == 'T' then ' ' else s[0]] + ReplaceT(s[1..])
  }

  /** `s.replace('Z', '')`. */
  function DeleteZ(s: string): (r: string)
    ensures 'Z' !in r
    ensures multiset(r) == multiset(s)['Z' := 0]
  {
    if s == [] then []
    else
      assert s == [s[0]] + s[1..];
      (if s[0] == 'Z' then [] else [s[0]]) + DeleteZ(s[1..])
  }

  /** The first line of a block: the start time with 'T' made a space and 'Z' dropped. */
  function Timestamp(startTime: string): string {
    DeleteZ(ReplaceT(startTime))
  }

  /** A timestamp has no 'T' and no 'Z', and keeps every other character of
      the start time, as often as it occurs there. */
  lemma TimestampChars(startTime: string)
    ensures 'T' !in Timestamp(startTime) && 'Z' !in Timestamp(startTime)
    ensures forall c :: c != 'T' && c != 'Z' && c != ' ' ==>
      multiset(Timestamp(startTime))[c] == multiset(startTime)[c]
  {
    var r := ReplaceT(startTime);
    forall c | c != 'T' && c != 'Z' && c != ' '
      ensures multiset(r)[c] == multiset(startTime)[c]
    {
      ReplaceTCount(startTime, c);
    }
    assert 'T' !in multiset(r);
    assert multiset(Timestamp(startTime))['T'] == multiset(r)['T'];
  }

  lemma {:induction false} ReplaceTCount(s: string, c: char)
    requires c != 'T' && c != ' '
    ensures multiset(ReplaceT(s))[c] == multiset(s)[c]
  {
    if s != [] {
      ReplaceTCount(s[1..], c);
      assert s == [s[0]] + s[1..];
      assert ReplaceT(s) == [ReplaceT(s)[0]] + ReplaceT(s[1..]);
    }
  }

  /** The text block of one play, or the exception its rendering raises. */
  function RenderBlock(play: Json): Option<string> {
    var startTime :- StartTime(play);
    var about :- Item(play, "about");
    var inning :- Item(about, "inning");
    var isTopInning :- Item(about, "isTopInning");
    var result :- Item(play, "result");
    var description :- Item(result, "description");
    var awayScore :- Item(result, "awayScore");
    var homeScore :- Item(result, "homeScore");
    var half := if Truthy(isTopInning) then "Top" else "Bottom";
    Some(Timestamp(startTime) + "\n" + half + " " + PyStr(inning) + ": " + PyStr(description) +
      " (Score: " + PyStr(awayScore) + "-" + PyStr(homeScore) + ")\n")
  }

  /** The summary of the saved plays: every start time is read for the sort,
      the plays are stably sorted by it, each is rendered, and the blocks are
      joined with newlines. `None` is any exception on the way. */
  function Summarise(plays: seq<Json>): Option<string> {
    var startTimes :- MapAll(StartTime, plays);
    var blocks :- MapAll(RenderBlock, SortBy(plays, SortKey));
    Some(JoinWith("\n", blocks))
  }

  /** The `summary` text `get_game_summary` answers for the parsed `liveData.json`. */
  function GameSummary(data: Json): string {
    var plays := AllPlays(data);
    if plays.None? then SummaryError else Summarise(plays.value).GetOr(SummaryError)
  }

  /** `get_game_summary`: the loop renders the sorted plays one by one and
      collects the blocks; the first failure abandons the whole summary. */
  method GetGameSummary(data: Json) returns (summary: string)
    ensures summary == GameSummary(data)
  {
    var allPlays := AllPlays(data);
    if allPlays.None? {
      return SummaryError;
    }
    var plays := allPlays.value;
    var startTimes := MapAll(StartTime, plays);
    if startTimes.None? {
      return SummaryError;
    }
    var sortedPlays := SortBy(plays, SortKey);
    var blocks: seq<string> := [];
    var i := 0;
    while i < |sortedPlays|
      invariant 0 <= i <= |sortedPlays| && |blocks| == i
      invariant forall j :: 0 <= j < i ==> RenderBlock(sortedPlays[j]) == Some(blocks[j])
    {
      var block := RenderBlock(sortedPlays[i]);
      if block.None? {
        return SummaryError;
      }
      blocks := blocks + [block.value];
      i := i + 1;
    }
    assert MapAll(RenderBlock, sortedPlays).value == blocks;
    summary := JoinWith("\n", blocks);
  }

  /** `"\n".join` puts the separator between neighbours only. */
  lemma {:induction false} JoinWithAppend(sep: string, xs: seq<string>, x: string)
    requires xs != []
    ensures JoinWith(sep, xs + [x]) == JoinWith(sep, xs) + sep + x
  {
    if |xs| == 1 {
      assert (xs + [x])[1..] == [x];
    } else {
      assert (xs + [x])[1..] == xs[1..] + [x];
      JoinWithAppend(sep, xs[1..], x);
    }
  }

  lemma RenderNeedsStartTime(play: Json)
    ensures RenderBlock(play).Some? ==> StartTime(play).Some?
  {
  }

  /** No plays give the empty summary. */
  lemma SummariseEmpty()
    ensures Summarise([]) == Some("")
  {
  }

  /** The summary fails exactly when some play cannot be rendered. */
  lemma SummariseOk(plays: seq<Json>)
    ensures Summarise(plays).Some? <==> forall i :: 0 <= i < |plays| ==> RenderBlock(plays[i]).Some?
  {
    var sortedPlays := SortBy(plays, SortKey);
    SortByPermutes(plays, SortKey);
    forall p | p in plays ensures p in sortedPlays {
      assert p in multiset(plays);
    }
    forall p | p in sortedPlays ensures p in plays {
      assert p in multiset(sortedPlays);
    }
    forall i | 0 <= i < |plays| {
      RenderNeedsStartTime(plays[i]);
    }
    if forall i :: 0 <= i < |plays| ==> RenderBlock(plays[i]).Some? {
      forall i | 0 <= i < |sortedPlays| ensures RenderBlock(sortedPlays[i]).Some? {
        assert sortedPlays[i] in plays;
      }
    }
    if Summarise(plays).Some? {
      forall i | 0 <= i < |plays| ensures RenderBlock(plays[i]).Some? {
        assert plays[i] in sortedPlays;
      }
    }
  }

  /** A successful summary renders a stable sort of the plays by start time:
      every play exactly once, start times in non-decreasing string order,
      plays with the same start time in their saved order, and the blocks in
      that order separated by one newline each. */
  lemma SummariseSortsStably(plays: seq<Json>)
    requires Summarise(plays).Some?
    ensures var sortedPlays := SortBy(plays, SortKey);
      && multiset(sortedPlays) == multiset(plays)
      && SortedBy(sortedPlays, SortKey)
      && (forall t :: Filter(sortedPlays, SortKey, t) == Filter(plays, SortKey, t))
      && (forall i :: 0 <= i < |plays| ==> SortKey(plays[i]) == StartTime(plays[i]).value)
      && MapAll(RenderBlock, sortedPlays).Some?
      && Summarise(plays).value == JoinWith("\n", MapAll(RenderBlock, sortedPlays).value)
  {
    var sortedPlays := SortBy(plays, SortKey);
    SortByPermutes(plays, SortKey);
    SortBySorted(plays, SortKey);
    forall t {
      SortByStable(plays, SortKey, t);
    }
  }

  /** What `get_game_summary` reads back is what `save_live_data` wrote. */
  lemma SavedSummary(plays: seq<Json>)
    ensures GameSummary(Envelope(plays)) == Summarise(plays).GetOr(SummaryError)
  {
  }

  /** A play renders exactly when it has a string start time and every other
      key the block reads. */
  lemma RenderBlockOk(play: Json)
    ensures RenderBlock(play).Some? <==>
      && StartTime(play).Some?
      && Item(Field(play, "about"), "inning").Some? && Item(Field(play, "about"), "isTopInning").Some?
      && Item(play, "result").Some? && Item(Field(play, "result"), "description").Some?
      && Item(Field(play, "result"), "awayScore").Some? && Item(Field(play, "result"), "homeScore").Some?
  {
  }

  /** A record of the normalised play shape renders exactly when its start
      time is a string: every other key the summary reads is one it has. */
  lemma ShapedPlayRenders(out: Json)
    requires ObjWithKeys(out, PlayKeys)
    requires ObjWithKeys(Field(out, "about"), AboutKeys) && ObjWithKeys(Field(out, "result"), ResultKeys)
    ensures RenderBlock(out).Some? <==> Field(Field(out, "about"), "startTime").JStr?
  {
    RenderBlockOk(out);
    HasListedKey(out, PlayKeys, "about");
    HasListedKey(out, PlayKeys, "result");
    var about, result := Field(out, "about"), Field(out, "result");
    HasListedKey(about, AboutKeys, "startTime");
    HasListedKey(about, AboutKeys, "inning");
    HasListedKey(about, AboutKeys, "isTopInning");
    HasListedKey(result, ResultKeys, "description");
    HasListedKey(result, ResultKeys, "awayScore");
    HasListedKey(result, ResultKeys, "homeScore");
  }

  /** A play the normaliser produced can be rendered exactly when the source
      play's start time is a string: the other keys the summary reads are all
      mandatory in the normaliser. */
  lemma NormalizedPlayRenders(p: Json)
    requires PlayWellFormed(p)
    ensures NormalizePlay(p).Some?
    ensures RenderBlock(NormalizePlay(p).value).Some? <==> Field(Field(p, "about"), "startTime").JStr?
  {
    NormalizePlayParts(p);
    NormalizePlayFields(p);
    ShapedPlayRenders(NormalizePlay(p).value);
    assert "startTime" in AboutKeys;
  }

  /** The block of a play whose fields are all present: the timestamp line,
      then the half inning, the description and the away-home score. */
  lemma RenderBlockText(play: Json, startTime: string, inning: Json, top: Json, description: Json, away: Json, home: Json)
    requires Item(play, "about").Some? && Item(play, "result").Some?
    requires Item(Field(play, "about"), "startTime") == Some(JStr(startTime))
    requires Item(Field(play, "about"), "inning") == Some(inning)
    requires Item(Field(play, "about"), "isTopInning") == Some(top)
    requires Item(Field(play, "result"), "description") == Some(description)
    requires Item(Field(play, "result"), "awayScore") == Some(away)
    requires Item(Field(play, "result"), "homeScore") == Some(home)
    ensures RenderBlock(play) == Some(Timestamp(startTime) + "\n" + (if Truthy(top) then "Top" else "Bottom") + " " +
      PyStr(inning) + ": " + PyStr(description) + " (Score: " + PyStr(away) + "-" + PyStr(home) + ")\n")
  {
  }

  /** A start time `dateTtimeZ` whose parts hold no 'T' or 'Z' renders as `date time`. */
  lemma TimestampOf(startTime: string, date: string, time: string)
    requires startTime == date + "T" + time + "Z"
    requires 'T' !in date && 'Z' !in date && 'T' !in time && 'Z' !in time
    ensures Timestamp(startTime) == date + " " + time
  {
    ReplaceTKeeps(date);
    ReplaceTKeeps(time);
    ReplaceTKeeps("Z");
    assert ReplaceT("T") == " ";
    ReplaceTAppend(date, "T");
    ReplaceTAppend(date + "T", time);
    ReplaceTAppend(date + "T" + time, "Z");
    var spaced := date + " " + time;
    assert ReplaceT(startTime) == spaced + "Z";
    assert 'Z' !in spaced;
    DeleteZKeeps(spaced);
    DeleteZAppend(spaced, "Z");
    assert DeleteZ("Z") == [];
  }

  lemma {:induction false} ReplaceTAppend(a: string, b: string)
    ensures ReplaceT(a + b) == ReplaceT(a) + ReplaceT(b)
  {
    var r := ReplaceT(a + b);
    assert r == ReplaceT(a) + ReplaceT(b) by {
      forall i | 0 <= i < |r| ensures r[i] == (ReplaceT(a) + ReplaceT(b))[i] {
        if i < |a| {
          assert (a + b)[i] == a[i];
        } else {
          assert (a + b)[i] == b[i - |a|];
        }
      }
    }
  }

  lemma ReplaceTKeeps(s: string)
    requires 'T' !in s
    ensures ReplaceT(s) == s
  {
    assert forall i :: 0 <= i < |s| ==> ReplaceT(s)[i] == s[i];
  }

  lemma {:induction false} DeleteZAppend(a: string, b: string)
    ensures DeleteZ(a + b) == DeleteZ(a) + DeleteZ(b)
  {
    if a != [] {
      assert (a + b)[1..] == a[1..] + b;
      assert (a + b)[0] == a[0];
      DeleteZAppend(a[1..], b);
    } else {
      assert a + b == b;
    }
  }

  lemma {:induction false} DeleteZKeeps(s: string)
    requires 'Z' !in s
    ensures DeleteZ(s) == s
  {
    if s != [] {
      assert s[0] in s;
      assert forall c :: c in s[1..] ==> c in s;
      DeleteZKeeps(s[1..]);
      assert s == [s[0]] + s[1..];
    }
  }

  /** One live game: the away side is named first. */
  lemma MetsBravesLine()
    ensures ScoreLine(JObj(map["teams" := JObj(map[
      "away" := JObj(map["team" := JObj(map["name" := JStr("Mets")]), "score" := JInt(3)]),
      "home" := JObj(map["team" := JObj(map["name" := JStr("Braves")]), "score" := JInt(2)])])]))
      == Some("LIVE: Mets (3) vs Braves (2)")
  {
    var away := JObj(map["team" := JObj(map["name" := JStr("Mets")]), "score" := JInt(3)]);
    var home := JObj(map["team" := JObj(map["name" := JStr("Braves")]), "score" := JInt(2)]);
    var game := JObj(map["teams" := JObj(map["away" := away, "home" := home])]);
    assert Item(Field(game, "teams"), "away") == Some(away);
    assert Item(Field(game, "teams"), "home") == Some(home);
    assert PyStr(JInt(3)) == "3" && PyStr(JInt(2)) == "2";
    assert ScoreLine(game) == Some("LIVE: " + "Mets" + " (" + "3" + ") vs " + "Braves" + " (" + "2" + ")");
    MetsBravesText();
  }

  lemma MetsBravesText()
    ensures "LIVE: " + "Mets" + " (" + "3" + ") vs " + "Braves" + " (" + "2" + ")" == "LIVE: Mets (3) vs Braves (2)"
  {
  }
}
