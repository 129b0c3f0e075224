/** The scoreboard half of 1.py: turning the decoded scoreboard document
    into game records (`fetch_games`) and keying the game ids by game name
    (`game_options`). */
module Scoreboard {
  import opened PyJson

  /** One element of `games`: `{"id": ..., "name": ..., "teams": [...]}`.
      `id` and `name` are whatever the event holds (None when absent). */
  datatype Game = Game(id: Json, name: Json, teams: seq<Json>)

  /** `team["team"]["displayName"]`. */
  function TeamName(competitor: Json): Result<Json> {
    var team :- Subscript(competitor, "team");
    Subscript(team, "displayName")
  }

  /** `[team["team"]["displayName"] for team in competitors]`: each
      competitor's name in order, or the first failure. */
  function TeamNames(competitors: seq<Json>): (r: Result<seq<Json>>)
    ensures r.Ok? ==> |r.value| == |competitors| &&
                      forall i :: 0 <= i < |competitors| ==> TeamName(competitors[i]) == Ok(r.value[i])
    ensures r.Err? ==> exists i :: 0 <= i < |competitors| && TeamName(competitors[i]) == Err(r.error) &&
                                   forall j :: 0 <= j < i ==> TeamName(competitors[j]).Ok?
  {
    if competitors == [] then Ok([])
    else
      var first :- TeamName(competitors[0]);
      var rest :- TeamNames(competitors[1..]);
      Ok([first] + rest)
  }

  /** `event.get("competitions", [])` for an event that is a dict. */
  function Competitions(event: Json): Json
    requires event.JObj?
  {
    Get(event, "competitions", JArr([])).value
  }

  /** Events that `fetch_games` turns into a record: dicts whose
      `competitions` value is truthy. */
  predicate HasCompetitions(event: Json) {
    event.JObj? && Truthy(Competitions(event))
  }

  /** The record for an event with competitions: its id, its name and the
      names of the competitors of its first competition. */
  function Record(event: Json): Result<Game>
    requires HasCompetitions(event)
  {
    var first :- First(Competitions(event));
    var competitorsValue :- Get(first, "competitors", JArr([]));
    var competitors :- Iter(competitorsValue);
    var teams :- TeamNames(competitors);
    Ok(Game(Get(event, "id", JNull).value, Get(event, "name", JNull).value, teams))
  }

  /** A record holds the event's id and name (null when absent) and, in
      order, the display name of every competitor of its first competition. */
  lemma RecordContents(event: Json, g: Game)
    requires HasCompetitions(event) && Record(event) == Ok(g)
    ensures g.id == Get(event, "id", JNull).value && g.name == Get(event, "name", JNull).value
    ensures First(Competitions(event)).Ok?
    ensures var listed := Get(First(Competitions(event)).value, "competitors", JArr([]));
            listed.Ok? && Iter(listed.value).Ok? && |g.teams| == |Iter(listed.value).value| &&
            forall i :: 0 <= i < |g.teams| ==> TeamName(Iter(listed.value).value[i]) == Ok(g.teams[i])
  {
  }

  /** One pass of the loop body of `fetch_games`: the records it appends. */
  function EventGames(event: Json): Result<seq<Game>> {
    if !event.JObj? then Err(AttributeError(TypeName(event), "get"))
    else if !Truthy(Competitions(event)) then Ok([])
    else
      var g :- Record(event);
      Ok([g])
  }

  /** The `games` list after the loop has also visited `events`, starting
      from `acc`. */
  function GamesFrom(events: seq<Json>, acc: seq<Game>): Result<seq<Game>>
    decreases |events|
  {
    if events == [] then Ok(acc)
    else
      var more :- EventGames(events[0]);
      GamesFrom(events[1..], acc + more)
  }

  /** `data.get("events", [])`, as a `for` loop walks it. */
  function Events(data: Json): Result<seq<Json>> {
    var events :- Get(data, "events", JArr([]));
    Iter(events)
  }

  /** What `fetch_games` returns for a decoded scoreboard document. */
  function Games(data: Json): Result<seq<Game>> {
    var events :- Events(data);
    GamesFrom(events, [])
  }

  /** `fetch_games` after `response.json()`: one loop that appends a record
      for each event with competitions. */
  method FetchGames(data: Json) returns (r: Result<seq<Game>>)
    ensures r == Games(data)
  {
    var events :- Events(data);
    var games: seq<Game> := [];
    var i := 0;
    while i < |events|
      invariant i <= |events|
      invariant GamesFrom(events, []) == GamesFrom(events[i..], games)
    {
      assert events[i..][0] == events[i] && events[i..][1..] == events[i + 1..];
      var event := events[i];
      if !event.JObj? {
        return Err(AttributeError(TypeName(event), "get"));
      }
      var gameId := Get(event, "id", JNull).value;
      var name := Get(event, "name", JNull).value;
      var competitions := Get(event, "competitions", JArr([])).value;
      ghost var before := games;
      if Truthy(competitions) {
        var first :- First(competitions);
        var competitorsValue :- Get(first, "competitors", JArr([]));
        var competitors :- Iter(competitorsValue);
        var teams :- TeamNames(competitors);
        assert EventGames(event) == Ok([Game(gameId, name, teams)]);
        games := games + [Game(gameId, name, teams)];
      } else {
        assert EventGames(event) == Ok([]);
      }
      assert GamesFrom(events[i..], before) == GamesFrom(events[i + 1..], games) by {
        assert games == before + EventGames(event).value;
      }
      i := i + 1;
    }
    r := Ok(games);
  }

  /** The events that yield a record, in input order. */
  function WithCompetitions(events: seq<Json>): (r: seq<Json>)
    ensures forall e :: e in r ==> HasCompetitions(e)
  {
    if events == [] then []
    else (if HasCompetitions(events[0]) then [events[0]] else []) + WithCompetitions(events[1..])
  }

  /** What one event contributes: nothing for an event without
      competitions, its record for one with. */
  lemma EventGamesRecord(event: Json, more: seq<Game>)
    requires EventGames(event) == Ok(more)
    ensures event.JObj?
    ensures HasCompetitions(event) ==> Record(event) == Ok(more[0]) && |more| == 1
    ensures !HasCompetitions(event) ==> more == []
  {
  }

  /** A successful walk extends the list it started from by one record per
      event with competitions. */
  lemma {:induction false} GamesFromLength(events: seq<Json>, acc: seq<Game>, r: seq<Game>)
    requires GamesFrom(events, acc) == Ok(r)
    ensures |r| == |acc| + |WithCompetitions(events)| && r[..|acc|] == acc
    decreases |events|
  {
    if events != [] {
      var more := EventGames(events[0]).value;
      EventGamesRecord(events[0], more);
      GamesFromLength(events[1..], acc + more, r);
      assert |WithCompetitions(events)| == |more| + |WithCompetitions(events[1..])|;
      assert r[..|acc|] == (r[..|acc + more|])[..|acc|];
    }
  }

  /** `fetch_games` succeeds only when every event is a dict, and then
      extends the list it started from by one record per event with
      competitions. */
  lemma {:induction false} GamesFromShape(events: seq<Json>, acc: seq<Game>, r: seq<Game>)
    requires GamesFrom(events, acc) == Ok(r)
    ensures forall e :: e in events ==> e.JObj?
    ensures |r| == |acc| + |WithCompetitions(events)| && r[..|acc|] == acc
    decreases |events|
  {
    GamesFromLength(events, acc, r);
    if events != [] {
      var more := EventGames(events[0]).value;
      EventGamesRecord(events[0], more);
      GamesFromShape(events[1..], acc + more, r);
      assert forall e :: e in events ==> e == events[0] || e in events[1..];
    }
  }

  /** `gs` lists the records of the events `es`, one for one. */
  predicate RecordsAre(es: seq<Json>, gs: seq<Game>)
    decreases |es|
  {
    |es| == |gs| &&
    (es == [] || (HasCompetitions(es[0]) && Record(es[0]) == Ok(gs[0]) && RecordsAre(es[1..], gs[1..])))
  }

  /** The records come in input order: what the loop appends after `acc`
      are the records of the events with competitions. */
  lemma {:induction false} GamesFromRecords(events: seq<Json>, acc: seq<Game>, r: seq<Game>)
    requires GamesFrom(events, acc) == Ok(r)
    ensures |acc| <= |r| && RecordsAre(WithCompetitions(events), r[|acc|..])
    decreases |events|
  {
    GamesFromLength(events, acc, r);
    if events != [] {
      var more := EventGames(events[0]).value;
      EventGamesRecord(events[0], more);
      GamesFromRecords(events[1..], acc + more, r);
      GamesFromLength(events[1..], acc + more, r);
      RecordsPrepend(events, acc, more, r);
    }
  }

  /** One step of `GamesFromRecords`: the games appended for the first
      event, followed by the records of the later events. */
  lemma RecordsPrepend(events: seq<Json>, acc: seq<Game>, more: seq<Game>, r: seq<Game>)
    requires events != []
    requires HasCompetitions(events[0]) ==> |more| == 1 && Record(events[0]) == Ok(more[0])
    requires !HasCompetitions(events[0]) ==> more == []
    requires |acc + more| <= |r| && r[..|acc + more|] == acc + more
    requires RecordsAre(WithCompetitions(events[1..]), r[|acc + more|..])
    ensures RecordsAre(WithCompetitions(events), r[|acc|..])
  {
    var rest := WithCompetitions(events[1..]);
    if HasCompetitions(events[0]) {
      assert WithCompetitions(events) == [events[0]] + rest;
      SuffixAfterOne(acc, more, r);
      RecordsAreCons(events[0], more[0], rest, r[|acc + more|..]);
    } else {
      assert WithCompetitions(events) == rest;
    }
  }

  /** Dropping `acc` from a list that starts with `acc + [g]` leaves `g`
      followed by the rest. */
  lemma SuffixAfterOne(acc: seq<Game>, more: seq<Game>, r: seq<Game>)
    requires |more| == 1 && |acc + more| <= |r| && r[..|acc + more|] == acc + more
    ensures r[|acc|..] == [more[0]] + r[|acc + more|..]
  {
    assert r[|acc|] == (r[..|acc + more|])[|acc|];
  }

  lemma RecordsAreCons(e: Json, g: Game, es: seq<Json>, gs: seq<Game>)
    requires HasCompetitions(e) && Record(e) == Ok(g) && RecordsAre(es, gs)
    ensures RecordsAre([e] + es, [g] + gs)
  {
    assert ([e] + es)[1..] == es && ([g] + gs)[1..] == gs;
  }

  /** The k-th game of a `RecordsAre` list is the record of the k-th event. */
  lemma {:induction false} RecordsAreAt(es: seq<Json>, gs: seq<Game>)
    requires RecordsAre(es, gs)
    ensures |gs| == |es|
    ensures forall k :: 0 <= k < |es| ==> HasCompetitions(es[k]) && Record(es[k]) == Ok(gs[k])
    decreases |es|
  {
    if es != [] {
      RecordsAreAt(es[1..], gs[1..]);
      forall k | 0 < k < |es| ensures HasCompetitions(es[k]) && Record(es[k]) == Ok(gs[k]) {
        assert es[k] == es[1..][k - 1] && gs[k] == gs[1..][k - 1];
      }
    }
  }

  /** `fetch_games` succeeds only when every event is a dict, and then emits
      exactly one record per event with competitions, in input order: the
      k-th game is the record of the k-th such event. */
  lemma GamesAreRecords(data: Json, gs: seq<Game>)
    requires Games(data) == Ok(gs)
    ensures Events(data).Ok? && forall e :: e in Events(data).value ==> e.JObj?
    ensures |gs| == |WithCompetitions(Events(data).value)|
    ensures forall k :: 0 <= k < |gs| ==> Record(WithCompetitions(Events(data).value)[k]) == Ok(gs[k])
  {
    GamesFromShape(Events(data).value, [], gs);
    GamesFromRecords(Events(data).value, [], gs);
    assert gs[0..] == gs;
    RecordsAreAt(WithCompetitions(Events(data).value), gs[0..]);
  }

  /** Conversely, when every event is a dict and every event with
      competitions has a readable record, `fetch_games` succeeds. */
  lemma {:induction false} GamesFromSucceeds(events: seq<Json>, acc: seq<Game>)
    requires forall e :: e in events ==> e.JObj?
    requires forall e :: e in WithCompetitions(events) ==> Record(e).Ok?
    ensures GamesFrom(events, acc).Ok?
    decreases |events|
  {
    if events != [] {
      var more := EventGames(events[0]);
      if HasCompetitions(events[0]) {
        assert events[0] in WithCompetitions(events);
      }
      assert forall e :: e in WithCompetitions(events[1..]) ==> e in WithCompetitions(events);
      GamesFromSucceeds(events[1..], acc + more.value);
    }
  }

  /** `{game["name"]: game["id"] for game in games}`: the comprehension
      fails exactly when some name cannot be a key (a list or dict). */
  function GameOptions(games: seq<Game>): (r: Result<map<Json, Json>>)
    ensures r.Ok? <==> forall i :: 0 <= i < |games| ==> Hashable(games[i].name)
  {
    if games == [] then Ok(map[])
    else
      var m :- GameOptions(games[..|games| - 1]);
      var g := games[|games| - 1];
      if !Hashable(g.name) then Err(TypeError("unhashable type: '" + TypeName(g.name) + "'"))
      else Ok(m[g.name := g.id])
  }

  /** A comprehension that fails raises for the first name that cannot be a
      key. */
  lemma {:induction false} GameOptionsFirstUnhashable(games: seq<Game>, i: nat)
    requires i < |games| && !Hashable(games[i].name)
    requires forall j :: 0 <= j < i ==> Hashable(games[j].name)
    ensures GameOptions(games) == Err(TypeError("unhashable type: '" + TypeName(games[i].name) + "'"))
    decreases |games|
  {
    var n := |games| - 1;
    var init := games[..n];
    if i < n {
      assert init[i] == games[i];
      assert forall j :: 0 <= j < i ==> init[j] == games[j];
      GameOptionsFirstUnhashable(init, i);
    } else {
      assert forall j :: 0 <= j < n ==> init[j] == games[j];
    }
  }

  /** Every game name is a key, and a name shared by several games maps to
      the id of the last of them. */
  lemma {:induction false} GameOptionsLastWins(games: seq<Game>, m: map<Json, Json>, name: Json)
    requires GameOptions(games) == Ok(m)
    ensures name in m <==> exists i :: 0 <= i < |games| && games[i].name == name
    ensures name in m ==> exists i :: 0 <= i < |games| && games[i].name == name && games[i].id == m[name] &&
                                      forall j :: i < j < |games| ==> games[j].name != name
    decreases |games|
  {
    if games != [] {
      var n := |games| - 1;
      var init := games[..n];
      var m0 := GameOptions(init).value;
      GameOptionsLastWins(init, m0, name);
      var last := games[n];
      assert m == m0[last.name := last.id];
      if last.name == name {
        assert games[n].name == name && games[n].id == m[name];
      } else {
        assert forall i :: 0 <= i < n ==> games[i] == init[i];
        if name in m {
          var i :| 0 <= i < n && init[i].name == name && init[i].id == m0[name] &&
                   forall j :: i < j < n ==> init[j].name != name;
          assert games[i] == init[i];
        }
      }
    }
  }
}
