/** The box-score half of 1.py: walking a decoded game-summary document
    (`data["boxscore"]["players"]`, then each team's `statistics` groups,
    then each group's `athletes`) to list every athlete's display name
    (`fetch_players`) and to read one athlete's statistic
    (`fetch_player_stat`). The HTTP request is not modelled: each operation
    takes the decoded document. */
module Boxscore {
  import opened PyJson
  import opened PyText
  import opened StringOrder

  // The access paths shared by both traversals.

  /** `data.get("boxscore", {}).get("players", [])`, as a `for` loop walks it. */
  function Teams(data: Json): Result<seq<Json>> {
    var box :- Get(data, "boxscore", JObj([]));
    var players :- Get(box, "players", JArr([]));
    Iter(players)
  }

  /** `team.get("statistics", [])`, as a `for` loop walks it. */
  function Groups(team: Json): Result<seq<Json>> {
    var groups :- Get(team, "statistics", JArr([]));
    Iter(groups)
  }

  /** `group.get("athletes", [])`, as a `for` loop walks it. */
  function Athletes(group: Json): Result<seq<Json>> {
    var athletes :- Get(group, "athletes", JArr([]));
    Iter(athletes)
  }

  /** `athlete["athlete"]["displayName"]`. */
  function DisplayName(athlete: Json): Result<Json> {
    var inner :- Subscript(athlete, "athlete");
    Subscript(inner, "displayName")
  }

  // fetch_players

  /** The names the loops of `fetch_players` append to `players`, after
      `acc`, walking athletes in order; the first failing lookup is raised. */
  function CollectAthletes(athletes: seq<Json>, acc: seq<Json>): Result<seq<Json>>
    decreases |athletes|
  {
    if athletes == [] then Ok(acc)
    else
      var name :- DisplayName(athletes[0]);
      CollectAthletes(athletes[1..], acc + [name])
  }

  function CollectGroups(groups: seq<Json>, acc: seq<Json>): Result<seq<Json>>
    decreases |groups|
  {
    if groups == [] then Ok(acc)
    else
      var athletes :- Athletes(groups[0]);
      var acc' :- CollectAthletes(athletes, acc);
      CollectGroups(groups[1..], acc')
  }

  function CollectTeams(teams: seq<Json>, acc: seq<Json>): Result<seq<Json>>
    decreases |teams|
  {
    if teams == [] then Ok(acc)
    else
      var groups :- Groups(teams[0]);
      var acc' :- CollectGroups(groups, acc);
      CollectTeams(teams[1..], acc')
  }

  /** The `players` list of `fetch_players` before `sorted(set(...))`:
      every display name across teams, groups and athletes, in that order. */
  function DisplayNames(data: Json): Result<seq<Json>> {
    var teams :- Teams(data);
    CollectTeams(teams, [])
  }

  /** `sorted(set(players))`, for display names that are all strings. */
  function SortedNames(names: seq<Json>): Result<seq<string>> {
    if forall i :: 0 <= i < |names| ==> names[i].JStr? then
      Ok(SortedSet(seq(|names|, i requires 0 <= i < |names| => names[i].s)))
    else
      Err(TypeError("display name is not a str"))
  }

  /** What `fetch_players` returns for a decoded summary document. */
  function Players(data: Json): Result<seq<string>> {
    var names :- DisplayNames(data);
    SortedNames(names)
  }

  /** The innermost loop of `fetch_players`: appends each athlete's display
      name to `players`. */
  method AppendAthletes(athletes: seq<Json>, players: seq<Json>) returns (r: Result<seq<Json>>)
    ensures r == CollectAthletes(athletes, players)
  {
    var acc := players;
    var k := 0;
    while k < |athletes|
      invariant k <= |athletes|
      invariant CollectAthletes(athletes, players) == CollectAthletes(athletes[k..], acc)
    {
      assert athletes[k..][0] == athletes[k] && athletes[k..][1..] == athletes[k + 1..];
      var name :- DisplayName(athletes[k]);
      acc := acc + [name];
      k := k + 1;
    }
    r := Ok(acc);
  }

  /** The loop of `fetch_players` over one team's statistic groups. */
  method AppendGroups(groups: seq<Json>, players: seq<Json>) returns (r: Result<seq<Json>>)
    ensures r == CollectGroups(groups, players)
  {
    var acc := players;
    var j := 0;
    while j < |groups|
      invariant j <= |groups|
      invariant CollectGroups(groups, players) == CollectGroups(groups[j..], acc)
    {
      assert groups[j..][0] == groups[j] && groups[j..][1..] == groups[j + 1..];
      var athletes :- Athletes(groups[j]);
      acc :- AppendAthletes(athletes, acc);
      j := j + 1;
    }
    r := Ok(acc);
  }

  /** `fetch_players` after `response.json()`: the nested loops appending to
      `players`, then `sorted(set(players))`. */
  method FetchPlayers(data: Json) returns (r: Result<seq<string>>)
    ensures r == Players(data)
  {
    var teams :- Teams(data);
    var players: seq<Json> := [];
    var i := 0;
    while i < |teams|
      invariant i <= |teams|
      invariant CollectTeams(teams, []) == CollectTeams(teams[i..], players)
    {
      assert teams[i..][0] == teams[i] && teams[i..][1..] == teams[i + 1..];
      var groups :- Groups(teams[i]);
      players :- AppendGroups(groups, players);
      i := i + 1;
    }
    r := SortedNames(players);
  }

  /** The players list is strictly ascending (sorted, no name twice) and
      holds exactly the display names found in the document. */
  lemma PlayersSortedAndComplete(data: Json, ps: seq<string>)
    requires Players(data) == Ok(ps)
    ensures StrictlyAscending(ps)
    ensures DisplayNames(data).Ok?
    ensures forall n :: n in ps <==> JStr(n) in DisplayNames(data).value
  {
    var names := DisplayNames(data).value;
    var strs := seq(|names|, i requires 0 <= i < |names| => names[i].s);
    assert ps == SortedSet(strs);
    forall n ensures n in ps <==> JStr(n) in names {
      assert n in ps <==> n in Elems(ps);
      if JStr(n) in names {
        var i :| 0 <= i < |names| && names[i] == JStr(n);
        assert strs[i] == n;
      }
      if n in strs {
        var i :| 0 <= i < |strs| && strs[i] == n;
        assert names[i] == JStr(n);
      }
    }
  }

  /** No other order or selection of the names is possible: any strictly
      ascending list of exactly the document's names is the players list. */
  lemma PlayersUnique(data: Json, ps: seq<string>, qs: seq<string>)
    requires Players(data) == Ok(ps)
    requires StrictlyAscending(qs)
    requires forall n :: n in qs <==> JStr(n) in DisplayNames(data).value
    ensures qs == ps
  {
    PlayersSortedAndComplete(data, ps);
    assert Elems(qs) == Elems(ps);
    AscendingUnique(qs, ps);
  }

  // fetch_player_stat

  /** `zip(keys, values)`: pairs up to the shorter of the two. */
  function Zip(keys: seq<Json>, values: seq<Json>): seq<(Json, Json)> {
    var n := if |keys| < |values| then |keys| else |values|;
    seq(n, i requires 0 <= i < n => (keys[i], values[i]))
  }

  /** The string-keyed part of `dict(pairs)`: pairs are stored in order, so
      a later pair overwrites an earlier one with the same key; a list or
      dict as key raises. Keys that are not strings are stored by Python but
      can never equal the string statType looked up, so they are dropped. */
  function StrDict(pairs: seq<(Json, Json)>): Result<map<string, Json>> {
    if pairs == [] then Ok(map[])
    else
      var m :- StrDict(pairs[..|pairs| - 1]);
      var (k, v) := pairs[|pairs| - 1];
      if !Hashable(k) then Err(TypeError("unhashable type: '" + TypeName(k) + "'"))
      else if k.JStr? then Ok(m[k.s := v])
      else Ok(m)
  }

  /** `int(dict(zip(desc, stats)).get(statType, "0"))`. */
  function StatValue(desc: Json, stats: Json, statType: string): Result<int> {
    var keys :- Iter(desc);
    var values :- Iter(stats);
    var m :- StrDict(Zip(keys, values));
    ToInt(if statType in m then m[statType] else JStr("0"))
  }

  /** The graded statistic of the matching athlete:
      `stats = athlete.get("stats", [])`, then `StatValue`. */
  function AthleteStat(athlete: Json, desc: Json, statType: string): Result<int> {
    var stats :- Get(athlete, "stats", JArr([]));
    StatValue(desc, stats, statType)
  }

  /** The innermost loop of `fetch_player_stat`: `Some(v)` when an athlete
      matched and `v` was returned, `None` when the loop ran out. */
  function FindAthletes(athletes: seq<Json>, desc: Json, player: string, statType: string): Result<Option<int>>
    decreases |athletes|
  {
    if athletes == [] then Ok(None)
    else
      var name :- DisplayName(athletes[0]);
      if name == JStr(player) then
        var v :- AthleteStat(athletes[0], desc, statType);
        Ok(Some(v))
      else FindAthletes(athletes[1..], desc, player, statType)
  }

  function FindGroups(groups: seq<Json>, player: string, statType: string): Result<Option<int>>
    decreases |groups|
  {
    if groups == [] then Ok(None)
    else
      var desc :- Get(groups[0], "descriptions", JArr([]));
      var athletes :- Athletes(groups[0]);
      var hit :- FindAthletes(athletes, desc, player, statType);
      if hit.Some? then Ok(hit) else FindGroups(groups[1..], player, statType)
  }

  function FindTeams(teams: seq<Json>, player: string, statType: string): Result<Option<int>>
    decreases |teams|
  {
    if teams == [] then Ok(None)
    else
      var groups :- Groups(teams[0]);
      var hit :- FindGroups(groups, player, statType);
      if hit.Some? then Ok(hit) else FindTeams(teams[1..], player, statType)
  }

  /** What `fetch_player_stat` returns for a decoded summary document. */
  function PlayerStat(data: Json, player: string, statType: string): Result<int> {
    var teams :- Teams(data);
    var hit :- FindTeams(teams, player, statType);
    Ok(if hit.Some? then hit.value else 0)
  }

  /** The innermost loop of `fetch_player_stat`: returns at the first
      athlete whose display name is the player's. */
  method SearchAthletes(athletes: seq<Json>, desc: Json, player: string, statType: string)
    returns (r: Result<Option<int>>)
    ensures r == FindAthletes(athletes, desc, player, statType)
  {
    var k := 0;
    while k < |athletes|
      invariant k <= |athletes|
      invariant FindAthletes(athletes, desc, player, statType) == FindAthletes(athletes[k..], desc, player, statType)
    {
      assert athletes[k..][0] == athletes[k] && athletes[k..][1..] == athletes[k + 1..];
      var nameR := DisplayName(athletes[k]);
      if nameR.Err? { return Err(nameR.error); }
      if nameR.value == JStr(player) {
        var v :- AthleteStat(athletes[k], desc, statType);
        return Ok(Some(v));
      }
      k := k + 1;
    }
    r := Ok(None);
  }

  /** The loop of `fetch_player_stat` over one team's statistic groups. */
  method SearchGroups(groups: seq<Json>, player: string, statType: string) returns (r: Result<Option<int>>)
    ensures r == FindGroups(groups, player, statType)
  {
    var j := 0;
    while j < |groups|
      invariant j <= |groups|
      invariant FindGroups(groups, player, statType) == FindGroups(groups[j..], player, statType)
    {
      assert groups[j..][0] == groups[j] && groups[j..][1..] == groups[j + 1..];
      var desc :- Get(groups[j], "descriptions", JArr([]));
      var athletes :- Athletes(groups[j]);
      var hit :- SearchAthletes(athletes, desc, player, statType);
      if hit.Some? { return Ok(hit); }
      j := j + 1;
    }
    r := Ok(None);
  }

  /** `fetch_player_stat` after `response.json()`: loops over teams, groups
      and athletes that return at the first athlete with the player's
      display name, and 0 when there is none. */
  method FetchPlayerStat(data: Json, player: string, statType: string) returns (r: Result<int>)
    ensures r == PlayerStat(data, player, statType)
  {
    var teams :- Teams(data);
    var i := 0;
    while i < |teams|
      invariant i <= |teams|
      invariant FindTeams(teams, player, statType) == FindTeams(teams[i..], player, statType)
    {
      assert teams[i..][0] == teams[i] && teams[i..][1..] == teams[i + 1..];
      var groups :- Groups(teams[i]);
      var hit :- SearchGroups(groups, player, statType);
      if hit.Some? { return Ok(hit.value); }
      i := i + 1;
    }
    r := Ok(0);
  }

  // What the traversals promise.

  lemma {:induction false} CollectAthletesExtends(athletes: seq<Json>, acc: seq<Json>, r: seq<Json>)
    requires CollectAthletes(athletes, acc) == Ok(r)
    ensures acc <= r
    decreases |athletes|
  {
    if athletes != [] {
      CollectAthletesExtends(athletes[1..], acc + [DisplayName(athletes[0]).value], r);
    }
  }

  lemma {:induction false} CollectGroupsExtends(groups: seq<Json>, acc: seq<Json>, r: seq<Json>)
    requires CollectGroups(groups, acc) == Ok(r)
    ensures acc <= r
    decreases |groups|
  {
    if groups != [] {
      var athletes := Athletes(groups[0]).value;
      var acc' := CollectAthletes(athletes, acc).value;
      CollectAthletesExtends(athletes, acc, acc');
      CollectGroupsExtends(groups[1..], acc', r);
    }
  }

  lemma {:induction false} CollectTeamsExtends(teams: seq<Json>, acc: seq<Json>, r: seq<Json>)
    requires CollectTeams(teams, acc) == Ok(r)
    ensures acc <= r
    decreases |teams|
  {
    if teams != [] {
      var groups := Groups(teams[0]).value;
      var acc' := CollectGroups(groups, acc).value;
      CollectGroupsExtends(groups, acc, acc');
      CollectTeamsExtends(teams[1..], acc', r);
    }
  }

  // Where a display name occurs, independently of the order and the
  // accumulator of the loops.

  /** `x` is the display name of some athlete of `athletes`. */
  predicate NamedInAthletes(athletes: seq<Json>, x: Json)
    decreases |athletes|
  {
    athletes != [] && (DisplayName(athletes[0]) == Ok(x) || NamedInAthletes(athletes[1..], x))
  }

  /** `x` is the display name of some athlete of some group of `groups`. */
  predicate NamedInGroups(groups: seq<Json>, x: Json)
    decreases |groups|
  {
    groups != [] &&
    ((Athletes(groups[0]).Ok? && NamedInAthletes(Athletes(groups[0]).value, x)) || NamedInGroups(groups[1..], x))
  }

  /** `x` is the display name of some athlete of some group of some team
      of `teams`. */
  predicate NamedInTeams(teams: seq<Json>, x: Json)
    decreases |teams|
  {
    teams != [] &&
    ((Groups(teams[0]).Ok? && NamedInGroups(Groups(teams[0]).value, x)) || NamedInTeams(teams[1..], x))
  }

  lemma {:induction false} CollectAthletesMembers(athletes: seq<Json>, acc: seq<Json>, r: seq<Json>, x: Json)
    requires CollectAthletes(athletes, acc) == Ok(r)
    ensures x in r <==> x in acc || NamedInAthletes(athletes, x)
    decreases |athletes|
  {
    if athletes != [] {
      var name := DisplayName(athletes[0]).value;
      CollectAthletesMembers(athletes[1..], acc + [name], r, x);
    }
  }

  lemma {:induction false} CollectGroupsMembers(groups: seq<Json>, acc: seq<Json>, r: seq<Json>, x: Json)
    requires CollectGroups(groups, acc) == Ok(r)
    ensures x in r <==> x in acc || NamedInGroups(groups, x)
    decreases |groups|
  {
    if groups != [] {
      var athletes := Athletes(groups[0]).value;
      var acc' := CollectAthletes(athletes, acc).value;
      CollectAthletesMembers(athletes, acc, acc', x);
      CollectGroupsMembers(groups[1..], acc', r, x);
    }
  }

  lemma {:induction false} CollectTeamsMembers(teams: seq<Json>, acc: seq<Json>, r: seq<Json>, x: Json)
    requires CollectTeams(teams, acc) == Ok(r)
    ensures x in r <==> x in acc || NamedInTeams(teams, x)
    decreases |teams|
  {
    if teams != [] {
      var groups := Groups(teams[0]).value;
      var acc' := CollectGroups(groups, acc).value;
      CollectGroupsMembers(groups, acc, acc', x);
      CollectTeamsMembers(teams[1..], acc', r, x);
    }
  }

  /** The names the loops collect are exactly the display names of the
      athletes of the groups of the teams: some team i, group j and athlete
      k carry each of them, and each such display name is collected. */
  lemma DisplayNamesMembership(data: Json, x: Json)
    requires DisplayNames(data).Ok?
    ensures Teams(data).Ok?
    ensures x in DisplayNames(data).value <==> NamedInTeams(Teams(data).value, x)
  {
    CollectTeamsMembers(Teams(data).value, [], DisplayNames(data).value, x);
  }

  /** The players list holds exactly the display names of the athletes of
      the document, whichever team and group they appear under. */
  lemma PlayersAreTheNamedAthletes(data: Json, ps: seq<string>)
    requires Players(data) == Ok(ps)
    ensures Teams(data).Ok?
    ensures forall n :: n in ps <==> NamedInTeams(Teams(data).value, JStr(n))
  {
    PlayersSortedAndComplete(data, ps);
    forall n ensures n in ps <==> NamedInTeams(Teams(data).value, JStr(n)) {
      DisplayNamesMembership(data, JStr(n));
    }
  }

  lemma {:induction false} AbsentFromAthletes(athletes: seq<Json>, acc: seq<Json>, r: seq<Json>,
                                              desc: Json, player: string, statType: string)
    requires CollectAthletes(athletes, acc) == Ok(r) && JStr(player) !in r
    ensures FindAthletes(athletes, desc, player, statType) == Ok(None)
    decreases |athletes|
  {
    if athletes != [] {
      var name := DisplayName(athletes[0]).value;
      CollectAthletesExtends(athletes[1..], acc + [name], r);
      assert name in acc + [name];
      AbsentFromAthletes(athletes[1..], acc + [name], r, desc, player, statType);
    }
  }

  lemma {:induction false} AbsentFromGroups(groups: seq<Json>, acc: seq<Json>, r: seq<Json>,
                                            player: string, statType: string)
    requires CollectGroups(groups, acc) == Ok(r) && JStr(player) !in r
    ensures FindGroups(groups, player, statType) == Ok(None)
    decreases |groups|
  {
    if groups != [] {
      var athletes := Athletes(groups[0]).value;
      var acc' := CollectAthletes(athletes, acc).value;
      CollectGroupsExtends(groups[1..], acc', r);
      var desc := Get(groups[0], "descriptions", JArr([])).value;
      AbsentFromAthletes(athletes, acc, acc', desc, player, statType);
      AbsentFromGroups(groups[1..], acc', r, player, statType);
    }
  }

  lemma {:induction false} AbsentFromTeams(teams: seq<Json>, acc: seq<Json>, r: seq<Json>,
                                           player: string, statType: string)
    requires CollectTeams(teams, acc) == Ok(r) && JStr(player) !in r
    ensures FindTeams(teams, player, statType) == Ok(None)
    decreases |teams|
  {
    if teams != [] {
      var groups := Groups(teams[0]).value;
      var acc' := CollectGroups(groups, acc).value;
      CollectTeamsExtends(teams[1..], acc', r);
      AbsentFromGroups(groups, acc, acc', player, statType);
      AbsentFromTeams(teams[1..], acc', r, player, statType);
    }
  }

  /** A player whose display name is nowhere in the document scores 0, for
      every statistic. */
  lemma PlayerStatZeroWhenAbsent(data: Json, player: string, statType: string)
    requires DisplayNames(data).Ok? && JStr(player) !in DisplayNames(data).value
    ensures PlayerStat(data, player, statType) == Ok(0)
  {
    AbsentFromTeams(Teams(data).value, [], DisplayNames(data).value, player, statType);
  }

  /** The same, stated over the document: a player who is no athlete of
      any group of any team scores 0. */
  lemma PlayerStatZeroWhenUnnamed(data: Json, player: string, statType: string)
    requires DisplayNames(data).Ok?
    requires Teams(data).Ok? && !NamedInTeams(Teams(data).value, JStr(player))
    ensures PlayerStat(data, player, statType) == Ok(0)
  {
    DisplayNamesMembership(data, JStr(player));
    PlayerStatZeroWhenAbsent(data, player, statType);
  }

  lemma {:induction false} PresentInAthletes(athletes: seq<Json>, acc: seq<Json>, r: seq<Json>,
                                             desc: Json, player: string, statType: string)
    requires CollectAthletes(athletes, acc) == Ok(r) && JStr(player) in r && JStr(player) !in acc
    ensures FindAthletes(athletes, desc, player, statType) != Ok(None)
    decreases |athletes|
  {
    if athletes != [] {
      var name := DisplayName(athletes[0]).value;
      if name != JStr(player) {
        assert JStr(player) !in acc + [name];
        PresentInAthletes(athletes[1..], acc + [name], r, desc, player, statType);
      }
    }
  }

  lemma {:induction false} PresentInGroups(groups: seq<Json>, acc: seq<Json>, r: seq<Json>,
                                           player: string, statType: string)
    requires CollectGroups(groups, acc) == Ok(r) && JStr(player) in r && JStr(player) !in acc
    ensures FindGroups(groups, player, statType) != Ok(None)
    decreases |groups|
  {
    if groups != [] {
      var athletes := Athletes(groups[0]).value;
      var acc' := CollectAthletes(athletes, acc).value;
      var desc := Get(groups[0], "descriptions", JArr([])).value;
      if JStr(player) in acc' {
        PresentInAthletes(athletes, acc, acc', desc, player, statType);
      } else {
        AbsentFromAthletes(athletes, acc, acc', desc, player, statType);
        PresentInGroups(groups[1..], acc', r, player, statType);
      }
    }
  }

  lemma {:induction false} PresentInTeams(teams: seq<Json>, acc: seq<Json>, r: seq<Json>,
                                          player: string, statType: string)
    requires CollectTeams(teams, acc) == Ok(r) && JStr(player) in r && JStr(player) !in acc
    ensures FindTeams(teams, player, statType) != Ok(None)
    decreases |teams|
  {
    if teams != [] {
      var groups := Groups(teams[0]).value;
      var acc' := CollectGroups(groups, acc).value;
      if JStr(player) in acc' {
        PresentInGroups(groups, acc, acc', player, statType);
      } else {
        AbsentFromGroups(groups, acc, acc', player, statType);
        PresentInTeams(teams[1..], acc', r, player, statType);
      }
    }
  }

  /** Conversely, once the player's name is in the document the search
      stops at an athlete: its result is that athlete's statistic or the
      failure reading it, never the "not found" default. */
  lemma PlayerStatFoundWhenPresent(data: Json, player: string, statType: string)
    requires DisplayNames(data).Ok? && JStr(player) in DisplayNames(data).value
    ensures Teams(data).Ok? && FindTeams(Teams(data).value, player, statType) != Ok(None)
  {
    PresentInTeams(Teams(data).value, [], DisplayNames(data).value, player, statType);
  }

  /** The search result of a sequence split in two: the second part is
      consulted only when the first ran out without a match or a failure. */
  function Continue(first: Result<Option<int>>, second: Result<Option<int>>): Result<Option<int>> {
    if first == Ok(None) then second else first
  }

  /** The first athlete with the player's name decides; later athletes are
      never looked at. */
  lemma {:induction false} FindAthletesAppend(a: seq<Json>, b: seq<Json>, desc: Json, player: string, statType: string)
    ensures FindAthletes(a + b, desc, player, statType)
         == Continue(FindAthletes(a, desc, player, statType), FindAthletes(b, desc, player, statType))
    decreases |a|
  {
    if a == [] {
      assert a + b == b;
    } else {
      assert (a + b)[0] == a[0] && (a + b)[1..] == a[1..] + b;
      FindAthletesAppend(a[1..], b, desc, player, statType);
    }
  }

  /** The first group holding the player decides, in group order; later
      groups are never looked at, even when they have the statistic. */
  lemma {:induction false} FindGroupsAppend(a: seq<Json>, b: seq<Json>, player: string, statType: string)
    ensures FindGroups(a + b, player, statType)
         == Continue(FindGroups(a, player, statType), FindGroups(b, player, statType))
    decreases |a|
  {
    if a == [] {
      assert a + b == b;
    } else {
      assert (a + b)[0] == a[0] && (a + b)[1..] == a[1..] + b;
      FindGroupsAppend(a[1..], b, player, statType);
    }
  }

  /** Teams are searched in order and the first team holding the player
      decides. */
  lemma {:induction false} FindTeamsAppend(a: seq<Json>, b: seq<Json>, player: string, statType: string)
    ensures FindTeams(a + b, player, statType)
         == Continue(FindTeams(a, player, statType), FindTeams(b, player, statType))
    decreases |a|
  {
    if a == [] {
      assert a + b == b;
    } else {
      assert (a + b)[0] == a[0] && (a + b)[1..] == a[1..] + b;
      FindTeamsAppend(a[1..], b, player, statType);
    }
  }

  /** Within a group, the result is the statistic of the first athlete
      whose display name is the player's, read against that group's
      descriptions. */
  lemma {:induction false} FirstMatchingAthlete(athletes: seq<Json>, desc: Json, player: string, statType: string, k: nat)
    requires k < |athletes|
    requires forall j :: 0 <= j < k ==> DisplayName(athletes[j]).Ok? && DisplayName(athletes[j]).value != JStr(player)
    requires DisplayName(athletes[k]) == Ok(JStr(player))
    ensures FindAthletes(athletes, desc, player, statType)
         == (match AthleteStat(athletes[k], desc, statType)
             case Ok(v) => Ok(Some(v))
             case Err(e) => Err(e))
    decreases k
  {
    if k > 0 {
      assert athletes[1..][k - 1] == athletes[k];
      assert forall j :: 0 <= j < k - 1 ==> athletes[1..][j] == athletes[j + 1];
      assert DisplayName(athletes[0]).value != JStr(player);
      FirstMatchingAthlete(athletes[1..], desc, player, statType, k - 1);
    }
  }

  /** `dict(pairs)` keeps a string key exactly when some pair has it, and
      maps it to the value of the last such pair. */
  lemma {:induction false} StrDictLastWins(pairs: seq<(Json, Json)>, m: map<string, Json>, key: string)
    requires StrDict(pairs) == Ok(m)
    ensures key in m <==> exists i :: 0 <= i < |pairs| && pairs[i].0 == JStr(key)
    ensures key in m ==> exists i :: 0 <= i < |pairs| && pairs[i] == (JStr(key), m[key]) &&
                                     forall j :: i < j < |pairs| ==> pairs[j].0 != JStr(key)
    decreases |pairs|
  {
    if pairs != [] {
      var init := pairs[..|pairs| - 1];
      var m0 := StrDict(init).value;
      StrDictLastWins(init, m0, key);
      var last := |pairs| - 1;
      assert forall i :: 0 <= i < |init| ==> pairs[i] == init[i];
      if pairs[last].0 == JStr(key) {
        assert m == m0[key := pairs[last].1];
        assert pairs[last] == (JStr(key), m[key]);
      } else {
        assert key in m <==> key in m0;
        if key in m {
          assert m[key] == m0[key];
          var i :| 0 <= i < |init| && init[i] == (JStr(key), m0[key]) &&
                   forall j :: i < j < |init| ==> init[j].0 != JStr(key);
          assert pairs[i] == (JStr(key), m[key]);
          assert forall j :: i < j < |pairs| ==> pairs[j].0 != JStr(key);
        }
      }
    }
  }

  /** `dict(pairs)` fails exactly when some key is a list or a dict. */
  lemma {:induction false} StrDictFails(pairs: seq<(Json, Json)>)
    ensures StrDict(pairs).Ok? <==> forall i :: 0 <= i < |pairs| ==> Hashable(pairs[i].0)
    decreases |pairs|
  {
    if pairs != [] {
      var init := pairs[..|pairs| - 1];
      StrDictFails(init);
      assert forall i :: 0 <= i < |init| ==> init[i] == pairs[i];
    }
  }

  lemma ZipPairs(keys: seq<Json>, values: seq<Json>)
    ensures |Zip(keys, values)| == if |keys| < |values| then |keys| else |values|
    ensures forall i :: 0 <= i < |Zip(keys, values)| ==> Zip(keys, values)[i] == (keys[i], values[i])
  {
  }

  /** The statistic of an athlete is read from its group's descriptions and
      its own stats paired by `zip`: a list or dict among the first
      min(|desc|, |stats|) labels raises. */
  lemma StatValueUnhashableLabel(desc: Json, stats: Json, statType: string, keys: seq<Json>, values: seq<Json>, i: nat)
    requires Iter(desc) == Ok(keys) && Iter(stats) == Ok(values)
    requires i < |keys| && i < |values| && !Hashable(keys[i])
    ensures StatValue(desc, stats, statType).Err?
  {
    var pairs := Zip(keys, values);
    ZipPairs(keys, values);
    StrDictFails(pairs);
    assert !Hashable(pairs[i].0);
  }

  /** A label that is not among the first min(|desc|, |stats|) descriptions
      reads as "0", i.e. 0. */
  lemma StatValueMissingLabel(desc: Json, stats: Json, statType: string, keys: seq<Json>, values: seq<Json>)
    requires Iter(desc) == Ok(keys) && Iter(stats) == Ok(values)
    requires forall i :: 0 <= i < |keys| && i < |values| ==> Hashable(keys[i]) && keys[i] != JStr(statType)
    ensures StatValue(desc, stats, statType) == Ok(0)
  {
    var pairs := Zip(keys, values);
    ZipPairs(keys, values);
    StrDictFails(pairs);
    var m := StrDict(pairs).value;
    StrDictLastWins(pairs, m, statType);
  }

  /** A label given more than once takes the value paired with its last
      occurrence among the first min(|desc|, |stats|) descriptions. */
  lemma StatValueLastLabel(desc: Json, stats: Json, statType: string, keys: seq<Json>, values: seq<Json>, i: nat)
    requires Iter(desc) == Ok(keys) && Iter(stats) == Ok(values)
    requires i < |keys| && i < |values| && keys[i] == JStr(statType)
    requires forall j :: 0 <= j < |keys| && j < |values| ==> Hashable(keys[j])
    requires forall j :: i < j < |keys| && j < |values| ==> keys[j] != JStr(statType)
    ensures StatValue(desc, stats, statType) == ToInt(values[i])
  {
    var pairs := Zip(keys, values);
    ZipPairs(keys, values);
    StrDictFails(pairs);
    var m := StrDict(pairs).value;
    StrDictLastWins(pairs, m, statType);
    assert pairs[i].0 == JStr(statType);
    var w :| 0 <= w < |pairs| && pairs[w] == (JStr(statType), m[statType]) &&
             forall j :: w < j < |pairs| ==> pairs[j].0 != JStr(statType);
    assert w == i;
    assert m[statType] == values[i];
  }

  // A worked document: one team, one batting group with labels AB, H and
  // RBI, and one athlete with stats "4", "2", "1".

  const ExampleLabels := JArr([JStr("AB"), JStr("H"), JStr("RBI")])
  const ExampleStats := JArr([JStr("4"), JStr("2"), JStr("1")])
  const ExampleAthlete := JObj([("athlete", JObj([("displayName", JStr("Aaron Judge"))])), ("stats", ExampleStats)])
  const ExampleGroup := JObj([("descriptions", ExampleLabels), ("athletes", JArr([ExampleAthlete]))])
  const ExampleTeam := JObj([("statistics", JArr([ExampleGroup]))])
  const ExampleSummary := JObj([("boxscore", JObj([("players", JArr([ExampleTeam]))]))])

  /** Labels are matched exactly: "H" reads 2, and "Hits" is no label and
      falls back to 0. */
  lemma ExampleStatValues()
    ensures StatValue(ExampleLabels, ExampleStats, "H") == Ok(2)
    ensures StatValue(ExampleLabels, ExampleStats, "Hits") == Ok(0)
  {
    ExampleDict();
    ExampleParse();
    var m := map["AB" := JStr("4"), "H" := JStr("2"), "RBI" := JStr("1")];
    assert Iter(ExampleLabels) == Ok(ExampleLabels.items) && Iter(ExampleStats) == Ok(ExampleStats.items);
    assert "H" in m && m["H"] == JStr("2") && "Hits" !in m;
    assert ToInt(JStr("2")) == Ok(2) && ToInt(JStr("0")) == Ok(0);
  }

  lemma ExampleParse()
    ensures ParseInt("2") == Some(2) && ParseInt("0") == Some(0)
  {
    assert "2"[1..] == [] && "0"[1..] == [];
  }

  lemma ExampleDict()
    ensures StrDict(Zip(ExampleLabels.items, ExampleStats.items))
         == Ok(map["AB" := JStr("4"), "H" := JStr("2"), "RBI" := JStr("1")])
  {
    var pairs := [(JStr("AB"), JStr("4")), (JStr("H"), JStr("2")), (JStr("RBI"), JStr("1"))];
    assert Zip(ExampleLabels.items, ExampleStats.items) == pairs;
    assert pairs[..1] == [pairs[0]] && pairs[..2] == [pairs[0], pairs[1]];
    assert StrDict(pairs[..1]) == Ok(map["AB" := JStr("4")]);
    assert StrDict(pairs[..2]) == Ok(map["AB" := JStr("4"), "H" := JStr("2")]);
  }

  lemma ExampleName()
    ensures DisplayName(ExampleAthlete) == Ok(JStr("Aaron Judge"))
  {
    var entries := ExampleAthlete.entries;
    assert entries[..1] == [entries[0]];
    assert Lookup(entries, "athlete") == Some(JObj([("displayName", JStr("Aaron Judge"))]));
  }

  lemma ExampleAthleteSearch()
    ensures FindAthletes([ExampleAthlete], ExampleLabels, "Aaron Judge", "H") == Ok(Some(2))
    ensures FindAthletes([ExampleAthlete], ExampleLabels, "Aaron Judge", "Hits") == Ok(Some(0))
    ensures FindAthletes([ExampleAthlete], ExampleLabels, "Babe Ruth", "H") == Ok(None)
  {
    ExampleStatValues();
    ExampleName();
    assert Get(ExampleAthlete, "stats", JArr([])) == Ok(ExampleStats);
  }

  lemma ExampleGroupSearch()
    ensures FindGroups([ExampleGroup], "Aaron Judge", "H") == Ok(Some(2))
    ensures FindGroups([ExampleGroup], "Aaron Judge", "Hits") == Ok(Some(0))
    ensures FindGroups([ExampleGroup], "Babe Ruth", "H") == Ok(None)
  {
    ExampleAthleteSearch();
    var entries := ExampleGroup.entries;
    assert entries[..1] == [entries[0]];
    assert Athletes(ExampleGroup) == Ok([ExampleAthlete]);
    assert Get(ExampleGroup, "descriptions", JArr([])) == Ok(ExampleLabels);
  }

  /** The statistic of the one athlete of the worked document, and 0 for a
      player who is not in it. */
  lemma ExamplePlayerStat()
    ensures PlayerStat(ExampleSummary, "Aaron Judge", "H") == Ok(2)
    ensures PlayerStat(ExampleSummary, "Aaron Judge", "Hits") == Ok(0)
    ensures PlayerStat(ExampleSummary, "Babe Ruth", "H") == Ok(0)
  {
    ExampleTeamSearch();
    ExampleTeams();
  }

  lemma ExampleTeams()
    ensures Teams(ExampleSummary) == Ok([ExampleTeam])
  {
    var box := JObj([("players", JArr([ExampleTeam]))]);
    assert Get(ExampleSummary, "boxscore", JObj([])) == Ok(box);
    assert Get(box, "players", JArr([])) == Ok(JArr([ExampleTeam]));
  }

  lemma ExampleTeamSearch()
    ensures FindTeams([ExampleTeam], "Aaron Judge", "H") == Ok(Some(2))
    ensures FindTeams([ExampleTeam], "Aaron Judge", "Hits") == Ok(Some(0))
    ensures FindTeams([ExampleTeam], "Babe Ruth", "H") == Ok(None)
  {
    ExampleGroupSearch();
    assert Groups(ExampleTeam) == Ok([ExampleGroup]);
  }
}
