/** One match record and what the data layer reads from it (data.py, classes EmptyMatch and
    Match). The record's fields are taken as already converted to integers. */
module Matches {
  import opened Common
  import opened Numeric

  /** One participant's row of the match's player-statistics list. */
  datatype PlayerRow = PlayerRow(
    accountId: int, team: int, heroId: int, heroKills: int, deaths: int, heroAssists: int,
    wins: int, losses: int, gold: int, wards: int, teamCreepKills: int,
    neutralCreepKills: int, denies: int, level: int, goldLost2Death: int)

  /** The fields playerstat is asked for. */
  datatype Stat =
    | HeroId | HeroKills | Deaths | HeroAssists | Wins | Losses | Gold | Wards
    | TeamCreepKills | NeutralCreepKills | Denies | Level | GoldLost2Death

  function Field(row: PlayerRow, stat: Stat): int
  {
    match stat
    case HeroId => row.heroId
    case HeroKills => row.heroKills
    case Deaths => row.deaths
    case HeroAssists => row.heroAssists
    case Wins => row.wins
    case Losses => row.losses
    case Gold => row.gold
    case Wards => row.wards
    case TeamCreepKills => row.teamCreepKills
    case NeutralCreepKills => row.neutralCreepKills
    case Denies => row.denies
    case Level => row.level
    case GoldLost2Death => row.goldLost2Death
  }

  /** The first section of a record: the match id and its length in seconds. */
  datatype Summary = Summary(matchId: int, timePlayed: int)

  /** The game-mode flags of the second section. */
  datatype Options = Options(ap: int, ar: int)

  /** What a match is built from: a falsy value, or a record with its summary, its options
      and its player rows (the item section is not read by the data layer). */
  datatype RawMatch = NoData | Record(summary: Summary, options: Options, roster: seq<PlayerRow>)

  /** The two classes: the inert sentinel and a match over its data. */
  datatype AnyMatch = EmptyMatch | Match(data: RawMatch)

  /** A Match over falsy data can only answer gametype; everything else indexes the data. */
  predicate Readable(m: AnyMatch) { !(m.Match? && m.data.NoData?) }

  /** Match.creatematch: a Match for a record, the sentinel otherwise. */
  function CreateMatch(data: RawMatch): (m: AnyMatch)
    ensures m.Match? <==> data.Record?
    ensures m.Match? ==> m.data == data
    ensures Readable(m)
  {
    if data.Record? then Match(data) else EmptyMatch
  }

  /** gametype(): the all-pick flag wins over the all-random flag; single draft otherwise. */
  function GameType(m: AnyMatch): (gt: string)
    ensures m.EmptyMatch? ==> gt == ""
    ensures m.Match? && m.data.NoData? ==> gt == "NA"
    ensures m.Match? && m.data.Record? ==>
      var o := m.data.options;
      && (gt == "AP" <==> o.ap > 0)
      && (gt == "AR" <==> o.ap <= 0 && o.ar > 0)
      && (gt == "SD" <==> o.ap <= 0 && o.ar <= 0)
  {
    match m
    case EmptyMatch => ""
    case Match(NoData) => "NA"
    case Match(Record(_, options, _)) =>
      if options.ap > 0 then "AP" else if options.ar > 0 then "AR" else "SD"
  }

  /** The team number a team argument selects: none for no name, 1 for "legion", 2 otherwise. */
  function TeamNumber(team: Option<string>): (t: Option<int>)
    ensures t.None? <==> team.None? || team.value == ""
    ensures t == Some(1) <==> team == Some("legion")
    ensures t.Some? ==> t.value == 1 || t.value == 2
  {
    if team.None? || team.value == "" then None
    else if team.value == "legion" then Some(1)
    else Some(2)
  }

  predicate OnTeam(row: PlayerRow, team: Option<int>)
  {
    team.None? || row.team == team.value
  }

  /** The rows of a roster keyed by account id, only those of the team when one is given;
      a later row replaces an earlier one with the same id. */
  function Roster(rows: seq<PlayerRow>, team: Option<int>): (m: map<int, PlayerRow>)
    ensures forall id :: id in m ==> m[id].accountId == id && OnTeam(m[id], team) && m[id] in rows
    ensures forall i :: 0 <= i < |rows| && OnTeam(rows[i], team) ==> rows[i].accountId in m
  {
    if rows == [] then map[]
    else
      var m := Roster(rows[..|rows| - 1], team);
      var row := rows[|rows| - 1];
      assert forall i :: 0 <= i < |rows| - 1 ==> rows[..|rows| - 1][i] == rows[i];
      if OnTeam(row, team) then m[row.accountId := row] else m
  }

  /** Row i is the team's last row of its account. */
  predicate LastOnTeam(rows: seq<PlayerRow>, team: Option<int>, i: nat)
    requires i < |rows|
  {
    forall j :: i < j < |rows| && OnTeam(rows[j], team) ==> rows[j].accountId != rows[i].accountId
  }

  /** A row stays its account's last when the row added after it is of another account or
      off the team. */
  lemma LastOnTeamExtend(rows: seq<PlayerRow>, team: Option<int>, i: nat)
    requires i < |rows| - 1 && LastOnTeam(rows[..|rows| - 1], team, i)
    requires !OnTeam(rows[|rows| - 1], team) || rows[|rows| - 1].accountId != rows[i].accountId
    ensures LastOnTeam(rows, team, i)
  {
    assert forall j :: i <= j < |rows| - 1 ==> rows[..|rows| - 1][j] == rows[j];
  }

  /** The row a roster keeps for an account is the team's last row of it, as a dict built
      over the rows keeps the last value stored under a key. */
  lemma {:induction false} RosterKeepsLast(rows: seq<PlayerRow>, team: Option<int>, id: int)
    requires id in Roster(rows, team)
    ensures exists i :: 0 <= i < |rows| && rows[i] == Roster(rows, team)[id] && LastOnTeam(rows, team, i)
  {
    var init := rows[..|rows| - 1];
    var row := rows[|rows| - 1];
    if OnTeam(row, team) && row.accountId == id {
      assert LastOnTeam(rows, team, |rows| - 1);
    } else {
      var before := Roster(init, team);
      assert id in before && Roster(rows, team)[id] == before[id];
      RosterKeepsLast(init, team, id);
      var i :| 0 <= i < |init| && init[i] == before[id] && LastOnTeam(init, team, i);
      LastOnTeamExtend(rows, team, i);
    }
  }

  /** players(team): the sentinel has none; a match maps the account id of each row of the
      selected team (every row without a team name) to the last such row. */
  function Players(m: AnyMatch, team: Option<string>): (r: map<int, PlayerRow>)
    requires Readable(m)
    ensures m.EmptyMatch? ==> r == map[]
    ensures m.Match? ==>
      var rows := m.data.roster;
      && (forall i :: 0 <= i < |rows| && OnTeam(rows[i], TeamNumber(team)) ==> rows[i].accountId in r)
      && (forall id :: id in r ==> exists i :: && 0 <= i < |rows| && rows[i] == r[id] && rows[i].accountId == id
                                              && OnTeam(rows[i], TeamNumber(team))
                                              && LastOnTeam(rows, TeamNumber(team), i))
  {
    if m.EmptyMatch? then map[]
    else
      var r := Roster(m.data.roster, TeamNumber(team));
      assert forall id :: id in r ==> exists i :: && 0 <= i < |m.data.roster| && m.data.roster[i] == r[id]
                                                 && LastOnTeam(m.data.roster, TeamNumber(team), i) by {
        forall id | id in r {
          RosterKeepsLast(m.data.roster, TeamNumber(team), id);
        }
      }
      r
  }

  predicate UniqueIds(rows: seq<PlayerRow>)
  {
    forall i, j :: 0 <= i < j < |rows| ==> rows[i].accountId != rows[j].accountId
  }

  /** With one row per account, the "legion" side (team 1) and any other named side (team 2)
      are disjoint parts of the whole roster, and cover it when every row is on team 1 or 2. */
  lemma TeamsSplit(m: AnyMatch, other: string)
    requires m.Match? && m.data.Record? && UniqueIds(m.data.roster)
    requires other != "" && other != "legion"
    ensures var legion, opponents, all :=
              Players(m, Some("legion")), Players(m, Some(other)), Players(m, None);
      && legion.Keys !! opponents.Keys
      && (forall id :: id in legion ==> id in all && all[id] == legion[id] && legion[id].team == 1)
      && (forall id :: id in opponents ==> id in all && all[id] == opponents[id] && opponents[id].team == 2)
      && ((forall i :: 0 <= i < |m.data.roster| ==> m.data.roster[i].team == 1 || m.data.roster[i].team == 2)
          ==> all.Keys == legion.Keys + opponents.Keys)
  {
    var rows := m.data.roster;
    assert TeamNumber(Some("legion")) == Some(1) && TeamNumber(Some(other)) == Some(2);
    SideOfRoster(rows, 1);
    SideOfRoster(rows, 2);
    SidesDisjoint(rows);
    if forall i :: 0 <= i < |rows| ==> rows[i].team == 1 || rows[i].team == 2 {
      SidesCover(rows);
    }
  }

  /** Under unique ids, a side is the part of the whole roster on that team. */
  lemma SideOfRoster(rows: seq<PlayerRow>, team: int)
    requires UniqueIds(rows)
    ensures var side, all := Roster(rows, Some(team)), Roster(rows, None);
      forall id :: id in side ==> id in all && all[id] == side[id] && side[id].team == team
  {
    var side, all := Roster(rows, Some(team)), Roster(rows, None);
    forall id | id in side
      ensures id in all && all[id] == side[id]
    {
      var i :| 0 <= i < |rows| && rows[i] == side[id];
      assert OnTeam(rows[i], None);
      var j :| 0 <= j < |rows| && rows[j] == all[id];
      assert i == j;
    }
  }

  lemma SidesDisjoint(rows: seq<PlayerRow>)
    requires UniqueIds(rows)
    ensures Roster(rows, Some(1)).Keys !! Roster(rows, Some(2)).Keys
  {
    var legion, opponents := Roster(rows, Some(1)), Roster(rows, Some(2));
    forall id | id in legion && id in opponents
      ensures false
    {
      var i :| 0 <= i < |rows| && rows[i] == legion[id];
    }
  }

  lemma SidesCover(rows: seq<PlayerRow>)
    requires forall i :: 0 <= i < |rows| ==> rows[i].team == 1 || rows[i].team == 2
    ensures Roster(rows, None).Keys == Roster(rows, Some(1)).Keys + Roster(rows, Some(2)).Keys
  {
    var legion, opponents, all := Roster(rows, Some(1)), Roster(rows, Some(2)), Roster(rows, None);
    forall id | id in all
      ensures id in legion || id in opponents
    {
      var i :| 0 <= i < |rows| && rows[i] == all[id];
      assert OnTeam(rows[i], Some(1)) || OnTeam(rows[i], Some(2));
    }
    forall id | id in legion
      ensures id in all
    {
      var i :| 0 <= i < |rows| && rows[i] == legion[id];
      assert OnTeam(rows[i], None);
    }
    forall id | id in opponents
      ensures id in all
    {
      var i :| 0 <= i < |rows| && rows[i] == opponents[id];
      assert OnTeam(rows[i], None);
    }
  }

  /** The position of the first row of the account, if any. */
  function FirstIndex(rows: seq<PlayerRow>, id: int): (r: Option<nat>)
    ensures r.None? <==> forall i :: 0 <= i < |rows| ==> rows[i].accountId != id
    ensures r.Some? ==> && r.value < |rows| && rows[r.value].accountId == id
                        && forall j :: 0 <= j < r.value ==> rows[j].accountId != id
  {
    if rows == [] then None
    else if rows[0].accountId == id then Some(0)
    else match FirstIndex(rows[1..], id)
      case None => None
      case Some(i) => Some(i + 1)
  }

  /** The row playermatchstats finds for an account. */
  function RowFor(m: AnyMatch, id: int): (r: Option<PlayerRow>)
    requires Readable(m)
    ensures r.Some? <==> m.Match? && FirstIndex(m.data.roster, id).Some?
    ensures r.Some? ==> r.value.accountId == id && r.value == m.data.roster[FirstIndex(m.data.roster, id).value]
  {
    if m.EmptyMatch? then None
    else match FirstIndex(m.data.roster, id)
      case None => None
      case Some(i) => Some(m.data.roster[i])
  }

  /** playermatchstats(id): scans the rows in order and returns the first of the account. */
  method PlayerMatchStats(m: AnyMatch, id: int) returns (stats: Option<PlayerRow>)
    requires Readable(m)
    ensures stats == RowFor(m, id)
  {
    if m.EmptyMatch? {
      return None;
    }
    var rows := m.data.roster;
    var i := 0;
    while i < |rows|
      invariant 0 <= i <= |rows|
      invariant forall j :: 0 <= j < i ==> rows[j].accountId != id
    {
      if rows[i].accountId == id {
        return Some(rows[i]);
      }
      i := i + 1;
    }
    return None;
  }

  /** playerstat(id, stat): the field of the account's row; 0 from the sentinel; on a match
      without the account the lookup gives None and indexing it raises TypeError. */
  function PlayerStat(m: AnyMatch, id: int, stat: Stat): (r: Result<int>)
    requires Readable(m)
    ensures m.EmptyMatch? ==> r == Ok(0)
    ensures m.Match? ==> (r.Err? <==> forall i :: 0 <= i < |m.data.roster| ==> m.data.roster[i].accountId != id)
    ensures m.Match? && FirstIndex(m.data.roster, id).None? ==> r == Err(TypeError)
    ensures m.Match? && FirstIndex(m.data.roster, id).Some? ==>
              r == Ok(Field(m.data.roster[FirstIndex(m.data.roster, id).value], stat))
    ensures m.Match? && r.Ok? ==> exists i :: && 0 <= i < |m.data.roster| && m.data.roster[i].accountId == id
                                              && r.value == Field(m.data.roster[i], stat)
  {
    match RowFor(m, id)
    case None => if m.EmptyMatch? then Ok(0) else Err(TypeError)
    case Some(row) => Ok(Field(row, stat))
  }

  /** mid(): the summary's match id; 0 from the sentinel. */
  function Mid(m: AnyMatch): (r: int)
    requires Readable(m)
    ensures m.EmptyMatch? ==> r == 0
    ensures m.Match? ==> r == m.data.summary.matchId
  {
    if m.EmptyMatch? then 0 else m.data.summary.matchId
  }

  /** gameduration(), in whole seconds: the summary's playing time; 0 from the sentinel. */
  function GameDuration(m: AnyMatch): (r: int)
    requires Readable(m)
    ensures m.EmptyMatch? ==> r == 0
    ensures m.Match? ==> r == m.data.summary.timePlayed
  {
    if m.EmptyMatch? then 0 else m.data.summary.timePlayed
  }

  /** The sentinel answers every question with an inert default. */
  lemma EmptyMatchInert(id: int, team: Option<string>, stat: Stat)
    ensures GameType(EmptyMatch) == ""
    ensures Players(EmptyMatch, team) == map[]
    ensures RowFor(EmptyMatch, id) == None
    ensures PlayerStat(EmptyMatch, id, stat) == Ok(0)
    ensures Mid(EmptyMatch) == 0 && GameDuration(EmptyMatch) == 0
  {
  }

  /** gold / (seconds / 60) truncated toward zero: gold per minute of play. */
  function GoldPerMinute(gold: int, seconds: int): (r: Result<int>)
    ensures seconds == 0 <==> r == Err(ZeroDivisionError)
    ensures r.Ok? ==> Abs(r.value) * Abs(seconds) <= Abs(60 * gold) < (Abs(r.value) + 1) * Abs(seconds)
    ensures r.Ok? && gold >= 0 && seconds > 0 ==> r.value >= 0
    ensures r.Ok? ==> r.value == 0 || ((r.value > 0) <==> ((gold > 0) == (seconds > 0)))
  {
    if seconds == 0 then Err(ZeroDivisionError) else Ok(TruncDiv(60 * gold, seconds))
  }

  /** The numbers matchesstr prints for one account of a match, without their layout:
      gd is the duration in seconds, wl "W" or "L", ck the creep kills. */
  datatype MatchLine = MatchLine(
    mid: int, gt: string, gd: int, k: int, d: int, a: int, heroId: int,
    wl: string, wa: int, ck: int, cd: int, gpm: int)

  /** The derived numbers of one account in a match: a win when its win counter is positive,
      creep kills as team plus neutral creeps, gold per minute of the match's duration.
      The row lookup fails first (TypeError), the division by a zero duration after it. */
  function MatchLineOf(data: RawMatch, id: int): (r: Result<MatchLine>)
    requires data.Record?
    ensures r.Err? <==> FirstIndex(data.roster, id).None? || data.summary.timePlayed == 0
    ensures FirstIndex(data.roster, id).None? ==> r == Err(TypeError)
    ensures FirstIndex(data.roster, id).Some? && data.summary.timePlayed == 0 ==> r == Err(ZeroDivisionError)
    ensures r.Ok? ==>
      var row := data.roster[FirstIndex(data.roster, id).value];
      var line := r.value;
      && line.mid == data.summary.matchId && line.gd == data.summary.timePlayed
      && line.gt == GameType(Match(data))
      && line.k == row.heroKills && line.d == row.deaths && line.a == row.heroAssists
      && line.heroId == row.heroId && line.wa == row.wards && line.cd == row.denies
      && (line.wl == "W" <==> row.wins > 0) && (line.wl == "L" <==> row.wins <= 0)
      && line.ck == row.teamCreepKills + row.neutralCreepKills
      && GoldPerMinute(row.gold, data.summary.timePlayed) == Ok(line.gpm)
  {
    var m := Match(data);
    match RowFor(m, id)
    case None => Err(TypeError)
    case Some(row) =>
      match GoldPerMinute(row.gold, data.summary.timePlayed)
      case Err(e) => Err(e)
      case Ok(gpm) =>
        Ok(MatchLine(data.summary.matchId, GameType(m), data.summary.timePlayed,
                     row.heroKills, row.deaths, row.heroAssists, row.heroId,
                     if row.wins > 0 then "W" else "L", row.wards,
                     row.teamCreepKills + row.neutralCreepKills, row.denies, gpm))
  }
}
