/** The data layer (provider.py): the remote statistics service behind a retrying fetch, two
    SQLite tables resolving nicknames and hero names, and a cache directory holding match
    histories (kept five minutes) and match records (kept for good).

    The service is a tape of the answers it will give, one per request; the cache directory a
    map from a path below it to the file's content and creation time; each table a map keyed
    by its primary key; the clock the current time in whole seconds. */
module Provider {
  import opened Common
  import opened Json
  import opened Strings

  /** Names shown instead of the service's for a few heroes. */
  const HeroNicks: map<int, string> := map[6 := "Devo", 9 := "Elec", 161 := "Gladi", 185 := "Sil", 192 := "RA"]

  /** How long, in seconds, a cached match history stays fresh. */
  const CacheTime: int := 60 * 5

  const MatchCacheDir: string := "match"
  const PlayerCacheDir: string := "player"

  /** The service path selecting a player: by account id when the text is an integer as int()
      reads it, by nickname otherwise. */
  function NickOrAccountId(id: string): (path: string)
    ensures ParseInt(id).Some? ==> path == "/accountid/" + id
    ensures ParseInt(id).None? ==> path == "/nickname/" + id
  {
    if ParseInt(id).Some? then "/accountid/" + id else "/nickname/" + id
  }

  /** The decimal text of an account id selects by account id. */
  lemma AccountIdPath(n: int)
    ensures NickOrAccountId(IntToString(n)) == "/accountid/" + IntToString(n)
  {
    ParseIntToString(n);
  }

  /** A text holding a character that is neither white space, a digit, a sign nor an
      underscore selects by nickname. */
  lemma NicknamePath(id: string, k: nat)
    requires k < |id| && !IsSpace(id[k]) && !IsNumeral(id[k])
    ensures NickOrAccountId(id) == "/nickname/" + id
  {
    NotAnInteger(id, k);
  }

  /** One answer of the service: a JSON body, or an HTTP error status. */
  datatype Response = Body(json: Json) | Status(code: int)

  /** What fetch makes of the answers: its result and how many answers it used up. */
  datatype Served = Served(result: Result<Json>, used: nat)

  /** fetch against a tape of answers: each 429 is retried with the next answer, any other
      error status raises, the first body is the result. A tape used up without an answer
      stands for a service that keeps answering 429. */
  function Serve(tape: seq<Response>): (s: Served)
    ensures s.used <= |tape|
    ensures s.result == Err(NoResponse) <==> s.used == |tape| && forall i :: 0 <= i < |tape| ==> tape[i] == Status(429)
  {
    if tape == [] then Served(Err(NoResponse), 0)
    else
      match tape[0]
      case Body(j) => Served(Ok(j), 1)
      case Status(code) =>
        if code == 429 then
          var rest := Serve(tape[1..]);
          assert forall i :: 1 <= i < |tape| ==> tape[i] == tape[1..][i - 1];
          Served(rest.result, rest.used + 1)
        else Served(Err(HttpError(code)), 1)
  }

  /** The result an answer stands for once it is not a 429. */
  function Answer(resp: Response): Result<Json>
  {
    match resp
    case Body(j) => Ok(j)
    case Status(code) => Err(HttpError(code))
  }

  /** fetch's result is the first answer that is not a 429, every answer before it a 429. */
  lemma {:induction false} ServeFirstAnswer(tape: seq<Response>, k: nat)
    requires k < |tape| && tape[k] != Status(429)
    requires forall i :: 0 <= i < k ==> tape[i] == Status(429)
    ensures Serve(tape) == Served(Answer(tape[k]), k + 1)
  {
    if k > 0 {
      assert forall i :: 0 <= i < k - 1 ==> tape[1..][i] == tape[i + 1];
      ServeFirstAnswer(tape[1..], k - 1);
    }
  }

  /** Every answer fetch used up before its last one was a 429. */
  lemma {:induction false} ServeSkipsOnly429(tape: seq<Response>)
    ensures forall i :: 0 <= i < Serve(tape).used - 1 ==> tape[i] == Status(429)
    ensures Serve(tape).result != Err(NoResponse) ==>
              Serve(tape).used > 0 && tape[Serve(tape).used - 1] != Status(429)
              && Serve(tape).result == Answer(tape[Serve(tape).used - 1])
  {
    if tape != [] && tape[0] == Status(429) {
      ServeSkipsOnly429(tape[1..]);
      assert forall i :: 1 <= i < |tape| ==> tape[i] == tape[1..][i - 1];
    }
  }

  /** fetch with the token it was built with: without a token the URL cannot be built and
      nothing is requested. */
  function Attempt(token: Option<string>, tape: seq<Response>): (s: Served)
    ensures token.None? ==> s == Served(Err(TypeError), 0)
    ensures token.Some? ==> s == Serve(tape)
  {
    if token.None? then Served(Err(TypeError), 0) else Serve(tape)
  }

  function Repeat(x: string, n: nat): (r: seq<string>)
    ensures |r| == n && forall i :: 0 <= i < n ==> r[i] == x
  {
    if n == 0 then [] else [x] + Repeat(x, n - 1)
  }

  /** The file of a player's match history of one kind, in the player directory, its name
      the account id's decimal text followed by the kind. */
  function HistoryPath(accountId: int, statstype: string): (p: seq<string>)
    ensures |p| == 2 && p[0] == PlayerCacheDir
    ensures var name := IntToString(accountId);
            |name| < |p[1]| && p[1][..|name|] == name && p[1][|name|..] == HistorySuffix(statstype)
  {
    [PlayerCacheDir, IntToString(accountId) + HistorySuffix(statstype)]
  }

  function HistorySuffix(statstype: string): string
  {
    "_matches_" + statstype + ".gz"
  }

  lemma SuffixCancel(x: string, y: string, suffix: string)
    requires x + suffix == y + suffix
    ensures x == y
  {
    assert x == (x + suffix)[..|x|];
    assert y == (y + suffix)[..|y|];
  }

  /** The bucket of a match record: the first four characters of its id. */
  function Bucket(matchId: int): (b: string)
    ensures |b| <= 4 && |b| <= |IntToString(matchId)| && b == IntToString(matchId)[..|b|]
    ensures |IntToString(matchId)| >= 4 ==> |b| == 4
  {
    var s := IntToString(matchId);
    if |s| <= 4 then s else s[..4]
  }

  /** The file of a match record: in the match directory, under its bucket, named by its id. */
  function MatchPath(matchId: int): (p: seq<string>)
    ensures |p| == 3 && p[0] == MatchCacheDir && p[1] == Bucket(matchId)
    ensures p[2] == IntToString(matchId) + ".gz"
  {
    [MatchCacheDir, Bucket(matchId), IntToString(matchId) + ".gz"]
  }

  /** Different matches never share a file, and a file's bucket begins its name. */
  lemma MatchPathInjective(m: int, n: int)
    requires MatchPath(m) == MatchPath(n)
    ensures m == n
    ensures MatchPath(m)[2][..|MatchPath(m)[1]|] == MatchPath(m)[1]
  {
    assert MatchPath(m)[2] == MatchPath(n)[2];
    SuffixCancel(IntToString(m), IntToString(n), ".gz");
    IntToStringInjective(m, n);
  }

  /** Different account ids or kinds of history never share a file. */
  lemma HistoryPathInjective(m: int, n: int, kind: string, kind': string)
    requires HistoryPath(m, kind) == HistoryPath(n, kind')
    ensures m == n && kind == kind'
  {
    var a, b := IntToString(m), IntToString(n);
    var name := HistoryPath(m, kind)[1];
    assert name == HistoryPath(n, kind')[1];
    // The account id's text holds no underscore, and the suffix begins with one.
    assert forall k :: 0 <= k < |a| ==> name[k] == a[k] && name[k] != '_';
    assert forall k :: 0 <= k < |b| ==> name[k] == b[k] && name[k] != '_';
    assert name[|a|] == HistorySuffix(kind)[0] == '_';
    assert name[|b|] == HistorySuffix(kind')[0] == '_';
    assert |a| == |b|;
    assert a == name[..|a|] == b;
    IntToStringInjective(m, n);
    assert HistorySuffix(kind) == name[|a|..] == HistorySuffix(kind');
    var prefix := "_matches_";
    SuffixCancel(prefix + kind, prefix + kind', ".gz");
    assert kind == (prefix + kind)[|prefix|..] && kind' == (prefix + kind')[|prefix|..];
  }

  /** A cached history is fresh while it is younger than the cache time. */
  predicate Fresh(ctime: int, now: int)
    ensures Fresh(ctime, now) <==> now - ctime < CacheTime
  {
    ctime > now - CacheTime
  }

  /** A history written at some time is read back for the next 300 seconds and fetched
      again from then on. */
  lemma FreshFor300Seconds(written: int, now: int)
    ensures Fresh(written, now) <==> now < written + 300
  {
  }

  /** The match record as stored: the summary list with the settings (first element of the
      first element of the full statistics), the items and the player statistics appended.
      A summary that is not a list has no append; a missing element raises. */
  function Assemble(summary: Json, all: Json): (r: Result<Json>)
    ensures !summary.Arr? ==> r == Err(AttributeError)
    ensures summary.Arr? ==>
              (r.Ok? <==> Index(all, 0).Ok? && Index(Index(all, 0).value, 0).Ok? && Index(all, 1).Ok? && Index(all, 2).Ok?)
    ensures r.Ok? ==>
              var n := |summary.items|;
              && r.value.Arr? && |r.value.items| == n + 3 && r.value.items[..n] == summary.items
              && Index(Index(all, 0).value, 0) == Ok(r.value.items[n])
              && Index(all, 1) == Ok(r.value.items[n + 1])
              && Index(all, 2) == Ok(r.value.items[n + 2])
  {
    if !summary.Arr? then Err(AttributeError)
    else
      match Index(all, 0)
      case Err(e) => Err(e)
      case Ok(first) =>
        match Index(first, 0)
        case Err(e) => Err(e)
        case Ok(settings) =>
          match Index(all, 1)
          case Err(e) => Err(e)
          case Ok(items) =>
            match Index(all, 2)
            case Err(e) => Err(e)
            case Ok(stats) =>
              var out := summary.items + [settings, items, stats];
              assert out[..|summary.items|] == summary.items;
              Ok(Arr(out))
  }

  /** int(data['account_id']) of a ranked-statistics answer. */
  function AccountOf(data: Json): (r: Result<int>)
    ensures Get(data, "account_id").Err? ==> r == Err(Get(data, "account_id").error)
    ensures Get(data, "account_id").Ok? ==> r == ToInt(Get(data, "account_id").value)
    ensures r.Ok? ==> data.Obj? && "account_id" in data.fields
  {
    match Get(data, "account_id")
    case Err(e) => Err(e)
    case Ok(v) => ToInt(v)
  }

  /** data['disp_name'].strip() of a hero answer; only a string has strip. */
  function DisplayName(data: Json): (r: Result<string>)
    ensures r.Ok? ==> Get(data, "disp_name").Ok? && Get(data, "disp_name").value.Str?
                      && r.value == Strip(Get(data, "disp_name").value.s)
    ensures r.Ok? ==> r.value == [] || (!IsSpace(r.value[0]) && !IsSpace(r.value[|r.value| - 1]))
    ensures Get(data, "disp_name").Err? ==> r == Err(Get(data, "disp_name").error)
    ensures Get(data, "disp_name").Ok? && Get(data, "disp_name").value.Str? ==>
              r == Ok(Strip(Get(data, "disp_name").value.s))
    ensures Get(data, "disp_name").Ok? && !Get(data, "disp_name").value.Str? ==> r == Err(AttributeError)
  {
    match Get(data, "disp_name")
    case Err(e) => Err(e)
    case Ok(v) => if v.Str? then Ok(Strip(v.s)) else Err(AttributeError)
  }

  /** A player table in which no nickname appears twice. */
  ghost predicate NicksUnique(players: map<int, string>)
  {
    forall i, j :: i in players && j in players && players[i] == players[j] ==> i == j
  }

  ghost predicate KnownNick(players: map<int, string>, nick: string)
  {
    exists id :: id in players && players[id] == nick
  }

  /** The account id stored for a known nickname. */
  ghost function IdOf(players: map<int, string>, nick: string): (id: int)
    requires KnownNick(players, nick)
    ensures id in players && players[id] == nick
  {
    var id :| id in players && players[id] == nick; id
  }

  /** What nick2id makes of a ranked-statistics answer for an unknown nickname: the answer's
      account id, unless the table already holds that id. */
  function NewAccount(fetched: Result<Json>, players: map<int, string>): (r: Result<int>)
    ensures r.Ok? <==> fetched.Ok? && AccountOf(fetched.value).Ok? && AccountOf(fetched.value).value !in players
    ensures r.Ok? ==> r == AccountOf(fetched.value)
    ensures fetched.Ok? && AccountOf(fetched.value).Ok? && AccountOf(fetched.value).value in players ==> r == Err(IntegrityError)
  {
    match fetched
    case Err(e) => Err(e)
    case Ok(data) =>
      match AccountOf(data)
      case Err(e) => Err(e)
      case Ok(id) => if id in players then Err(IntegrityError) else Ok(id)
  }

  /** The outcome of nick2id: its result, the answers used up and the table after it. */
  datatype Resolution = Resolution(result: Result<int>, used: nat, players: map<int, string>)

  /** nick2id as a value: a known nickname gives its stored id at no cost, an unknown one
      is fetched and, when the answer's id is new, inserted. */
  ghost function Resolve(token: Option<string>, players: map<int, string>, tape: seq<Response>, nick: string): (res: Resolution)
    ensures res.used <= |tape|
    ensures KnownNick(players, nick) ==> res == Resolution(Ok(IdOf(players, nick)), 0, players)
    ensures !KnownNick(players, nick) ==>
              var s := Attempt(token, tape);
              res.result == NewAccount(s.result, players) && res.used == s.used
    ensures res.result.Ok? ==> res.result.value in res.players && res.players[res.result.value] == nick
    ensures res.result.Err? ==> res.players == players
    ensures res.result.Ok? ==> res.players == players[res.result.value := nick]
    ensures NicksUnique(players) ==> NicksUnique(res.players)
  {
    if KnownNick(players, nick) then Resolution(Ok(IdOf(players, nick)), 0, players)
    else
      var s := Attempt(token, tape);
      var r := NewAccount(s.result, players);
      Resolution(r, s.used, if r.Ok? then players[r.value := nick] else players)
  }

  /** With unique nicknames, the id nick2id finds for a known nickname is the only one. */
  lemma KnownNickUnique(players: map<int, string>, nick: string, id: int)
    requires NicksUnique(players) && id in players && players[id] == nick
    ensures KnownNick(players, nick) && IdOf(players, nick) == id
  {
  }

  /** A cached file: the JSON written and the time it was created. */
  datatype CacheFile = CacheFile(payload: Json, ctime: int)

  class HttpDataProvider {
    const url: string
    const token: Option<string>
    /** The player table: account id (the primary key) to nickname. */
    var players: map<int, string>
    /** The hero table: hero id (the primary key) to display name. */
    var heroes: map<int, string>
    /** The cache directory: the path below it to the file there. */
    var files: map<seq<string>, CacheFile>
    /** The current time, in seconds. */
    var clock: int
    /** The answers the service gives to the coming requests, in order. */
    var responses: seq<Response>
    /** Every URL requested so far. */
    var requests: seq<string>

    /** Nicknames enter the player table only through nick2id, which never stores a known
        one again. */
    ghost predicate Valid()
      reads this
    {
      NicksUnique(players)
    }

    /** The provider over a cache directory and database left by earlier runs. */
    constructor (url: string, token: Option<string>, players: map<int, string>, heroes: map<int, string>,
                 files: map<seq<string>, CacheFile>, clock: int, responses: seq<Response>)
      requires NicksUnique(players)
      ensures Valid()
      ensures this.url == url && this.token == token && this.players == players && this.heroes == heroes
      ensures this.files == files && this.clock == clock && this.responses == responses && this.requests == []
    {
      this.url := url;
      this.token := token;
      this.players := players;
      this.heroes := heroes;
      this.files := files;
      this.clock := clock;
      this.responses := responses;
      this.requests := [];
    }

    /** The URLs of n requests for a path; none can be built without a token. */
    function Requests(path: string, n: nat): seq<string>
    {
      if token.None? then [] else Repeat(url + path + "/?token=" + token.value, n)
    }

    /** fetch: the path requested until the service gives something other than 429. */
    method Fetch(path: string) returns (r: Result<Json>)
      modifies this`responses, this`requests
      decreases |responses|
      ensures var s := Attempt(token, old(responses));
              && r == s.result
              && responses == old(responses)[s.used..]
              && requests == old(requests) + Requests(path, s.used)
    {
      if token.None? {
        return Err(TypeError);
      }
      var address := url + path + "/?token=" + token.value;
      if responses == [] {
        return Err(NoResponse);
      }
      ghost var tape := responses;
      ghost var before := requests;
      var answer := responses[0];
      responses := responses[1..];
      requests := requests + [address];
      match answer
      case Body(j) =>
        r := Ok(j);
      case Status(code) =>
        if code == 429 {
          r := Fetch(path);
          ghost var used := Serve(tape[1..]).used;
          assert tape[1..][used..] == tape[used + 1..];
          assert [address] + Repeat(address, used) == Repeat(address, used + 1);
          assert requests == before + [address] + Repeat(address, used);
        } else {
          r := Err(HttpError(code));
        }
    }

    /** nick2id: the stored id of a known nickname without any request; for an unknown one,
        the ranked statistics fetched and (account id, nickname) inserted, which fails when
        the id is already stored. */
    method Nick2Id(nick: string) returns (r: Result<int>)
      requires Valid()
      modifies this`players, this`responses, this`requests
      ensures Valid()
      ensures var res := Resolve(token, old(players), old(responses), nick);
              && r == res.result && players == res.players
              && responses == old(responses)[res.used..]
              && requests == old(requests) + Requests("player_statistics/ranked/nickname/" + nick, res.used)
    {
      if id :| id in players && players[id] == nick {
        KnownNickUnique(players, nick, id);
        return Ok(id);
      }
      var data := Fetch("player_statistics/ranked/nickname/" + nick);
      r := NewAccount(data, players);
      if r.Ok? {
        players := players[r.value := nick];
      }
    }

    /** id2nick: the identity. */
    method Id2Nick(id: string) returns (nick: string)
      ensures nick == id
    {
      nick := id;
    }

    /** heroid2name: the override for the five heroes that have one, else the stored name,
        else the display name fetched, stripped and stored. */
    method HeroId2Name(id: int) returns (r: Result<string>)
      modifies this`heroes, this`responses, this`requests
      ensures id in HeroNicks ==>
                r == Ok(HeroNicks[id]) && heroes == old(heroes)
                && responses == old(responses) && requests == old(requests)
      ensures id !in HeroNicks && id in old(heroes) ==>
                r == Ok(old(heroes)[id]) && heroes == old(heroes)
                && responses == old(responses) && requests == old(requests)
      ensures id !in HeroNicks && id !in old(heroes) ==>
                var s := Attempt(token, old(responses));
                && r == (match s.result case Err(e) => Err(e) case Ok(data) => DisplayName(data))
                && heroes == (if r.Ok? then old(heroes)[id := r.value] else old(heroes))
                && responses == old(responses)[s.used..]
                && requests == old(requests) + Requests("heroes/id/" + IntToString(id), s.used)
    {
      if id in HeroNicks {
        return Ok(HeroNicks[id]);
      }
      if id in heroes {
        return Ok(heroes[id]);
      }
      var data := Fetch("heroes/id/" + IntToString(id));
      if data.Err? {
        return Err(data.error);
      }
      r := DisplayName(data.value);
      if r.Ok? {
        heroes := heroes[id := r.value];
      }
    }

    /** The cache step of fetchmatches once the account id is known: a fresh file is read
        back, otherwise the history is fetched and the file (re)written now. */
    method CachedHistory(accountId: int, id: string, statstype: string) returns (r: Result<Json>)
      modifies this`files, this`responses, this`requests
      ensures var p := HistoryPath(accountId, statstype);
              if p in old(files) && Fresh(old(files)[p].ctime, clock) then
                && r == Ok(old(files)[p].payload) && files == old(files)
                && responses == old(responses) && requests == old(requests)
              else
                var s := Attempt(token, old(responses));
                && r == s.result
                && files == (if r.Ok? then old(files)[p := CacheFile(r.value, clock)] else old(files))
                && responses == old(responses)[s.used..]
                && requests == old(requests) + Requests("match_history/" + statstype + NickOrAccountId(id), s.used)
    {
      var p := HistoryPath(accountId, statstype);
      if p in files && Fresh(files[p].ctime, clock) {
        return Ok(files[p].payload);
      }
      r := Fetch("match_history/" + statstype + NickOrAccountId(id));
      if r.Ok? {
        files := files[p := CacheFile(r.value, clock)];
      }
    }

    /** fetchmatches: the id resolved with nick2id (numeric ids included, as nicknames), then
        the history of that account read from a fresh cache file or fetched and cached. */
    method FetchMatches(id: string, statstype: string) returns (r: Result<Json>)
      requires Valid()
      modifies this`players, this`files, this`responses, this`requests
      ensures Valid()
      ensures var res := Resolve(token, old(players), old(responses), id);
              && players == res.players
              && (res.result.Err? ==>
                    r == Err(res.result.error) && files == old(files)
                    && responses == old(responses)[res.used..]
                    && requests == old(requests) + Requests("player_statistics/ranked/nickname/" + id, res.used))
      ensures var res := Resolve(token, old(players), old(responses), id);
              res.result.Ok? ==>
                var p := HistoryPath(res.result.value, statstype);
                var tape := old(responses)[res.used..];
                var log := old(requests) + Requests("player_statistics/ranked/nickname/" + id, res.used);
                if p in old(files) && Fresh(old(files)[p].ctime, clock) then
                  && r == Ok(old(files)[p].payload) && files == old(files)
                  && responses == tape && requests == log
                else
                  var s := Attempt(token, tape);
                  && r == s.result
                  && files == (if r.Ok? then old(files)[p := CacheFile(r.value, clock)] else old(files))
                  && responses == tape[s.used..]
                  && requests == log + Requests("match_history/" + statstype + NickOrAccountId(id), s.used)
      ensures KnownNick(old(players), id) ==>
                var p := HistoryPath(IdOf(old(players), id), statstype);
                p in old(files) && Fresh(old(files)[p].ctime, clock) ==>
                  r == Ok(old(files)[p].payload) && files == old(files)
                  && responses == old(responses) && requests == old(requests)
      ensures r.Ok? ==>
                var acct := Resolve(token, old(players), old(responses), id).result.value;
                var p := HistoryPath(acct, statstype);
                p in files && files[p].payload == r.value
    {
      var account := Nick2Id(id);
      if account.Err? {
        return Err(account.error);
      }
      r := CachedHistory(account.value, id, statstype);
    }

    /** fetchmatchdata: a cached record is returned whatever its age; otherwise the summary and
        the full statistics are fetched, assembled and written once. */
    method FetchMatchData(matchId: int) returns (r: Result<Json>)
      modifies this`files, this`responses, this`requests
      ensures var p := MatchPath(matchId);
              if p in old(files) then
                && r == Ok(old(files)[p].payload) && files == old(files)
                && responses == old(responses) && requests == old(requests)
              else
                var summ := Attempt(token, old(responses));
                var rest := old(responses)[summ.used..];
                var all := Attempt(token, rest);
                var summPath := "match/summ/matchid/" + IntToString(matchId);
                var allPath := "match/all/matchid/" + IntToString(matchId);
                && (summ.result.Err? ==>
                      r == summ.result && responses == rest
                      && requests == old(requests) + Requests(summPath, summ.used))
                && (summ.result.Ok? && all.result.Err? ==>
                      r == all.result && responses == rest[all.used..]
                      && requests == old(requests) + Requests(summPath, summ.used) + Requests(allPath, all.used))
                && (summ.result.Ok? && all.result.Ok? ==>
                      r == Assemble(summ.result.value, all.result.value) && responses == rest[all.used..]
                      && requests == old(requests) + Requests(summPath, summ.used) + Requests(allPath, all.used))
                && files == (if r.Ok? then old(files)[p := CacheFile(r.value, clock)] else old(files))
    {
      var p := MatchPath(matchId);
      if p in files {
        return Ok(files[p].payload);
      }
      var summary := Fetch("match/summ/matchid/" + IntToString(matchId));
      if summary.Err? {
        return summary;
      }
      var all := Fetch("match/all/matchid/" + IntToString(matchId));
      if all.Err? {
        return all;
      }
      r := Assemble(summary.value, all.value);
      if r.Ok? {
        files := files[p := CacheFile(r.value, clock)];
      }
    }
  }

  /** Asking twice for a match record: once it was stored, the second call returns the
      identical record and requests nothing; `between` is the request log after the first call, which is the
      log before it and the requests that one call makes. */
  method MatchDataTwice(dp: HttpDataProvider, matchId: int)
      returns (first: Result<Json>, second: Result<Json>, ghost between: seq<string>)
    modifies dp
    ensures first.Ok? ==> second == first
    ensures var summ := Attempt(dp.token, old(dp.responses));
            var all := Attempt(dp.token, old(dp.responses)[summ.used..]);
            between == old(dp.requests)
                       + if MatchPath(matchId) in old(dp.files) then []
                         else dp.Requests("match/summ/matchid/" + IntToString(matchId), summ.used)
                              + if summ.result.Ok? then dp.Requests("match/all/matchid/" + IntToString(matchId), all.used)
                                else []
    ensures first.Ok? ==> dp.requests == between
    ensures MatchPath(matchId) in old(dp.files) ==> dp.requests == old(dp.requests) && dp.files == old(dp.files)
  {
    first := dp.FetchMatchData(matchId);
    between := dp.requests;
    second := dp.FetchMatchData(matchId);
  }

  /** Asking twice for a hero's name: once the first call succeeded, the second returns the
      same name and requests nothing; `between` is the request log after the first call, which is the
      log before it and the requests that one call makes. */
  method HeroNameTwice(dp: HttpDataProvider, heroId: int)
      returns (first: Result<string>, second: Result<string>, ghost between: seq<string>)
    modifies dp
    ensures first.Ok? ==> second == first
    ensures between == old(dp.requests)
                       + if heroId in HeroNicks || heroId in old(dp.heroes) then []
                         else dp.Requests("heroes/id/" + IntToString(heroId), Attempt(dp.token, old(dp.responses)).used)
    ensures first.Ok? ==> dp.requests == between
  {
    first := dp.HeroId2Name(heroId);
    between := dp.requests;
    second := dp.HeroId2Name(heroId);
  }

  /** Resolving a nickname twice: once the first call succeeded, the second returns the same
      account id and requests nothing; `between` is the request log after the first call, which is the
      log before it and the requests that one call makes. */
  method NickTwice(dp: HttpDataProvider, nick: string)
      returns (first: Result<int>, second: Result<int>, ghost between: seq<string>)
    requires dp.Valid()
    modifies dp
    ensures dp.Valid()
    ensures first.Ok? ==> second == first
    ensures between == old(dp.requests)
                       + dp.Requests("player_statistics/ranked/nickname/" + nick,
                                     Resolve(dp.token, old(dp.players), old(dp.responses), nick).used)
    ensures first.Ok? ==> dp.requests == between
  {
    first := dp.Nick2Id(nick);
    between := dp.requests;
    if first.Ok? {
      KnownNickUnique(dp.players, nick, first.value);
    }
    second := dp.Nick2Id(nick);
  }
}
