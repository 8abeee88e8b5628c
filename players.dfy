/** A player's statistics record and its accessors (data.py, class Player). */
module Players {
  import opened Common
  import opened Numeric
  import opened Json
  import Strings

  /** The three statistics pools. */
  datatype StatsType = Ranked | Public | Casual

  /** Player.StatsMapping: the field-name prefix of each pool. */
  function Prefix(t: StatsType): string
  {
    match t
    case Ranked => "rnk"
    case Public => "acc"
    case Casual => "cs"
  }

  /** The counters a pool keeps, one accessor of Player each. */
  datatype Counter = HeroKills | Deaths | HeroAssists | GamesPlayed | Wards | Denies | Wins

  function Suffix(c: Counter): string
  {
    match c
    case HeroKills => "_herokills"
    case Deaths => "_deaths"
    case HeroAssists => "_heroassists"
    case GamesPlayed => "_games_played"
    case Wards => "_wards"
    case Denies => "_denies"
    case Wins => "_wins"
  }

  /** The field that holds counter c of pool t. */
  function CounterKey(t: StatsType, c: Counter): string
  {
    Prefix(t) + Suffix(c)
  }

  /** A player as the source holds it: the nickname and the fields of the statistics reply. */
  datatype Player = Player(nickname: string, data: map<string, Json>)

  /** int(data[key]). */
  function IntField(data: map<string, Json>, key: string): Result<int>
  {
    if key in data then ToInt(data[key]) else Err(KeyError)
  }

  /** Player.id(): int(data['account_id']). */
  function AccountId(p: Player): (r: Result<int>)
    ensures "account_id" !in p.data ==> r == Err(KeyError)
    ensures "account_id" in p.data ==> r == ToInt(p.data["account_id"])
    ensures r.Ok? ==> ToInt(p.data["account_id"]) == Ok(r.value)
  {
    IntField(p.data, "account_id")
  }

  /** kills(), deaths(), assists(), gamesplayed(), wards(), denies() and wins(): the integer
      in the pool's field for the counter. */
  function CounterValue(p: Player, t: StatsType, c: Counter): (r: Result<int>)
    ensures CounterKey(t, c) !in p.data ==> r == Err(KeyError)
    ensures CounterKey(t, c) in p.data ==> r == ToInt(p.data[CounterKey(t, c)])
    ensures r.Ok? ==> ToInt(p.data[CounterKey(t, c)]) == Ok(r.value)
  {
    IntField(p.data, CounterKey(t, c))
  }

  /** The field rating() reads: the team rating of the pool, or the public skill value. */
  function RatingKey(t: StatsType): string
  {
    if t != Public then Prefix(t) + "_amm_team_rating" else "acc_pub_skill"
  }

  /** rating(): int(float(field)), the value truncated toward zero. */
  function Rating(p: Player, t: StatsType): (r: Result<int>)
    ensures RatingKey(t) !in p.data ==> r == Err(KeyError)
    ensures RatingKey(t) in p.data && ToReal(p.data[RatingKey(t)]).Ok? ==>
              r == Ok(Trunc(ToReal(p.data[RatingKey(t)]).value))
    ensures RatingKey(t) in p.data && ToReal(p.data[RatingKey(t)]).Err? ==>
              r == Err(ToReal(p.data[RatingKey(t)]).error)
    ensures r.Ok? ==> exists x :: ToReal(p.data[RatingKey(t)]) == Ok(x) && r.value == Trunc(x)
  {
    var key := RatingKey(t);
    if key !in p.data then Err(KeyError)
    else match ToReal(p.data[key])
      case Ok(x) => Ok(Trunc(x))
      case Err(e) => Err(e)
  }

  /** Every pool and counter has a field of its own: no accessor reads another's field. */
  lemma CounterKeyInjective(t1: StatsType, c1: Counter, t2: StatsType, c2: Counter)
    requires CounterKey(t1, c1) == CounterKey(t2, c2)
    ensures t1 == t2 && c1 == c2
  {
    assert CounterKey(t1, c1)[0] == Prefix(t1)[0];
    assert CounterKey(t2, c2)[0] == Prefix(t2)[0];
    assert t1 == t2;
    var n := |Prefix(t1)|;
    assert Suffix(c1) == CounterKey(t1, c1)[n..];
    assert Suffix(c2) == CounterKey(t2, c2)[n..];
    SuffixDetermines(c1);
    SuffixDetermines(c2);
  }

  /** The counter a field suffix belongs to. */
  function CounterOfSuffix(s: string): Option<Counter>
  {
    if s == "_herokills" then Some(HeroKills)
    else if s == "_deaths" then Some(Deaths)
    else if s == "_heroassists" then Some(HeroAssists)
    else if s == "_games_played" then Some(GamesPlayed)
    else if s == "_wards" then Some(Wards)
    else if s == "_denies" then Some(Denies)
    else if s == "_wins" then Some(Wins)
    else None
  }

  lemma SuffixDetermines(c: Counter)
    ensures CounterOfSuffix(Suffix(c)) == Some(c)
  {
    match c
    case HeroKills =>
    case Deaths =>
    case HeroAssists =>
    case GamesPlayed =>
    case Wards =>
    case Denies =>
    case Wins =>
  }

  /** A rating field holding integer text is read back as that integer. */
  lemma RatingOfIntegerText(p: Player, t: StatsType, n: int)
    requires RatingKey(t) in p.data && p.data[RatingKey(t)] == Str(Strings.IntToString(n))
    ensures Rating(p, t) == Ok(n)
  {
    Strings.ParseIntToString(n);
    Strings.ParseDecimalOfInteger(Strings.IntToString(n), n);
    assert ToReal(p.data[RatingKey(t)]) == Ok(n as real);
    assert Trunc(n as real) == n;
  }
}
