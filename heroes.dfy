/** The per-hero summary of a player's match history (data.py, Player.playerheroes): one entry
    per hero played, counters summed over the matches on that hero, rates derived from the sums,
    the entries then sorted by a chosen field. */
module HeroUsage {
  import opened Common
  import opened Numeric
  import opened Matches
  import Players

  /** One hero's entry: the counters the first pass sums, then the rates the second pass writes
      into the same entry (gpm is 0 until then). */
  datatype HeroStats = HeroStats(
    heroId: int, use: nat, k: int, d: int, a: int, wins: int, losses: int,
    gold: int, wards: int, playedTime: int,
    gpm: int, perc: int, kdr: real, kpg: real, dpg: real, apg: real, wpg: real)

  /** What one match adds to the entry of the hero the player played in it. */
  datatype Contribution = Contribution(
    heroId: int, k: int, d: int, a: int, wins: int, losses: int, gold: int, wards: int, seconds: int)

  /** The hero and the counters playerstat reads for the player from one match: the sentinel
      gives hero 0 and zeros, a match without the player raises TypeError. */
  function ContributionOf(m: AnyMatch, id: int): (r: Result<Contribution>)
    requires Readable(m)
    ensures r.Err? <==> m.Match? && RowFor(m, id).None?
    ensures r.Err? ==> r == Err(TypeError)
    ensures m.EmptyMatch? ==> r == Ok(Contribution(0, 0, 0, 0, 0, 0, 0, 0, 0))
    ensures r.Ok? && m.Match? ==>
      var row := RowFor(m, id).value;
      r.value == Contribution(row.heroId, row.heroKills, row.deaths, row.heroAssists, row.wins,
                              row.losses, row.gold, row.wards, m.data.summary.timePlayed)
  {
    match PlayerStat(m, id, HeroId)
    case Err(e) => Err(e)
    case Ok(heroId) =>
      Ok(Contribution(heroId, PlayerStat(m, id, HeroKills).value, PlayerStat(m, id, Deaths).value,
                      PlayerStat(m, id, HeroAssists).value, PlayerStat(m, id, Wins).value,
                      PlayerStat(m, id, Losses).value, PlayerStat(m, id, Gold).value,
                      PlayerStat(m, id, Wards).value, GameDuration(m)))
  }

  /** The contributions of every match of the history, in order; TypeError as soon as one
      match lacks the player. */
  function ContributionsOf(matches: seq<RawMatch>, id: int): (r: Result<seq<Contribution>>)
    ensures r.Ok? <==> forall i :: 0 <= i < |matches| ==> ContributionOf(CreateMatch(matches[i]), id).Ok?
    ensures r.Err? ==> r == Err(TypeError)
    ensures r.Ok? ==> && |r.value| == |matches|
                      && forall i :: 0 <= i < |matches| ==> ContributionOf(CreateMatch(matches[i]), id) == Ok(r.value[i])
  {
    if matches == [] then Ok([])
    else
      var last := |matches| - 1;
      assert forall i :: 0 <= i < last ==> matches[..last][i] == matches[i];
      match ContributionsOf(matches[..last], id)
      case Err(e) => Err(e)
      case Ok(cs) =>
        match ContributionOf(CreateMatch(matches[last]), id)
        case Err(e) => Err(e)
        case Ok(c) => Ok(cs + [c])
  }

  /** The entries in the order their heroes were first met, which is the dict's order. */
  datatype Tally = Tally(order: seq<int>, entries: map<int, HeroStats>)

  ghost predicate WellFormed(t: Tally)
  {
    && (forall i, j :: 0 <= i < j < |t.order| ==> t.order[i] != t.order[j])
    && (forall h :: h in t.entries <==> h in t.order)
    && (forall i :: 0 <= i < |t.order| ==> t.order[i] in t.entries)
    && (forall h :: h in t.entries ==> t.entries[h].heroId == h && t.entries[h].use > 0)
  }

  /** The entry created for a hero met for the first time. */
  function NewEntry(heroId: int): HeroStats
  {
    HeroStats(heroId, 0, 0, 0, 0, 0, 0, 0, 0, 0, 0, 0, 0.0, 0.0, 0.0, 0.0, 0.0)
  }

  /** The additions of the first pass: one more use and the match's counters. */
  function Accumulate(e: HeroStats, c: Contribution): HeroStats
  {
    e.(use := e.use + 1, k := e.k + c.k, d := e.d + c.d, a := e.a + c.a,
       wins := e.wins + c.wins, losses := e.losses + c.losses, gold := e.gold + c.gold,
       wards := e.wards + c.wards, playedTime := e.playedTime + c.seconds)
  }

  /** One match of the first pass: a hero met for the first time gets a zero entry at the end
      of the order, then its entry takes the match's additions; nothing else changes. */
  function Step(t: Tally, c: Contribution): (t': Tally)
    requires WellFormed(t)
    ensures WellFormed(t')
    ensures t'.entries.Keys == t.entries.Keys + {c.heroId}
    ensures t'.order == if c.heroId in t.entries then t.order else t.order + [c.heroId]
    ensures t'.entries[c.heroId]
            == Accumulate(if c.heroId in t.entries then t.entries[c.heroId] else NewEntry(c.heroId), c)
    ensures forall h :: h in t.entries && h != c.heroId ==> t'.entries[h] == t.entries[h]
  {
    var h := c.heroId;
    if h in t.entries then
      Tally(t.order, t.entries[h := Accumulate(t.entries[h], c)])
    else
      var order := t.order + [h];
      assert forall i :: 0 <= i < |t.order| ==> order[i] == t.order[i] && t.order[i] in t.order;
      Tally(order, t.entries[h := Accumulate(NewEntry(h), c)])
  }

  /** The first pass over a sequence of contributions. */
  function TallyOf(cs: seq<Contribution>): (t: Tally)
    ensures WellFormed(t)
  {
    if cs == [] then Tally([], map[])
    else Step(TallyOf(cs[..|cs| - 1]), cs[|cs| - 1])
  }

  /** The counters the first pass sums, use included. */
  datatype Summed = UseCount | KillSum | DeathSum | AssistSum | WinSum | LossSum | GoldSum | WardSum | TimeSum

  function Count(e: HeroStats, f: Summed): int
  {
    match f
    case UseCount => e.use
    case KillSum => e.k
    case DeathSum => e.d
    case AssistSum => e.a
    case WinSum => e.wins
    case LossSum => e.losses
    case GoldSum => e.gold
    case WardSum => e.wards
    case TimeSum => e.playedTime
  }

  /** What one contribution adds to a counter. */
  function Amount(c: Contribution, f: Summed): int
  {
    match f
    case UseCount => 1
    case KillSum => c.k
    case DeathSum => c.d
    case AssistSum => c.a
    case WinSum => c.wins
    case LossSum => c.losses
    case GoldSum => c.gold
    case WardSum => c.wards
    case TimeSum => c.seconds
  }

  /** The sum of a counter over the contributions of one hero. */
  function SumFor(cs: seq<Contribution>, heroId: int, f: Summed): int
  {
    if cs == [] then 0
    else SumFor(cs[..|cs| - 1], heroId, f)
         + (if cs[|cs| - 1].heroId == heroId then Amount(cs[|cs| - 1], f) else 0)
  }

  lemma CountAccumulate(e: HeroStats, c: Contribution, f: Summed)
    ensures Count(Accumulate(e, c), f) == Count(e, f) + Amount(c, f)
  {
  }

  /** A hero's counter in a tally; zero for a hero without an entry. */
  function CountIn(t: Tally, heroId: int, f: Summed): int
  {
    if heroId in t.entries then Count(t.entries[heroId], f) else 0
  }

  lemma StepCount(t: Tally, c: Contribution, heroId: int, f: Summed)
    requires WellFormed(t)
    ensures CountIn(Step(t, c), heroId, f) == CountIn(t, heroId, f) + (if c.heroId == heroId then Amount(c, f) else 0)
  {
    if c.heroId == heroId {
      var before := if heroId in t.entries then t.entries[heroId] else NewEntry(heroId);
      CountAccumulate(before, c, f);
      assert CountIn(t, heroId, f) == Count(before, f);
    }
  }

  lemma {:induction false} TallyCounts(cs: seq<Contribution>, heroId: int, f: Summed)
    ensures CountIn(TallyOf(cs), heroId, f) == SumFor(cs, heroId, f)
  {
    if cs != [] {
      TallyCounts(cs[..|cs| - 1], heroId, f);
      StepCount(TallyOf(cs[..|cs| - 1]), cs[|cs| - 1], heroId, f);
    }
  }

  lemma {:induction false} TallyMembers(cs: seq<Contribution>, heroId: int)
    ensures heroId in TallyOf(cs).entries <==> exists i :: 0 <= i < |cs| && cs[i].heroId == heroId
  {
    if cs != [] {
      var init := cs[..|cs| - 1];
      TallyMembers(init, heroId);
      assert TallyOf(cs).entries.Keys == TallyOf(init).entries.Keys + {cs[|cs| - 1].heroId};
      if heroId in TallyOf(init).entries {
        var i :| 0 <= i < |init| && init[i].heroId == heroId;
        assert cs[i].heroId == heroId;
      } else if heroId != cs[|cs| - 1].heroId {
        forall i | 0 <= i < |cs|
          ensures cs[i].heroId != heroId
        {
          if i < |init| {
            assert init[i] == cs[i];
          }
        }
      }
    }
  }

  /** After the first pass a hero has an entry exactly when it was played, and each of its
      counters is the sum of that counter over the matches played on it. */
  lemma TallySums(cs: seq<Contribution>, heroId: int, f: Summed)
    ensures heroId in TallyOf(cs).entries <==> exists i :: 0 <= i < |cs| && cs[i].heroId == heroId
    ensures heroId in TallyOf(cs).entries ==> Count(TallyOf(cs).entries[heroId], f) == SumFor(cs, heroId, f)
    ensures heroId !in TallyOf(cs).entries ==> SumFor(cs, heroId, f) == 0
  {
    TallyMembers(cs, heroId);
    TallyCounts(cs, heroId, f);
  }

  /** The entries in the dict's order. */
  function Entries(t: Tally): (s: seq<HeroStats>)
    requires WellFormed(t)
    ensures |s| == |t.order| && forall i :: 0 <= i < |s| ==> s[i] == t.entries[t.order[i]]
  {
    seq(|t.order|, i requires 0 <= i < |t.order| => t.entries[t.order[i]])
  }

  function UseSum(s: seq<HeroStats>): int
  {
    if s == [] then 0 else s[0].use + UseSum(s[1..])
  }

  lemma {:induction false} UseSumAppend(s: seq<HeroStats>, x: HeroStats)
    ensures UseSum(s + [x]) == UseSum(s) + x.use
  {
    if s != [] {
      assert (s + [x])[1..] == s[1..] + [x];
      UseSumAppend(s[1..], x);
    }
  }

  lemma {:induction false} UseSumUpdate(s: seq<HeroStats>, p: nat, x: HeroStats)
    requires p < |s|
    ensures UseSum(s[p := x]) == UseSum(s) - s[p].use + x.use
  {
    if p > 0 {
      assert s[p := x][1..] == s[1..][p - 1 := x];
      UseSumUpdate(s[1..], p - 1, x);
    }
  }

  lemma {:induction false} UseSumPointwise(s: seq<HeroStats>, t: seq<HeroStats>)
    requires |s| == |t| && forall i :: 0 <= i < |s| ==> s[i].use == t[i].use
    ensures UseSum(s) == UseSum(t)
  {
    if s != [] {
      UseSumPointwise(s[1..], t[1..]);
    }
  }

  lemma UseStep(t: Tally, c: Contribution)
    requires WellFormed(t)
    ensures UseSum(Entries(Step(t, c))) == UseSum(Entries(t)) + 1
  {
    var t' := Step(t, c);
    var h := c.heroId;
    var before := Entries(t);
    var after := Entries(t');
    if h in t.entries {
      var p :| 0 <= p < |t.order| && t.order[p] == h;
      forall i | 0 <= i < |after|
        ensures after[i] == before[p := t'.entries[h]][i]
      {
        if i != p {
          assert t.order[i] != h;
        }
      }
      assert after == before[p := t'.entries[h]];
      UseSumUpdate(before, p, t'.entries[h]);
    } else {
      forall i | 0 <= i < |after|
        ensures after[i] == (before + [t'.entries[h]])[i]
      {
        if i < |before| {
          assert t.order[i] in t.entries;
        }
      }
      assert after == before + [t'.entries[h]];
      UseSumAppend(before, t'.entries[h]);
    }
  }

  /** Every match adds exactly one use: the uses of all entries add up to the matches. */
  lemma {:induction false} TallyUseTotal(cs: seq<Contribution>)
    ensures UseSum(Entries(TallyOf(cs))) == |cs|
  {
    if cs != [] {
      TallyUseTotal(cs[..|cs| - 1]);
      UseStep(TallyOf(cs[..|cs| - 1]), cs[|cs| - 1]);
    }
  }

  /** Whether two entries agree on the hero and every summed counter. */
  predicate SameCounters(x: HeroStats, y: HeroStats)
  {
    && x.heroId == y.heroId && x.use == y.use && x.k == y.k && x.d == y.d && x.a == y.a
    && x.wins == y.wins && x.losses == y.losses && x.gold == y.gold && x.wards == y.wards
    && x.playedTime == y.playedTime
  }

  /** The share of the matches, in percent, truncated. */
  function Percent(use: nat, total: nat): (p: int)
    requires total > 0
    ensures 0 <= p && p * total <= 100 * use < (p + 1) * total
  {
    TruncDivOfNat(100 * use, total);
    TruncDiv(100 * use, total)
  }

  /** q is the amount x shared out over n: q times n gives x back. */
  predicate SharedOver(q: real, x: int, n: int)
  {
    q * n as real == x as real
  }

  /** A sum spread over the uses of a hero. */
  function PerUse(x: int, use: nat): (q: real)
    requires use > 0
    ensures SharedOver(q, x, use)
  {
    QuotientTimes(x as real, use as real);
    x as real / use as real
  }

  /** Kills per death; the kills themselves when there are no deaths. */
  function KillsPerDeath(k: int, d: int): (q: real)
    ensures d > 0 ==> SharedOver(q, k, d)
    ensures d <= 0 ==> q == k as real
  {
    if d > 0 then QuotientTimes(k as real, d as real); k as real / d as real else k as real
  }

  /** The second pass on one entry, given the number of matches examined: the share of
      matches as a truncated percentage, kills per death (the kills when there are no deaths),
      kills, deaths, assists and wards per use, gold per minute played truncated. Each
      division by zero raises. */
  function Finalized(e: HeroStats, total: nat): (r: Result<HeroStats>)
    ensures r.Err? <==> total == 0 || e.use == 0 || e.playedTime == 0
    ensures r.Err? ==> r == Err(ZeroDivisionError)
    ensures r.Ok? ==> SameCounters(r.value, e)
    ensures r.Ok? ==> 0 <= r.value.perc && r.value.perc * total <= 100 * e.use < (r.value.perc + 1) * total
    ensures r.Ok? ==> if e.d > 0 then SharedOver(r.value.kdr, e.k, e.d) else r.value.kdr == e.k as real
    ensures r.Ok? ==> && SharedOver(r.value.kpg, e.k, e.use) && SharedOver(r.value.dpg, e.d, e.use)
                      && SharedOver(r.value.apg, e.a, e.use) && SharedOver(r.value.wpg, e.wards, e.use)
    ensures r.Ok? ==> Abs(r.value.gpm) * Abs(e.playedTime) <= Abs(60 * e.gold) < (Abs(r.value.gpm) + 1) * Abs(e.playedTime)
    ensures r.Ok? ==> r.value.gpm == 0 || ((r.value.gpm > 0) <==> ((e.gold > 0) == (e.playedTime > 0)))
    ensures r.Ok? ==> GoldPerMinute(e.gold, e.playedTime) == Ok(r.value.gpm)
  {
    if total == 0 || e.use == 0 || e.playedTime == 0 then Err(ZeroDivisionError)
    else
      var perc := Percent(e.use, total);
      var kdr := KillsPerDeath(e.k, e.d);
      var kpg := PerUse(e.k, e.use);
      var dpg := PerUse(e.d, e.use);
      var apg := PerUse(e.a, e.use);
      var wpg := PerUse(e.wards, e.use);
      var gpm := GoldPerMinute(e.gold, e.playedTime).value;
      Ok(HeroStats(e.heroId, e.use, e.k, e.d, e.a, e.wins, e.losses, e.gold, e.wards, e.playedTime,
                   gpm, perc, kdr, kpg, dpg, apg, wpg))
  }

  /** The second pass over the entries in the dict's order. */
  function FinalizeEach(order: seq<int>, entries: map<int, HeroStats>, total: nat): (r: Result<seq<HeroStats>>)
    requires forall i :: 0 <= i < |order| ==> order[i] in entries
    ensures r.Ok? <==> forall i :: 0 <= i < |order| ==> Finalized(entries[order[i]], total).Ok?
    ensures r.Err? ==> r == Err(ZeroDivisionError)
    ensures r.Ok? ==> && |r.value| == |order|
                      && forall i :: 0 <= i < |order| ==> Finalized(entries[order[i]], total) == Ok(r.value[i])
  {
    if order == [] then Ok([])
    else
      var last := |order| - 1;
      assert forall i :: 0 <= i < last ==> order[..last][i] == order[i];
      match FinalizeEach(order[..last], entries, total)
      case Err(e) => Err(e)
      case Ok(done) =>
        match Finalized(entries[order[last]], total)
        case Err(e) => Err(e)
        case Ok(x) => Ok(done + [x])
  }

  /** The keys playerheroes can sort by. */
  datatype SortField =
    | ByHeroId | ByUse | ByKills | ByDeaths | ByAssists | ByWins | ByLosses | ByGpm | ByWards
    | ByGold | ByPlayedTime | ByPerc | ByKdr | ByKpg | ByDpg | ByApg | ByWpg

  function Key(e: HeroStats, f: SortField): real
  {
    match f
    case ByHeroId => e.heroId as real
    case ByUse => e.use as real
    case ByKills => e.k as real
    case ByDeaths => e.d as real
    case ByAssists => e.a as real
    case ByWins => e.wins as real
    case ByLosses => e.losses as real
    case ByGpm => e.gpm as real
    case ByWards => e.wards as real
    case ByGold => e.gold as real
    case ByPlayedTime => e.playedTime as real
    case ByPerc => e.perc as real
    case ByKdr => e.kdr
    case ByKpg => e.kpg
    case ByDpg => e.dpg
    case ByApg => e.apg
    case ByWpg => e.wpg
  }

  /** x belongs strictly before y: a smaller key, or a larger one when descending. */
  predicate Precedes(x: HeroStats, y: HeroStats, f: SortField, descending: bool)
  {
    if descending then Key(x, f) > Key(y, f) else Key(x, f) < Key(y, f)
  }

  predicate Sorted(s: seq<HeroStats>, f: SortField, descending: bool)
  {
    forall i, j :: 0 <= i < j < |s| ==> !Precedes(s[j], s[i], f, descending)
  }

  /** Places x before the first entry that does not belong strictly before it. */
  function Insert(x: HeroStats, s: seq<HeroStats>, f: SortField, descending: bool): (r: seq<HeroStats>)
    ensures multiset(r) == multiset(s) + multiset{x}
    ensures |r| == |s| + 1
    ensures forall y :: y in r ==> y == x || y in s
  {
    if s == [] || !Precedes(s[0], x, f, descending) then [x] + s
    else
      assert s == [s[0]] + s[1..];
      [s[0]] + Insert(x, s[1..], f, descending)
  }

  /** sorted(entries, key=field, reverse=descending), a stable sort. */
  function SortStats(s: seq<HeroStats>, f: SortField, descending: bool): (r: seq<HeroStats>)
    ensures multiset(r) == multiset(s)
    ensures |r| == |s|
  {
    if s == [] then []
    else
      assert s == [s[0]] + s[1..];
      Insert(s[0], SortStats(s[1..], f, descending), f, descending)
  }

  lemma {:induction false} InsertSorted(x: HeroStats, s: seq<HeroStats>, f: SortField, descending: bool)
    requires Sorted(s, f, descending)
    ensures Sorted(Insert(x, s, f, descending), f, descending)
  {
    if s == [] || !Precedes(s[0], x, f, descending) {
      SortedCons(x, s, f, descending);
    } else {
      var rest := Insert(x, s[1..], f, descending);
      InsertSorted(x, s[1..], f, descending);
      forall y | y in rest
        ensures !Precedes(y, s[0], f, descending)
      {
        if y != x {
          var k :| 0 <= k < |s[1..]| && s[1..][k] == y;
          assert s[k + 1] == y;
        }
      }
      SortedCons(s[0], rest, f, descending);
    }
  }

  /** An entry that nothing after it precedes can head a sorted sequence. */
  lemma SortedCons(x: HeroStats, s: seq<HeroStats>, f: SortField, descending: bool)
    requires Sorted(s, f, descending)
    requires forall y | y in s :: !Precedes(y, x, f, descending)
    ensures Sorted([x] + s, f, descending)
  {
    var r := [x] + s;
    forall i, j | 0 <= i < j < |r|
      ensures !Precedes(r[j], r[i], f, descending)
    {
      assert r[j] == s[j - 1];
      if i > 0 {
        assert r[i] == s[i - 1];
      }
    }
  }

  /** The result is ordered by the field: ascending, or descending when asked. */
  lemma {:induction false} SortStatsSorted(s: seq<HeroStats>, f: SortField, descending: bool)
    ensures Sorted(SortStats(s, f, descending), f, descending)
  {
    if s != [] {
      SortStatsSorted(s[1..], f, descending);
      InsertSorted(s[0], SortStats(s[1..], f, descending), f, descending);
    }
  }

  /** The entries whose key equals v, in their order. */
  function WithKey(s: seq<HeroStats>, f: SortField, v: real): seq<HeroStats>
  {
    if s == [] then []
    else (if Key(s[0], f) == v then [s[0]] else []) + WithKey(s[1..], f, v)
  }

  lemma WithKeyCons(y: HeroStats, s: seq<HeroStats>, f: SortField, v: real)
    ensures WithKey([y] + s, f, v) == (if Key(y, f) == v then [y] else []) + WithKey(s, f, v)
  {
    assert ([y] + s)[1..] == s;
  }

  lemma SwapDisjoint(p: seq<HeroStats>, q: seq<HeroStats>, w: seq<HeroStats>)
    requires p == [] || q == []
    ensures p + (q + w) == q + (p + w)
  {
    if p == [] {
      assert p + (q + w) == q + w;
    } else {
      assert q + (p + w) == p + w;
    }
  }

  lemma {:induction false} WithKeyInsert(x: HeroStats, s: seq<HeroStats>, f: SortField, descending: bool, v: real)
    ensures WithKey(Insert(x, s, f, descending), f, v) == WithKey([x], f, v) + WithKey(s, f, v)
  {
    var own := if Key(x, f) == v then [x] else [];
    WithKeyCons(x, [], f, v);
    assert [x] + [] == [x];
    if s == [] || !Precedes(s[0], x, f, descending) {
      WithKeyCons(x, s, f, v);
    } else {
      var rest := Insert(x, s[1..], f, descending);
      var first := if Key(s[0], f) == v then [s[0]] else [];
      assert Insert(x, s, f, descending) == [s[0]] + rest;
      WithKeyCons(s[0], rest, f, v);
      WithKeyInsert(x, s[1..], f, descending, v);
      assert s == [s[0]] + s[1..];
      WithKeyCons(s[0], s[1..], f, v);
      assert Key(s[0], f) != Key(x, f);
      SwapDisjoint(first, own, WithKey(s[1..], f, v));
    }
  }

  /** The sort is stable: entries with equal keys keep the order they had. */
  lemma {:induction false} SortStatsStable(s: seq<HeroStats>, f: SortField, descending: bool, v: real)
    ensures WithKey(SortStats(s, f, descending), f, v) == WithKey(s, f, v)
  {
    if s != [] {
      var sortedRest := SortStats(s[1..], f, descending);
      SortStatsStable(s[1..], f, descending, v);
      WithKeyInsert(s[0], sortedRest, f, descending, v);
      assert [s[0]][1..] == [];
      assert WithKey([s[0]], f, v) == (if Key(s[0], f) == v then [s[0]] else []);
      calc {
        WithKey(SortStats(s, f, descending), f, v);
        WithKey(Insert(s[0], sortedRest, f, descending), f, v);
        WithKey([s[0]], f, v) + WithKey(sortedRest, f, v);
        (if Key(s[0], f) == v then [s[0]] else []) + WithKey(s[1..], f, v);
        WithKey(s, f, v);
      }
    }
  }

  lemma {:induction false} UseSumInsert(x: HeroStats, s: seq<HeroStats>, f: SortField, descending: bool)
    ensures UseSum(Insert(x, s, f, descending)) == x.use + UseSum(s)
  {
    if s != [] && Precedes(s[0], x, f, descending) {
      UseSumInsert(x, s[1..], f, descending);
      assert ([s[0]] + Insert(x, s[1..], f, descending))[1..] == Insert(x, s[1..], f, descending);
    } else {
      assert ([x] + s)[1..] == s;
    }
  }

  lemma {:induction false} UseSumSorted(s: seq<HeroStats>, f: SortField, descending: bool)
    ensures UseSum(SortStats(s, f, descending)) == UseSum(s)
  {
    if s != [] {
      UseSumSorted(s[1..], f, descending);
      UseSumInsert(s[0], SortStats(s[1..], f, descending), f, descending);
    }
  }

  /** playerheroes for the player's account id, as a value: TypeError when a match lacks the
      player, otherwise ZeroDivisionError when an entry cannot be finalised. */
  function PlayerHeroesSpec(id: int, matches: seq<RawMatch>, sortBy: SortField, order: string): (r: Result<seq<HeroStats>>)
    ensures ContributionsOf(matches, id).Err? ==> r == Err(TypeError)
    ensures ContributionsOf(matches, id).Ok? && r.Err? ==> r == Err(ZeroDivisionError)
  {
    match ContributionsOf(matches, id)
    case Err(e) => Err(e)
    case Ok(cs) =>
      var t := TallyOf(cs);
      match FinalizeEach(t.order, t.entries, |matches|)
      case Err(e) => Err(e)
      case Ok(rows) => Ok(SortStats(rows, sortBy, order == "desc"))
  }

  /** Entries with pairwise different heroes. */
  predicate DistinctHeroes(s: seq<HeroStats>)
  {
    forall i, j :: 0 <= i < j < |s| ==> s[i].heroId != s[j].heroId
  }

  lemma {:induction false} InsertDistinct(x: HeroStats, s: seq<HeroStats>, f: SortField, descending: bool)
    requires DistinctHeroes(s)
    requires forall y :: y in s ==> y.heroId != x.heroId
    ensures DistinctHeroes(Insert(x, s, f, descending))
  {
    var r := Insert(x, s, f, descending);
    if s == [] || !Precedes(s[0], x, f, descending) {
      assert r == [x] + s;
      forall i, j | 0 <= i < j < |r|
        ensures r[i].heroId != r[j].heroId
      {
        assert r[j] == s[j - 1];
        if i > 0 {
          assert r[i] == s[i - 1];
        }
      }
    } else {
      var rest := Insert(x, s[1..], f, descending);
      assert DistinctHeroes(s[1..]) by {
        forall i, j | 0 <= i < j < |s[1..]| ensures s[1..][i].heroId != s[1..][j].heroId {
          assert s[1..][i] == s[i + 1] && s[1..][j] == s[j + 1];
        }
      }
      InsertDistinct(x, s[1..], f, descending);
      assert r == [s[0]] + rest;
      forall i, j | 0 <= i < j < |r|
        ensures r[i].heroId != r[j].heroId
      {
        if i == 0 {
          assert r[j] in rest;
          if r[j] != x {
            var k :| 0 <= k < |s[1..]| && s[1..][k] == r[j];
            assert s[k + 1] == r[j];
          }
        } else {
          assert r[i] == rest[i - 1] && r[j] == rest[j - 1];
        }
      }
    }
  }

  /** Sorting keeps the heroes pairwise different. */
  lemma {:induction false} SortStatsDistinct(s: seq<HeroStats>, f: SortField, descending: bool)
    requires DistinctHeroes(s)
    ensures DistinctHeroes(SortStats(s, f, descending))
  {
    if s != [] {
      var tail := s[1..];
      assert DistinctHeroes(tail) by {
        forall i, j | 0 <= i < j < |tail| ensures tail[i].heroId != tail[j].heroId {
          assert tail[i] == s[i + 1] && tail[j] == s[j + 1];
        }
      }
      SortStatsDistinct(tail, f, descending);
      var sortedTail := SortStats(tail, f, descending);
      forall y | y in sortedTail
        ensures y.heroId != s[0].heroId
      {
        assert y in multiset(tail);
        var k :| 0 <= k < |tail| && tail[k] == y;
        assert s[k + 1] == y;
      }
      InsertDistinct(s[0], sortedTail, f, descending);
    }
  }

  /** The pieces of a successful playerheroes: the contributions, the first pass and the
      entries in the dict's order before sorting. */
  lemma Unfold(id: int, matches: seq<RawMatch>, sortBy: SortField, order: string)
      returns (cs: seq<Contribution>, t: Tally, rows: seq<HeroStats>)
    requires PlayerHeroesSpec(id, matches, sortBy, order).Ok?
    ensures ContributionsOf(matches, id) == Ok(cs)
    ensures t == TallyOf(cs)
    ensures FinalizeEach(t.order, t.entries, |matches|) == Ok(rows)
    ensures PlayerHeroesSpec(id, matches, sortBy, order).value == SortStats(rows, sortBy, order == "desc")
  {
    cs := ContributionsOf(matches, id).value;
    t := TallyOf(cs);
    rows := FinalizeEach(t.order, t.entries, |matches|).value;
  }

  /** Every match of the history is counted once: the uses of all entries add up to the number
      of matches. */
  lemma HeroesUseTotal(id: int, matches: seq<RawMatch>, sortBy: SortField, order: string)
    requires PlayerHeroesSpec(id, matches, sortBy, order).Ok?
    ensures UseSum(PlayerHeroesSpec(id, matches, sortBy, order).value) == |matches|
  {
    var cs, t, rows := Unfold(id, matches, sortBy, order);
    TallyUseTotal(cs);
    UseSumPointwise(rows, Entries(t));
    UseSumSorted(rows, sortBy, order == "desc");
  }

  /** Each entry of the result belongs to a hero the player played, and each of its counters
      is the sum of that counter over the matches played on that hero. */
  lemma HeroesCounters(id: int, matches: seq<RawMatch>, sortBy: SortField, order: string, x: HeroStats, f: Summed)
    requires PlayerHeroesSpec(id, matches, sortBy, order).Ok?
    requires x in PlayerHeroesSpec(id, matches, sortBy, order).value
    ensures exists i :: 0 <= i < |matches| && ContributionOf(CreateMatch(matches[i]), id).value.heroId == x.heroId
    ensures Count(x, f) == SumFor(ContributionsOf(matches, id).value, x.heroId, f)
  {
    var cs, t, rows := Unfold(id, matches, sortBy, order);
    assert x in multiset(rows);
    var i :| 0 <= i < |rows| && rows[i] == x;
    var h := t.order[i];
    assert SameCounters(x, t.entries[h]);
    TallySums(cs, h, f);
    var k :| 0 <= k < |cs| && cs[k].heroId == h;
    assert ContributionOf(CreateMatch(matches[k]), id).value == cs[k];
  }

  /** Every hero the player played has an entry, and no hero has two. */
  lemma HeroesCoverPlayed(id: int, matches: seq<RawMatch>, sortBy: SortField, order: string, i: nat)
    requires PlayerHeroesSpec(id, matches, sortBy, order).Ok?
    requires i < |matches|
    ensures DistinctHeroes(PlayerHeroesSpec(id, matches, sortBy, order).value)
    ensures exists x :: x in PlayerHeroesSpec(id, matches, sortBy, order).value
                        && x.heroId == ContributionOf(CreateMatch(matches[i]), id).value.heroId
  {
    var cs, t, rows := Unfold(id, matches, sortBy, order);
    assert DistinctHeroes(rows) by {
      forall a, b | 0 <= a < b < |rows| ensures rows[a].heroId != rows[b].heroId {
        assert SameCounters(rows[a], t.entries[t.order[a]]);
        assert SameCounters(rows[b], t.entries[t.order[b]]);
      }
    }
    SortStatsDistinct(rows, sortBy, order == "desc");
    var h := cs[i].heroId;
    TallySums(cs, h, UseCount);
    var j :| 0 <= j < |t.order| && t.order[j] == h;
    assert SameCounters(rows[j], t.entries[h]);
    assert rows[j] in multiset(SortStats(rows, sortBy, order == "desc"));
  }

  /** The result is ordered by the chosen field (descending when asked) and, among entries
      with equal keys, keeps the order in which their heroes were first met. */
  lemma HeroesOrdered(id: int, matches: seq<RawMatch>, sortBy: SortField, order: string, v: real)
    requires PlayerHeroesSpec(id, matches, sortBy, order).Ok?
    ensures Sorted(PlayerHeroesSpec(id, matches, sortBy, order).value, sortBy, order == "desc")
    ensures var t := TallyOf(ContributionsOf(matches, id).value);
            WithKey(PlayerHeroesSpec(id, matches, sortBy, order).value, sortBy, v)
            == WithKey(FinalizeEach(t.order, t.entries, |matches|).value, sortBy, v)
  {
    var cs, t, rows := Unfold(id, matches, sortBy, order);
    SortStatsSorted(rows, sortBy, order == "desc");
    SortStatsStable(rows, sortBy, order == "desc", v);
  }

  function PercSum(s: seq<HeroStats>): int
  {
    if s == [] then 0 else s[0].perc + PercSum(s[1..])
  }

  lemma {:induction false} PercSumBound(s: seq<HeroStats>, total: nat)
    requires forall x :: x in s ==> x.perc * total <= 100 * x.use
    ensures PercSum(s) * total <= 100 * UseSum(s)
  {
    if s != [] {
      assert s[0] in s;
      PercSumBound(s[1..], total);
      calc {
        PercSum(s) * total;
        s[0].perc * total + PercSum(s[1..]) * total;
      <= 100 * s[0].use + 100 * UseSum(s[1..]);
        100 * UseSum(s);
      }
    }
  }

  /** The percentages of all entries, each truncated, add up to at most 100. */
  lemma HeroesPercentTotal(id: int, matches: seq<RawMatch>, sortBy: SortField, order: string)
    requires PlayerHeroesSpec(id, matches, sortBy, order).Ok?
    requires |matches| > 0
    ensures PercSum(PlayerHeroesSpec(id, matches, sortBy, order).value) <= 100
  {
    var cs, t, rows := Unfold(id, matches, sortBy, order);
    var result := SortStats(rows, sortBy, order == "desc");
    forall x | x in result
      ensures x.perc * |matches| <= 100 * x.use
    {
      assert x in multiset(rows);
      var i :| 0 <= i < |rows| && rows[i] == x;
      assert Finalized(t.entries[t.order[i]], |matches|) == Ok(x);
    }
    PercSumBound(result, |matches|);
    HeroesUseTotal(id, matches, sortBy, order);
    LeFromMul(PercSum(result), 100, |matches|);
  }

  /** An entry whose matches add no playing time makes the whole call raise. The record of a
      match whose data was not found becomes the sentinel, which reports hero 0 and no
      duration, so a history holding one raises unless hero 0 also has real playing time. */
  lemma NoPlayingTimeRaises(id: int, matches: seq<RawMatch>, sortBy: SortField, order: string, i: nat)
    requires ContributionsOf(matches, id).Ok?
    requires i < |matches|
    requires SumFor(ContributionsOf(matches, id).value, ContributionsOf(matches, id).value[i].heroId, TimeSum) == 0
    ensures PlayerHeroesSpec(id, matches, sortBy, order) == Err(ZeroDivisionError)
  {
    var cs := ContributionsOf(matches, id).value;
    EntryWithoutTime(cs, cs[i].heroId, |matches|);
  }

  lemma EntryWithoutTime(cs: seq<Contribution>, h: int, total: nat)
    requires exists i :: 0 <= i < |cs| && cs[i].heroId == h
    requires SumFor(cs, h, TimeSum) == 0
    ensures FinalizeEach(TallyOf(cs).order, TallyOf(cs).entries, total) == Err(ZeroDivisionError)
  {
    var t := TallyOf(cs);
    TallySums(cs, h, TimeSum);
    assert Count(t.entries[h], TimeSum) == 0;
    var j :| 0 <= j < |t.order| && t.order[j] == h;
    assert Finalized(t.entries[t.order[j]], total).Err?;
  }

  /** A history made of one match whose data was not found. */
  lemma MissingMatchRaises(id: int)
    ensures PlayerHeroesSpec(id, [NoData], ByUse, "asc") == Err(ZeroDivisionError)
  {
    NoPlayingTimeRaises(id, [NoData], ByUse, "asc", 0);
  }

  /** One more match of the history extends the contributions and the first pass by one step. */
  lemma ContributionsExtend(matches: seq<RawMatch>, i: nat, id: int, cs: seq<Contribution>, c: Contribution)
    requires i < |matches|
    requires ContributionsOf(matches[..i], id) == Ok(cs)
    requires ContributionOf(CreateMatch(matches[i]), id) == Ok(c)
    ensures ContributionsOf(matches[..i + 1], id) == Ok(cs + [c])
    ensures TallyOf(cs + [c]) == Step(TallyOf(cs), c)
  {
    assert matches[..i + 1][..i] == matches[..i];
    assert matches[..i + 1][i] == matches[i];
    assert (cs + [c])[..|cs|] == cs;
  }

  /** Step written as the source's updates: the zero entry stored first when the hero is new,
      then the entry read back and replaced by its sum. */
  lemma StepInPlace(t: Tally, c: Contribution)
    requires WellFormed(t)
    ensures var h := c.heroId;
            var table := if h in t.entries then t.entries else t.entries[h := NewEntry(h)];
            var order := if h in t.entries then t.order else t.order + [h];
            Step(t, c) == Tally(order, table[h := Accumulate(table[h], c)])
  {
  }

  /** The first loop of playerheroes: each match's contribution summed into its hero's entry,
      heroes kept in the order they were first met. */
  method SumMatches(id: int, matches: seq<RawMatch>) returns (r: Result<Tally>)
    ensures r == match ContributionsOf(matches, id)
                 case Err(e) => Err(e)
                 case Ok(cs) => Ok(TallyOf(cs))
  {
    var playerHero: map<int, HeroStats> := map[];
    var seen: seq<int> := [];
    ghost var cs: seq<Contribution> := [];
    for i := 0 to |matches|
      invariant ContributionsOf(matches[..i], id) == Ok(cs)
      invariant TallyOf(cs) == Tally(seen, playerHero)
    {
      var c := ContributionOf(CreateMatch(matches[i]), id);
      if c.Err? {
        assert !ContributionOf(CreateMatch(matches[i]), id).Ok?;
        return Err(c.error);
      }
      StepInPlace(Tally(seen, playerHero), c.value);
      var heroId := c.value.heroId;
      if heroId !in playerHero {
        playerHero := playerHero[heroId := NewEntry(heroId)];
        seen := seen + [heroId];
      }
      playerHero := playerHero[heroId := Accumulate(playerHero[heroId], c.value)];
      ContributionsExtend(matches, i, id, cs, c.value);
      cs := cs + [c.value];
    }
    assert matches[..|matches|] == matches;
    r := Ok(Tally(seen, playerHero));
  }

  /** The second loop of playerheroes: the rates written into every entry in turn, the
      entries then listed in the dict's order. */
  method FinalizeEntries(order: seq<int>, entries: map<int, HeroStats>, total: nat)
    returns (r: Result<seq<HeroStats>>)
    requires forall i :: 0 <= i < |order| ==> order[i] in entries
    requires forall i, j :: 0 <= i < j < |order| ==> order[i] != order[j]
    ensures r == FinalizeEach(order, entries, total)
  {
    var table := entries;
    for j := 0 to |order|
      invariant table.Keys == entries.Keys
      invariant forall k :: 0 <= k < j ==> Finalized(entries[order[k]], total) == Ok(table[order[k]])
      invariant forall k :: j <= k < |order| ==> table[order[k]] == entries[order[k]]
    {
      var stats := Finalized(table[order[j]], total);
      if stats.Err? {
        assert !Finalized(entries[order[j]], total).Ok?;
        return Err(stats.error);
      }
      table := table[order[j] := stats.value];
    }
    var rows := seq(|order|, k requires 0 <= k < |order| => table[order[k]]);
    assert FinalizeEach(order, entries, total).Ok?;
    assert rows == FinalizeEach(order, entries, total).value;
    r := Ok(rows);
  }

  /** Player.playerheroes over the records of the player's match history, in the order the
      history dict yields them: the two passes, then the entries sorted by the field,
      descending when asked. */
  method PlayerHeroes(p: Players.Player, matches: seq<RawMatch>, sortBy: SortField, order: string)
    returns (r: Result<seq<HeroStats>>)
    ensures r == match Players.AccountId(p)
                 case Err(e) => Err(e)
                 case Ok(id) => PlayerHeroesSpec(id, matches, sortBy, order)
  {
    var account := Players.AccountId(p);
    if account.Err? {
      return Err(account.error);
    }
    var tally := SumMatches(account.value, matches);
    if tally.Err? {
      return Err(tally.error);
    }
    var rows := FinalizeEntries(tally.value.order, tally.value.entries, |matches|);
    if rows.Err? {
      return Err(rows.error);
    }
    r := Ok(SortStats(rows.value, sortBy, order == "desc"));
  }
}
