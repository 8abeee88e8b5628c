/** The average line of the console's match listing (text.py): an accumulator created with
    zeros and placeholders, filled with the numbers of each match of a window of the history,
    then divided by the window's size. */
module Averages {
  import opened Common
  import opened Numeric
  import opened Matches

  /** Durations are summed as timedeltas, whose unit is the microsecond. */
  function Micros(seconds: int): int
  {
    seconds * 1_000_000
  }

  /** A number of microseconds that makes whole seconds. */
  predicate WholeSeconds(micros: int)
  {
    micros % 1_000_000 == 0
  }

  /** The fields fillavgdata sums: the duration in microseconds, then the counters. */
  datatype Totals = Totals(gd: int, k: int, d: int, a: int, wa: int, ck: int, cd: int, gpm: int)

  const NoTotals: Totals := Totals(0, 0, 0, 0, 0, 0, 0, 0)

  datatype Summed = Gd | K | D | A | Wa | Ck | Cd | Gpm

  function Of(t: Totals, f: Summed): int
  {
    match f
    case Gd => t.gd
    case K => t.k
    case D => t.d
    case A => t.a
    case Wa => t.wa
    case Ck => t.ck
    case Cd => t.cd
    case Gpm => t.gpm
  }

  /** What one line adds to a summed field. */
  function Amount(line: MatchLine, f: Summed): int
  {
    match f
    case Gd => Micros(line.gd)
    case K => line.k
    case D => line.d
    case A => line.a
    case Wa => line.wa
    case Ck => line.ck
    case Cd => line.cd
    case Gpm => line.gpm
  }

  function Add(t: Totals, line: MatchLine): Totals
  {
    Totals(t.gd + Micros(line.gd), t.k + line.k, t.d + line.d, t.a + line.a,
           t.wa + line.wa, t.ck + line.ck, t.cd + line.cd, t.gpm + line.gpm)
  }

  /** The accumulator after filling in every line, in order: zero for no lines, the sum of
      the others and the last line otherwise. */
  function Total(lines: seq<MatchLine>): (t: Totals)
  {
    if lines == [] then NoTotals else Add(Total(lines[..|lines| - 1]), lines[|lines| - 1])
  }

  /** The summed duration is a whole number of seconds. */
  lemma {:induction false} TotalWholeSeconds(lines: seq<MatchLine>)
    ensures WholeSeconds(Total(lines).gd)
  {
    if lines != [] {
      TotalWholeSeconds(lines[..|lines| - 1]);
    }
  }

  function Combine(t: Totals, u: Totals): Totals
  {
    Totals(t.gd + u.gd, t.k + u.k, t.d + u.d, t.a + u.a, t.wa + u.wa, t.ck + u.ck, t.cd + u.cd, t.gpm + u.gpm)
  }

  /** Filling in two runs of lines adds the totals of each run. */
  lemma {:induction false} TotalAppend(xs: seq<MatchLine>, ys: seq<MatchLine>)
    ensures Total(xs + ys) == Combine(Total(xs), Total(ys))
  {
    if ys == [] {
      assert xs + ys == xs;
    } else {
      var init := ys[..|ys| - 1];
      var last := ys[|ys| - 1];
      assert (xs + ys)[..|xs + ys| - 1] == xs + init;
      assert (xs + ys)[|xs + ys| - 1] == last;
      TotalAppend(xs, init);
      assert Total(xs + ys) == Add(Combine(Total(xs), Total(init)), last);
    }
  }

  /** The totals do not depend on the order in which the lines are filled in. */
  lemma TotalOrderFree(xs: seq<MatchLine>, ys: seq<MatchLine>)
    ensures Total(xs + ys) == Total(ys + xs)
  {
    TotalAppend(xs, ys);
    TotalAppend(ys, xs);
  }

  lemma OfAdd(t: Totals, line: MatchLine, f: Summed)
    ensures Of(Add(t, line), f) == Of(t, f) + Amount(line, f)
  {
  }

  /** Each summed field of the totals lies between the line count times the smallest and
      times the largest amount of a line. */
  lemma {:induction false} TotalWithin(lines: seq<MatchLine>, f: Summed, lo: int, hi: int)
    requires forall i :: 0 <= i < |lines| ==> lo <= Amount(lines[i], f) <= hi
    ensures |lines| * lo <= Of(Total(lines), f) <= |lines| * hi
  {
    if lines != [] {
      var init := lines[..|lines| - 1];
      var last := lines[|lines| - 1];
      assert forall i :: 0 <= i < |init| ==> init[i] == lines[i];
      TotalWithin(init, f, lo, hi);
      OfAdd(Total(init), last, f);
      MulSucc(|init|, lo);
      MulSucc(|init|, hi);
    }
  }

  /** What finalizeavgdata leaves in the accumulator when it succeeds: the duration divided
      by the window rounded half to even, the counters divided and truncated, kills per death
      of the averaged kills and deaths. */
  datatype Averages = Averages(gd: int, k: int, d: int, a: int, kdr: real, wa: int, ck: int, cd: int, gpm: int)

  /** q is sum / limit truncated toward zero. */
  ghost predicate TruncatedMean(q: int, sum: int, limit: int)
  {
    && limit != 0
    && Abs(q) * Abs(limit) <= Abs(sum) < (Abs(q) + 1) * Abs(limit)
    && (q == 0 || ((q > 0) <==> ((sum > 0) == (limit > 0))))
  }

  lemma TruncDivIsMean(sum: int, limit: int)
    requires limit != 0
    ensures TruncatedMean(TruncDiv(sum, limit), sum, limit)
  {
  }

  /** finalizeavgdata as a value: the window must not be empty, nor may the averaged deaths
      be zero; both failures raise ZeroDivisionError. */
  function AverageOf(t: Totals, limit: int): (r: Result<Averages>)
    ensures r.Err? <==> limit == 0 || TruncDiv(t.d, limit) == 0
    ensures r.Err? ==> r == Err(ZeroDivisionError)
    ensures r.Ok? ==> Abs(2 * (t.gd - r.value.gd * limit)) <= Abs(limit)
    ensures r.Ok? ==> && TruncatedMean(r.value.k, t.k, limit) && TruncatedMean(r.value.d, t.d, limit)
                      && TruncatedMean(r.value.a, t.a, limit) && TruncatedMean(r.value.wa, t.wa, limit)
                      && TruncatedMean(r.value.ck, t.ck, limit) && TruncatedMean(r.value.cd, t.cd, limit)
                      && TruncatedMean(r.value.gpm, t.gpm, limit)
    ensures r.Ok? ==> r.value.d != 0 && r.value.kdr == r.value.k as real / r.value.d as real
  {
    if limit == 0 then Err(ZeroDivisionError)
    else
      var k := TruncDiv(t.k, limit);
      var d := TruncDiv(t.d, limit);
      if d == 0 then Err(ZeroDivisionError)
      else
        TruncDivIsMean(t.k, limit);
        TruncDivIsMean(t.d, limit);
        TruncDivIsMean(t.a, limit);
        TruncDivIsMean(t.wa, limit);
        TruncDivIsMean(t.ck, limit);
        TruncDivIsMean(t.cd, limit);
        TruncDivIsMean(t.gpm, limit);
        Ok(Averages(DivideAndRound(t.gd, limit), k, d, TruncDiv(t.a, limit), k as real / d as real,
                    TruncDiv(t.wa, limit), TruncDiv(t.ck, limit), TruncDiv(t.cd, limit),
                    TruncDiv(t.gpm, limit)))
  }

  /** When every match of the window was read and each adds between lo and hi (lo not
      negative) to a counter, the averaged counter lies between lo and hi too. */
  lemma MeanWithin(lines: seq<MatchLine>, f: Summed, lo: nat, hi: int)
    requires f != Gd && |lines| > 0
    requires forall i :: 0 <= i < |lines| ==> lo <= Amount(lines[i], f) <= hi
    ensures lo <= TruncDiv(Of(Total(lines), f), |lines|) <= hi
  {
    var n := |lines|;
    var s := Of(Total(lines), f);
    TotalWithin(lines, f, lo, hi);
    var q := TruncDiv(s, n);
    assert 0 <= s;
    assert q * n <= s < (q + 1) * n;
    assert n * hi == hi * n && n * lo == lo * n;
    LeFromMul(q, hi, n);
    LtFromMul(lo, q + 1, n);
  }

  /** Kills per death comes from the averaged, truncated kills and deaths and not from the
      kills per death of each match: kills 2, 4, 6 and deaths 1, 2, 3 give 4 kills, 2 deaths
      and 2 kills per death. */
  lemma KdrFromAverages(l1: MatchLine, l2: MatchLine, l3: MatchLine)
    requires l1.k == 2 && l2.k == 4 && l3.k == 6 && l1.d == 1 && l2.d == 2 && l3.d == 3
    ensures AverageOf(Total([l1, l2, l3]), 3).Ok?
    ensures AverageOf(Total([l1, l2, l3]), 3).value.k == 4
    ensures AverageOf(Total([l1, l2, l3]), 3).value.d == 2
    ensures AverageOf(Total([l1, l2, l3]), 3).value.kdr == 2.0
  {
    assert [l1, l2, l3][..2] == [l1, l2];
    assert [l1, l2][..1] == [l1];
    assert [l1][..0] == [];
    assert Total([l1]) == Add(NoTotals, l1);
    assert Total([l1, l2]) == Add(Total([l1]), l2);
    assert Total([l1, l2, l3]) == Add(Total([l1, l2]), l3);
    var t := Total([l1, l2, l3]);
    assert t.k == 12 && t.d == 6;
    assert TruncDiv(12, 3) == 4 && TruncDiv(6, 3) == 2;
  }

  /** The divisor counts every match of the window, read or not: widening the window over
      the same totals cannot raise a non-negative averaged counter. */
  lemma WiderWindowLowersMean(t: Totals, w1: int, w2: int)
    requires 0 < w1 <= w2 && t.k >= 0
    ensures TruncDiv(t.k, w2) <= TruncDiv(t.k, w1)
  {
    var q1 := TruncDiv(t.k, w1);
    var q2 := TruncDiv(t.k, w2);
    assert q1 >= 0;
    assert q2 * w2 <= t.k < (q1 + 1) * w1;
    MulMonotone(w1, w2, q1 + 1);
    assert (q1 + 1) * w1 <= (q1 + 1) * w2;
    LtFromMul(q2, q1 + 1, w2);
  }

  /** The dict text.py keeps while averaging a window of matches. */
  class AvgData {
    var mid: int
    var gt: string
    var gd: int
    var date: string
    var k: int
    var d: int
    var a: int
    var kdr: real
    var hero: string
    var wl: string
    var wa: int
    var ck: int
    var cd: int
    var gpm: int

    /** The summed fields. */
    function Sums(): Totals
      reads this
    {
      Totals(gd, k, d, a, wa, ck, cd, gpm)
    }

    /** The fields finalizeavgdata computes. */
    function Current(): Averages
      reads this
    {
      Averages(gd, k, d, a, kdr, wa, ck, cd, gpm)
    }

    /** The fields no row fills in keep the placeholders they were created with. */
    predicate Placeholders()
      reads this
    {
      mid == 0 && gt == "--" && date == "" && hero == "" && wl == "-"
    }

    /** initavgdata: every number zero, the duration zero, the texts placeholders. */
    constructor ()
      ensures Sums() == NoTotals && kdr == 0.0 && Placeholders()
    {
      mid := 0;
      gt := "--";
      gd := 0;
      date := "";
      k := 0;
      d := 0;
      a := 0;
      kdr := 0.0;
      hero := "";
      wl := "-";
      wa := 0;
      ck := 0;
      cd := 0;
      gpm := 0;
    }

    /** fillavgdata: the line's duration and counters added in; mid, gt, date, kdr, hero and
        wl untouched. */
    method Fill(line: MatchLine)
      modifies this
      ensures Sums() == Add(old(Sums()), line)
      ensures unchanged(this`mid, this`gt, this`date, this`kdr, this`hero, this`wl)
    {
      gd, k, d, a := gd + Micros(line.gd), k + line.k, d + line.d, a + line.a;
      wa, ck, cd, gpm := wa + line.wa, ck + line.ck, cd + line.cd, gpm + line.gpm;
    }

    /** finalizeavgdata: the fields are replaced one by one, so a zero averaged death count
        raises after the duration, kills, deaths and assists were already replaced. */
    method Finalize(limit: int) returns (r: Outcome)
      modifies this
      ensures unchanged(this`mid, this`gt, this`date, this`hero, this`wl)
      ensures r == Pass <==> AverageOf(old(Sums()), limit).Ok?
      ensures r == Pass ==> Current() == AverageOf(old(Sums()), limit).value
      ensures r.Fail? ==> r.error == ZeroDivisionError
      ensures limit == 0 ==> unchanged(this)
      ensures limit != 0 && r.Fail? ==>
        && gd == DivideAndRound(old(gd), limit) && k == TruncDiv(old(k), limit)
        && d == 0 && a == TruncDiv(old(a), limit)
        && unchanged(this`kdr, this`wa, this`ck, this`cd, this`gpm)
    {
      if limit == 0 {
        return Fail(ZeroDivisionError);
      }
      gd, k, d, a := DivideAndRound(gd, limit), TruncDiv(k, limit), TruncDiv(d, limit), TruncDiv(a, limit);
      if d == 0 {
        return Fail(ZeroDivisionError);
      }
      kdr := k as real / d as real;
      wa, ck, cd, gpm := TruncDiv(wa, limit), TruncDiv(ck, limit), TruncDiv(cd, limit), TruncDiv(gpm, limit);
      r := Pass;
    }
  }

  /** The window of matchesinfo: the given limit capped by the history's length, the whole
      history when no limit (or zero) is given. */
  function Window(limit: Option<int>, n: nat): (w: int)
    ensures w <= n
    ensures (limit.None? || limit == Some(0)) ==> w == n
    ensures limit.Some? && 0 < limit.value ==> 0 < w || n == 0
    ensures limit.Some? && limit.value != 0 ==> w <= limit.value
    ensures limit.Some? && limit.value != 0 ==> w == limit.value || w == n
  {
    if limit.Some? && limit.value != 0 then (if limit.value < n then limit.value else n) else n
  }

  /** The windows of several players' averages as matchesinfo computes them: the capped
      window of one player is stored back into the limit and so becomes the next player's. */
  function WindowsAsWritten(limit: Option<int>, lengths: seq<nat>): (ws: seq<int>)
    ensures |ws| == |lengths|
    ensures |lengths| > 0 ==> ws[0] == Window(limit, lengths[0])
    decreases |lengths|
  {
    if lengths == [] then []
    else
      var w := Window(limit, lengths[0]);
      [w] + WindowsAsWritten(Some(w), lengths[1..])
  }

  /** As written, once a player's window is not empty no later window is wider. */
  lemma {:induction false} WindowsAsWrittenShrink(limit: Option<int>, lengths: seq<nat>, i: nat)
    requires 0 < i < |lengths|
    requires WindowsAsWritten(limit, lengths)[i - 1] != 0
    ensures WindowsAsWritten(limit, lengths)[i] <= WindowsAsWritten(limit, lengths)[i - 1]
    decreases i
  {
    var w := Window(limit, lengths[0]);
    var rest := WindowsAsWritten(Some(w), lengths[1..]);
    assert WindowsAsWritten(limit, lengths) == [w] + rest;
    if i > 1 {
      WindowsAsWrittenShrink(Some(w), lengths[1..], i - 1);
    }
  }

  /** Without a limit, a player with two matches listed before one with five caps the
      second player's average at two matches. */
  lemma WindowLeaksAsWritten()
    ensures WindowsAsWritten(None, [2, 5]) == [2, 2]
    ensures WindowsPerPlayer(None, [2, 5]) == [2, 5]
  {
    assert [2, 5][1..] == [5];
    assert WindowsAsWritten(Some(2), [5]) == [2] + WindowsAsWritten(Some(2), []);
  }

  /** The windows as intended: each player's own history capped by the given limit. */
  function WindowsPerPlayer(limit: Option<int>, lengths: seq<nat>): (ws: seq<int>)
    ensures |ws| == |lengths|
    ensures forall i :: 0 <= i < |lengths| ==> ws[i] == Window(limit, lengths[i])
    ensures forall i :: 0 <= i < |lengths| ==> ws[i] <= lengths[i]
    ensures limit.None? ==> forall i :: 0 <= i < |lengths| ==> ws[i] == lengths[i]
    ensures forall i :: 0 <= i < |lengths| && limit.Some? && 0 < limit.value <= lengths[i] ==> ws[i] == limit.value
  {
    if lengths == [] then []
    else [Window(limit, lengths[0])] + WindowsPerPlayer(limit, lengths[1..])
  }

  /** How many matches the loop over range(window) visits. */
  function Visited(w: int): nat
  {
    if w < 0 then 0 else w
  }

  function RecordCount(matches: seq<RawMatch>): nat
  {
    if matches == [] then 0
    else RecordCount(matches[..|matches| - 1]) + (if matches[|matches| - 1].Record? then 1 else 0)
  }

  /** The lines of the matches that were read, in order; a match whose data is missing adds
      nothing; the first failing line stops everything. */
  function LinesOf(matches: seq<RawMatch>, id: int): (r: Result<seq<MatchLine>>)
    ensures r.Ok? <==> forall i :: 0 <= i < |matches| && matches[i].Record? ==> MatchLineOf(matches[i], id).Ok?
    ensures r.Ok? ==> |r.value| == RecordCount(matches)
    ensures r.Ok? ==> forall i :: 0 <= i < |matches| && matches[i].Record? ==>
              && RecordCount(matches[..i]) < |r.value| && MatchLineOf(matches[i], id).Ok?
              && r.value[RecordCount(matches[..i])] == MatchLineOf(matches[i], id).value
  {
    if matches == [] then Ok([])
    else
      var last := |matches| - 1;
      assert forall i :: 0 <= i < last ==> matches[..last][i] == matches[i];
      assert forall i :: 0 <= i <= last ==> matches[..last][..i] == matches[..i];
      match LinesOf(matches[..last], id)
      case Err(e) => Err(e)
      case Ok(lines) =>
        if matches[last].NoData? then Ok(lines)
        else
          match MatchLineOf(matches[last], id)
          case Err(e) => Err(e)
          case Ok(line) => Ok(lines + [line])
  }

  lemma LinesStep(matches: seq<RawMatch>, i: nat, id: int)
    requires i < |matches|
    ensures LinesOf(matches[..i + 1], id)
            == match LinesOf(matches[..i], id)
               case Err(e) => Err(e)
               case Ok(lines) =>
                 if matches[i].NoData? then Ok(lines)
                 else match MatchLineOf(matches[i], id)
                      case Err(e) => Err(e)
                      case Ok(line) => Ok(lines + [line])
  {
    assert matches[..i + 1][..i] == matches[..i];
  }

  lemma LinesStaysFailed(matches: seq<RawMatch>, i: nat, id: int)
    requires i < |matches| && LinesOf(matches[..i], id).Err?
    ensures LinesOf(matches[..i + 1], id) == LinesOf(matches[..i], id)
  {
    assert matches[..i + 1][..i] == matches[..i];
  }

  /** A failure in a prefix is the failure of every longer prefix. */
  lemma {:induction false} LinesErrorPersists(matches: seq<RawMatch>, i: nat, j: nat, id: int)
    requires i <= j <= |matches|
    requires LinesOf(matches[..i], id).Err?
    ensures LinesOf(matches[..j], id) == LinesOf(matches[..i], id)
  {
    if i < j {
      LinesErrorPersists(matches, i, j - 1, id);
      LinesStaysFailed(matches, j - 1, id);
    }
  }

  /** The averaging part of matchesinfo for one player: the window chosen, every match of
      the window whose data was read filled into a fresh accumulator, then the accumulator
      divided by the window's size. */
  method WindowAverage(matches: seq<RawMatch>, id: int, limit: Option<int>) returns (avg: AvgData, r: Outcome)
    ensures fresh(avg)
    ensures avg.Placeholders()
    ensures var w := Window(limit, |matches|);
            match LinesOf(matches[..Visited(w)], id)
            case Err(e) => r == Fail(e)
            case Ok(lines) =>
              && (r == Pass <==> AverageOf(Total(lines), w).Ok?)
              && (r == Pass ==> avg.Current() == AverageOf(Total(lines), w).value)
              && (r.Fail? ==> r == Fail(ZeroDivisionError))
  {
    avg := new AvgData();
    var w := Window(limit, |matches|);
    ghost var lines: seq<MatchLine> := [];
    for i := 0 to Visited(w)
      invariant LinesOf(matches[..i], id) == Ok(lines)
      invariant avg.Sums() == Total(lines)
      invariant avg.Placeholders()
    {
      LinesStep(matches, i, id);
      var m := CreateMatch(matches[i]);
      if m.Match? {
        var line := MatchLineOf(matches[i], id);
        if line.Err? {
          LinesErrorPersists(matches, i + 1, Visited(w), id);
          return avg, Fail(line.error);
        }
        avg.Fill(line.value);
        assert (lines + [line.value])[..|lines|] == lines;
        lines := lines + [line.value];
      }
    }
    r := avg.Finalize(w);
  }
}
