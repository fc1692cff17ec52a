/**
 The statistics of a rule as a summary of what happened to it: the blocks and
 delays recorded while it was the first rule with its number, since it was added
 or last reset.
 */
module Statistics {
  import opened CTypes
  import opened Rules
  import opened Registry

  datatype Event =
    | AddRule(rule: Rule)
    | RemoveRule(num: int)
    | Blocked(num: int, gauge: Int32)                            // update_thread_stats
    | Delayed(num: int, delay: Word, uid: Int32, comm: string)   // update_peak_delay
    | ResetStats(num: int)                                       // reset_rule_stats

  /** The list, with an identifier for each rule that is never used again. */
  datatype Tracked = Tracked(ids: seq<nat>, view: seq<RuleState>, next: nat)

  function Step(t: Tracked, e: Event): (t': Tracked)
    requires |t.ids| == |t.view|
    ensures |t'.ids| == |t'.view|
  {
    match e
    case AddRule(rule) => Tracked(t.ids + [t.next], t.view + [FreshRule(rule)], t.next + 1)
    case RemoveRule(num) =>
      var i := Numbered(t.view, num);
      if i < |t.view| then t.(ids := RemoveAt(t.ids, i), view := RemoveAt(t.view, i)) else t
    case Blocked(num, gauge) => t.(view := WithStats(t.view, num, st => OnBlock(st, gauge)))
    case Delayed(num, delay, uid, comm) => t.(view := WithStats(t.view, num, st => OnDelay(st, delay, uid, Some(comm))))
    case ResetStats(num) =>
      var i := Numbered(t.view, num);
      if i < |t.view| then t.(view := t.view[i := FreshRule(t.view[i].rule)]) else t
  }

  function After(history: seq<Event>): (t: Tracked)
    ensures |t.ids| == |t.view|
  {
    if history == [] then Tracked([], [], 0)
    else Step(After(history[..|history| - 1]), history[|history| - 1])
  }

  // ------------------------------------------------------------ the event log

  datatype Sample = Gauge(value: Int32) | Delay(cycles: Word, uid: Int32, comm: string)

  /** The event concerns the rule `id`: it is the first with the event's number. */
  predicate Concerns(t: Tracked, num: int, id: nat)
    requires |t.ids| == |t.view|
  {
    var i := Numbered(t.view, num);
    i < |t.view| && t.ids[i] == id
  }

  /** What has been recorded against the rule since it was added or last reset. */
  function LogOf(history: seq<Event>, id: nat): seq<Sample> {
    if history == [] then []
    else
      var t, e := After(history[..|history| - 1]), history[|history| - 1];
      var log := LogOf(history[..|history| - 1], id);
      match e
      case AddRule(_) => if t.next == id then [] else log
      case RemoveRule(_) => log
      case Blocked(num, gauge) => if Concerns(t, num, id) then log + [Gauge(gauge)] else log
      case Delayed(num, delay, uid, comm) => if Concerns(t, num, id) then log + [Delay(delay, uid, comm)] else log
      case ResetStats(num) => if Concerns(t, num, id) then [] else log
  }

  function CountOf(log: seq<Sample>): nat {
    if log == [] then 0
    else CountOf(log[..|log| - 1]) + (if log[|log| - 1].Gauge? then 1 else 0)
  }

  function SumOf(log: seq<Sample>): int {
    if log == [] then 0
    else SumOf(log[..|log| - 1]) + (if log[|log| - 1].Gauge? then log[|log| - 1].value else 0)
  }

  /** The peak is the largest gauge, or 0 if none exceeds it. */
  ghost predicate PeakIsMax(peak: int, log: seq<Sample>) {
    && peak >= 0
    && (forall i :: 0 <= i < |log| && log[i].Gauge? ==> log[i].value <= peak)
    && (peak > 0 ==> exists i :: 0 <= i < |log| && log[i].Gauge? && log[i].value == peak)
  }

  /** The i-th sample is the earliest of the largest delays, and the victim's data are its own. */
  ghost predicate IsVictim(delay: Word, uid: Int32, comm: string, log: seq<Sample>, i: nat) {
    && i < |log| && log[i].Delay?
    && log[i].cycles == delay
    && log[i].uid == uid
    && Truncate(log[i].comm) == comm
    && forall j :: 0 <= j < i && log[j].Delay? ==> log[j].cycles < delay
  }

  ghost predicate DelayIsMax(delay: Word, uid: Int32, comm: string, log: seq<Sample>) {
    && (forall i :: 0 <= i < |log| && log[i].Delay? ==> log[i].cycles <= delay)
    && (delay > 0 ==> exists i: nat :: IsVictim(delay, uid, comm, log, i))
    && (delay == 0 ==> uid == -1 && comm == "")
  }

  ghost predicate PeaksMatch(st: Stats, log: seq<Sample>) {
    && PeakIsMax(st.peakBlocked, log)
    && DelayIsMax(st.peakDelay, st.victimUid, st.victimComm, log)
  }

  ghost predicate Summarises(st: Stats, log: seq<Sample>) {
    && st.events == CountOf(log) % TWO_64
    && st.sumBlocked == SumOf(log) % TWO_64
    && PeaksMatch(st, log)
  }

  lemma GaugeKeepsTotals(st: Stats, log: seq<Sample>, gauge: Int32)
    requires st.events == CountOf(log) % TWO_64 && st.sumBlocked == SumOf(log) % TWO_64
    ensures var st', log' := OnBlock(st, gauge), log + [Gauge(gauge)];
            st'.events == CountOf(log') % TWO_64 && st'.sumBlocked == SumOf(log') % TWO_64
  {
    assert (log + [Gauge(gauge)])[..|log|] == log;
  }

  lemma GaugeKeepsPeaks(st: Stats, log: seq<Sample>, gauge: Int32)
    requires PeaksMatch(st, log)
    ensures PeaksMatch(OnBlock(st, gauge), log + [Gauge(gauge)])
  {
    var log' := log + [Gauge(gauge)];
    assert log'[|log|] == Gauge(gauge);
    assert forall i :: 0 <= i < |log| ==> log'[i] == log[i];
    if st.peakDelay > 0 {
      var i: nat :| IsVictim(st.peakDelay, st.victimUid, st.victimComm, log, i);
      assert IsVictim(st.peakDelay, st.victimUid, st.victimComm, log', i);
    }
  }

  lemma DelayKeepsTotals(st: Stats, log: seq<Sample>, delay: Word, uid: Int32, comm: string)
    requires st.events == CountOf(log) % TWO_64 && st.sumBlocked == SumOf(log) % TWO_64
    ensures var st', log' := OnDelay(st, delay, uid, Some(comm)), log + [Delay(delay, uid, comm)];
            st'.events == CountOf(log') % TWO_64 && st'.sumBlocked == SumOf(log') % TWO_64
  {
    assert (log + [Delay(delay, uid, comm)])[..|log|] == log;
  }

  lemma DelayKeepsPeaks(st: Stats, log: seq<Sample>, delay: Word, uid: Int32, comm: string)
    requires PeaksMatch(st, log)
    ensures PeaksMatch(OnDelay(st, delay, uid, Some(comm)), log + [Delay(delay, uid, comm)])
  {
    var st', log' := OnDelay(st, delay, uid, Some(comm)), log + [Delay(delay, uid, comm)];
    assert log'[|log|] == Delay(delay, uid, comm);
    assert forall i :: 0 <= i < |log| ==> log'[i] == log[i];
    if delay > st.peakDelay {
      assert IsVictim(st'.peakDelay, st'.victimUid, st'.victimComm, log', |log|);
    } else if st.peakDelay > 0 {
      var i: nat :| IsVictim(st.peakDelay, st.victimUid, st.victimComm, log, i);
      assert IsVictim(st.peakDelay, st.victimUid, st.victimComm, log', i);
    }
  }

  lemma NothingRecorded()
    ensures Summarises(NO_STATS, [])
  {
  }

  // ------------------------------------------------------------- main result

  ghost predicate IdsInv(t: Tracked) {
    && |t.ids| == |t.view|
    && (forall i :: 0 <= i < |t.ids| ==> t.ids[i] < t.next)
    && (forall i, j :: 0 <= i < j < |t.ids| ==> t.ids[i] != t.ids[j])
  }

  lemma {:induction false} IdsAreUnique(history: seq<Event>)
    ensures IdsInv(After(history))
  {
    if history != [] {
      IdsAreUnique(history[..|history| - 1]);
    }
  }

  /** The k-th rule now was the h-th before the event. */
  lemma WhereBefore(t: Tracked, e: Event, k: nat) returns (h: nat)
    requires IdsInv(t) && k < |Step(t, e).ids| && Step(t, e).ids[k] != t.next
    ensures h < |t.ids| && t.ids[h] == Step(t, e).ids[k]
    ensures Step(t, e).view[k].rule == t.view[h].rule
    ensures e.AddRule? || e.RemoveRule? ==> Step(t, e).view[k] == t.view[h]
    ensures !e.RemoveRule? ==> h == k
  {
    h := k;
    if e.RemoveRule? {
      var i := Numbered(t.view, e.num);
      h := if i < |t.view| && k >= i then k + 1 else k;
    }
  }

  /** Statistics refine the log: in every state reached by any history, the statistics of each
      rule are the summary of its own samples. */
  lemma {:induction false} StatisticsRefineLog(history: seq<Event>, k: nat)
    requires k < |After(history).view|
    ensures Summarises(After(history).view[k].stats, LogOf(history, After(history).ids[k]))
  {
    var n := |history| - 1;
    var init := history[..n];
    var t, e := After(init), history[n];
    assert IdsInv(t) by { IdsAreUnique(init); }
    var id := After(history).ids[k];
    assert After(history) == Step(t, e);
    if id == t.next {
      NewRuleIsLast(t, e, k);
      NothingRecorded();
    } else {
      var h := WhereBefore(t, e, k);
      StatisticsRefineLog(init, h);
      if !e.AddRule? && !e.RemoveRule? {
        StepSummary(t, e, h, LogOf(init, id));
      }
    }
  }

  lemma NewRuleIsLast(t: Tracked, e: Event, k: nat)
    requires IdsInv(t) && k < |Step(t, e).ids| && Step(t, e).ids[k] == t.next
    ensures e.AddRule? && Step(t, e).view[k].stats == NO_STATS
  {
  }

  /** One event on a rule that is there before and after it. */
  lemma StepSummary(t: Tracked, e: Event, k: nat, log: seq<Sample>)
    requires IdsInv(t) && k < |t.view| && Summarises(t.view[k].stats, log)
    requires !e.AddRule? && !e.RemoveRule?
    ensures var st, id := Step(t, e).view[k].stats, t.ids[k];
            match e {
              case Blocked(num, gauge) => Summarises(st, if Concerns(t, num, id) then log + [Gauge(gauge)] else log)
              case Delayed(num, delay, uid, comm) =>
                Summarises(st, if Concerns(t, num, id) then log + [Delay(delay, uid, comm)] else log)
              case ResetStats(num) => Summarises(st, if Concerns(t, num, id) then [] else log)
              case _ => true
            }
  {
    var st := t.view[k].stats;
    match e
    case Blocked(num, gauge) =>
      GaugeKeepsTotals(st, log, gauge);
      GaugeKeepsPeaks(st, log, gauge);
    case Delayed(num, delay, uid, comm) =>
      DelayKeepsTotals(st, log, delay, uid, comm);
      DelayKeepsPeaks(st, log, delay, uid, comm);
    case ResetStats(num) => NothingRecorded();
  }

  // ------------------------------------------------------------- the report

  ghost predicate Positive(log: seq<Sample>) {
    forall i :: 0 <= i < |log| && log[i].Gauge? ==> log[i].value >= 1
  }

  lemma {:induction false} SumBounds(log: seq<Sample>, peak: int)
    requires Positive(log) && peak >= 1
    requires forall i :: 0 <= i < |log| && log[i].Gauge? ==> log[i].value <= peak
    ensures CountOf(log) <= SumOf(log) <= CountOf(log) * peak
  {
    if log != [] {
      var init := log[..|log| - 1];
      assert forall i :: 0 <= i < |init| ==> init[i] == log[i];
      SumBounds(init, peak);
      assert (CountOf(init) + 1) * peak == CountOf(init) * peak + peak;
    }
  }

  lemma QuotientBounds(sum: int, count: nat, peak: int)
    requires 1 <= count <= sum <= count * peak
    ensures 1 <= sum / count <= peak
  {
    var q := sum / count;
    assert q * count <= sum < (q + 1) * count;
    if q <= 0 {
      ProductsOrdered(q + 1, 1, count);
    }
    if q >= peak + 1 {
      ProductsOrdered(peak + 1, q, count);
    }
  }

  /** The reported average is the integer mean of the gauges, between 1 and the reported peak;
      with no gauge recorded it is 0. */
  ghost predicate AverageIsMean(r: Report, log: seq<Sample>) {
    if CountOf(log) == 0 then r.averageBlocked == 0
    else r.averageBlocked == SumOf(log) / CountOf(log) && 1 <= r.averageBlocked <= r.peakBlocked
  }

  lemma QuotientTimes(x: nat, d: nat)
    requires d > 0
    ensures x / d * d <= x < x / d * d + d
  {
  }

  /** Taking away more than the divisor lowers the quotient. */
  lemma QuotientFalls(x: nat, y: nat, d: nat)
    requires d > 0 && x + d <= y
    ensures x / d < y / d
  {
    QuotientTimes(x, d);
    QuotientTimes(y, d);
    if x / d >= y / d {
      ProductsOrdered(y / d, x / d, d);
    }
  }

  /** A sum that has lost a multiple of 2^64 gives too small an average. */
  lemma WrappedIsLess(sum: nat, count: nat)
    requires 0 < count < TWO_64 <= sum
    ensures sum % TWO_64 / count < sum / count
  {
    QuotientFalls(sum % TWO_64, sum, count);
  }

  lemma CastKeeps(x: Word)
    requires x <= INT_MAX
    ensures ToInt32(x) == x
  {
  }

  /** Whatever became of the sum, the cast of the average to `int` loses nothing. */
  lemma QuotientFits(sum: nat, count: nat, peak: Int32)
    requires 1 <= count <= sum <= count * peak && count < TWO_64
    ensures var q := sum % TWO_64 / count; 0 <= q <= INT_MAX && ToInt32(q) == q
  {
    var q := sum % TWO_64 / count;
    QuotientTimes(sum % TWO_64, count);
    QuotientBounds(sum, count, peak);
    assert q <= peak by {
      if sum >= TWO_64 {
        WrappedIsLess(sum, count);
      } else {
        assert sum % TWO_64 == sum;
      }
    }
    CastKeeps(q);
  }

  lemma AverageFits(st: Stats, log: seq<Sample>)
    requires Summarises(st, log) && Positive(log) && 0 < CountOf(log) < TWO_64
    ensures 0 <= SumOf(log) && ReportOf(st).averageBlocked == SumOf(log) % TWO_64 / CountOf(log)
    ensures 1 <= SumOf(log) / CountOf(log) <= st.peakBlocked
  {
    var sum, count := SumOf(log), CountOf(log);
    SumBounds(log, Max(1, st.peakBlocked));
    SomeGauge(log);
    QuotientBounds(sum, count, st.peakBlocked);
    QuotientFits(sum, count, st.peakBlocked);
    assert st.events == count && st.sumBlocked == sum % TWO_64;
  }

  /** As long as fewer than 2^64 gauges are recorded, the reported average is their integer mean,
      between 1 and the reported peak, if and only if the 64-bit sum has not wrapped. */
  lemma ReportIsMean(st: Stats, log: seq<Sample>)
    requires Summarises(st, log) && Positive(log) && CountOf(log) < TWO_64
    ensures AverageIsMean(ReportOf(st), log) <==> SumOf(log) < 0x1_0000_0000_0000_0000
  {
    if CountOf(log) > 0 {
      MeanOfSome(st, log);
    } else {
      SumBounds(log, Max(1, st.peakBlocked));
      assert st.events == 0;
    }
  }

  lemma MeanOfSome(st: Stats, log: seq<Sample>)
    requires Summarises(st, log) && Positive(log) && 0 < CountOf(log) < TWO_64
    ensures AverageIsMean(ReportOf(st), log) <==> SumOf(log) < TWO_64
  {
    var r, sum, count := ReportOf(st), SumOf(log), CountOf(log);
    AverageFits(st, log);
    if sum >= TWO_64 {
      WrappedIsLess(sum, count);
    } else {
      assert sum % TWO_64 == sum;
    }
    assert AverageIsMean(r, log) <==> r.averageBlocked == sum / count;
  }

  /** What the administrator reads: after any history the report on a rule gives the largest
      gauge, the mean gauge, and the largest delay with the data of its earliest victim, over
      what was recorded against that rule since it was added or last reset. */
  lemma ReportRefinesLog(history: seq<Event>, k: nat)
    requires k < |After(history).view|
    ensures var r, log := ReportOf(After(history).view[k].stats), LogOf(history, After(history).ids[k]);
            && PeakIsMax(r.peakBlocked, log)
            && DelayIsMax(r.peakDelay, r.victimUid, r.victimComm, log)
            && (Positive(log) && CountOf(log) < TWO_64 ==> (AverageIsMean(r, log) <==> SumOf(log) < TWO_64))
  {
    var st, log := After(history).view[k].stats, LogOf(history, After(history).ids[k]);
    StatisticsRefineLog(history, k);
    if Positive(log) && CountOf(log) < TWO_64 {
      ReportIsMean(st, log);
    }
  }

  lemma {:induction false} SomeGauge(log: seq<Sample>)
    requires CountOf(log) > 0
    ensures exists i :: 0 <= i < |log| && log[i].Gauge?
  {
    if !log[|log| - 1].Gauge? {
      SomeGauge(log[..|log| - 1]);
      var i :| 0 <= i < |log| - 1 && log[..|log| - 1][i].Gauge?;
      assert log[i].Gauge?;
    }
  }
}
