/** The backup gap finder of cmd/ciscollector/backuphistory.go.

    An instant is a count of nanoseconds in one fixed-offset zone. The three branches of run differ only in
    how they print an instant and how they step it, so they are one loop here, with LabelAt for
    Format / ISOWeek and Advance for AddDate. The inner loop stops only on equal labels and need not stop;
    `budget` is the number of its iterations that an observer waits for, and a loop that is still running
    then gives None. */
module BackupHistory {
  import opened Calendar
  import opened Common
  import opened Sorting

  const NANOS_PER_DAY := 86_400_000_000_000

  type Time = int

  datatype Frequency = Daily | Weekly | Monthly

  /** A printed period: 2006-01-02, year 2006 - week 1, or 2006-01. */
  datatype Label = DayLabel(date: Date) | WeekLabel(iso: IsoWeek) | MonthLabel(year: int, month: int)

  function DayOf(t: Time): int {
    t / NANOS_PER_DAY
  }

  /** A day is 24 hours of 60 minutes of 60 seconds, counted from midnight. */
  lemma DayOfMeaning(day: int, nanos: int)
    requires 0 <= nanos < 24 * 60 * 60 * 1_000_000_000
    ensures DayOf(day * (24 * 60 * 60 * 1_000_000_000) + nanos) == day
  {
    DivUnique(day * (24 * 60 * 60 * 1_000_000_000) + nanos, NANOS_PER_DAY, day, nanos);
  }

  function AddDateTo(t: Time, months: int, days: int): Time {
    AddDate(DayOf(t), months, days) * NANOS_PER_DAY + t % NANOS_PER_DAY
  }

  function LabelAt(f: Frequency, t: Time): Label {
    match f
    case Daily => DayLabel(DateOf(DayOf(t)))
    case Weekly => WeekLabel(IsoWeekOf(DayOf(t)))
    case Monthly => MonthLabel(MonthOf(DayOf(t)) / 12, MonthOf(DayOf(t)) % 12 + 1)
  }

  function Advance(f: Frequency, t: Time): Time {
    match f
    case Daily => AddDateTo(t, 0, 1)
    case Weekly => AddDateTo(t, 0, 7)
    case Monthly => AddDateTo(t, 1, 0)
  }

  /** Days, weeks and months numbered consecutively. */
  function Period(f: Frequency, t: Time): int {
    match f
    case Daily => DayOf(t)
    case Weekly => WeekOf(DayOf(t))
    case Monthly => MonthOf(DayOf(t))
  }

  function PeriodLabel(f: Frequency, p: int): Label {
    match f
    case Daily => DayLabel(DateOf(p))
    case Weekly => WeekLabel(IsoWeekAt(p))
    case Monthly => MonthLabel(p / 12, p % 12 + 1)
  }

  function Labels(f: Frequency, ps: seq<int>): (ls: seq<Label>)
    ensures |ls| == |ps|
  {
    seq(|ps|, i requires 0 <= i < |ps| => PeriodLabel(f, ps[i]))
  }

  // ----- What the loops compute -----

  /** The periods the inner loop appends, from `next` until its label is the target's. */
  function Walk(f: Frequency, next: Time, target: Time, budget: nat): Option<seq<int>>
    decreases budget
  {
    if LabelAt(f, next) == LabelAt(f, target) then Some([])
    else if budget == 0 then None
    else
      match Walk(f, Advance(f, next), target, budget - 1)
      case None => None
      case Some(ps) => Some([Period(f, next)] + ps)
  }

  /** The outer loop: from `previous` through the newer backups, which are listed newest first. */
  function Scan(f: Frequency, previous: Time, newer: seq<Time>, budget: nat): Option<seq<int>>
    decreases |newer|
  {
    if newer == [] then Some([])
    else
      var current, rest := newer[|newer| - 1], newer[..|newer| - 1];
      if LabelAt(f, previous) == LabelAt(f, current) then Scan(f, previous, rest, budget)
      else
        match Walk(f, Advance(f, previous), current, budget)
        case None => None
        case Some(ps) =>
          match Scan(f, current, rest, budget)
          case None => None
          case Some(qs) => Some(ps + qs)
  }

  // ----- What they should compute -----

  /** ps lists in order the periods strictly between lo and hi that are not in `have`. */
  ghost predicate ListsGaps(ps: seq<int>, lo: int, hi: int, have: set<int>) {
    && Ascending(ps)
    && forall k :: k in ps <==> lo < k < hi && k !in have
  }

  ghost function Periods(f: Frequency, ts: seq<Time>): set<int> {
    set i | 0 <= i < |ts| :: Period(f, ts[i])
  }

  /** Newest first, and nothing older than `previous`. */
  ghost predicate Ordered(previous: Time, newer: seq<Time>) {
    && (forall i, j :: 0 <= i < j < |newer| ==> newer[i] >= newer[j])
    && (forall i :: 0 <= i < |newer| ==> previous <= newer[i])
  }

  function Newest(previous: Time, newer: seq<Time>): Time {
    if newer == [] then previous else newer[0]
  }

  /** The day of the month of t exists in month m. Days and weeks always exist. */
  predicate Fits(f: Frequency, t: Time, m: int) {
    f == Monthly ==> DayOfMonth(DayOf(t)) <= MonthLength(m)
  }

  predicate FitsUpTo(f: Frequency, t: Time, hi: int) {
    forall m :: Period(f, t) < m <= hi ==> Fits(f, t, m)
  }

  /** Wherever the loop steps from one backup to one in a later month, every month after the first one
      up to and including the second one is long enough for the first one's day of the month. */
  predicate AllFit(f: Frequency, previous: Time, newer: seq<Time>)
    decreases |newer|
  {
    newer == [] ||
    var current, rest := newer[|newer| - 1], newer[..|newer| - 1];
    if Period(f, previous) == Period(f, current) then AllFit(f, previous, rest)
    else FitsUpTo(f, previous, Period(f, current)) && AllFit(f, current, rest)
  }

  /** Some step goes to a backup whose month is the first one too short for the earlier backup's day. */
  predicate SomeStepStuck(f: Frequency, previous: Time, newer: seq<Time>)
    decreases |newer|
  {
    newer != [] &&
    var current, rest := newer[|newer| - 1], newer[..|newer| - 1];
    if Period(f, previous) == Period(f, current) then SomeStepStuck(f, previous, rest)
    else
      || (FitsUpTo(f, previous, Period(f, current) - 1) && !Fits(f, previous, Period(f, current)))
      || SomeStepStuck(f, current, rest)
  }

  // ----- Labels and steps in terms of periods -----

  lemma SameLabelSamePeriod(f: Frequency, a: Time, b: Time)
    ensures LabelAt(f, a) == PeriodLabel(f, Period(f, a))
    ensures LabelAt(f, a) == LabelAt(f, b) <==> Period(f, a) == Period(f, b)
  {
    hide DateOf, IsoWeekAt, MonthOf;
    if LabelAt(f, a) == LabelAt(f, b) {
      match f
      case Daily => DateUnique(DayOf(a), DayOf(b));
      case Weekly => IsoWeekUnique(WeekOf(DayOf(a)), WeekOf(DayOf(b)));
      case Monthly =>
        assert MonthOf(DayOf(a)) == 12 * (MonthOf(DayOf(a)) / 12) + MonthOf(DayOf(a)) % 12;
    }
  }

  lemma PeriodOrder(f: Frequency, a: Time, b: Time)
    requires a <= b
    ensures Period(f, a) <= Period(f, b)
  {
    hide MonthOf;
    if f == Monthly {
      MonthOrder(DayOf(a), DayOf(b));
    }
  }

  /** One step goes to the next period if the day fits there, otherwise past it for good. */
  lemma AdvanceMeaning(f: Frequency, t: Time)
    ensures var p, next := Period(f, t), Advance(f, t);
            if Fits(f, t, p + 1)
            then Period(f, next) == p + 1 && forall m :: Fits(f, next, m) <==> Fits(f, t, m)
            else Period(f, next) == p + 2 && forall m :: Fits(f, next, m)
  {
    hide AddDate, MonthOf, MonthLength, DayOfMonth;
    var day := DayOf(t);
    AddDateMeaning(day);
    var months, days := if f == Monthly then 1 else 0, if f == Monthly then 0 else if f == Weekly then 7 else 1;
    var to := AddDate(day, months, days);
    DivUnique(Advance(f, t), NANOS_PER_DAY, to, t % NANOS_PER_DAY);
    if f == Monthly {
      forall m ensures 28 <= MonthLength(m) {
        MonthStep(m);
      }
    }
  }

  // ----- The inner loop -----

  lemma {:induction false} WalkFits(f: Frequency, next: Time, target: Time, budget: nat)
    requires Period(f, next) <= Period(f, target) <= Period(f, next) + budget
    requires FitsUpTo(f, next, Period(f, target))
    ensures Walk(f, next, target, budget).Some?
    ensures ListsGaps(Walk(f, next, target, budget).value, Period(f, next) - 1, Period(f, target), {})
    decreases budget
  {
    hide LabelAt, Advance, Period, Fits;
    SameLabelSamePeriod(f, next, target);
    if Period(f, next) != Period(f, target) {
      AdvanceMeaning(f, next);
      WalkFits(f, Advance(f, next), target, budget - 1);
      PrependGap(Period(f, next), Walk(f, Advance(f, next), target, budget - 1).value, Period(f, target));
    }
  }

  lemma PrependGap(p: int, ps: seq<int>, hi: int)
    requires ListsGaps(ps, p, hi, {}) && p < hi
    ensures ListsGaps([p] + ps, p - 1, hi, {})
  {
    assert forall i :: 0 <= i < |ps| ==> ps[i] in ps;
    assert forall k :: k in [p] + ps <==> k == p || k in ps;
  }

  /** Once past the target the walk never returns to it. */
  lemma {:induction false} WalkPast(f: Frequency, next: Time, target: Time, budget: nat)
    requires Period(f, target) < Period(f, next)
    ensures Walk(f, next, target, budget) == None
    decreases budget
  {
    hide LabelAt, Advance, Period, Fits;
    SameLabelSamePeriod(f, next, target);
    if budget > 0 {
      AdvanceMeaning(f, next);
      WalkPast(f, Advance(f, next), target, budget - 1);
    }
  }

  /** If a period on the way is too short, the walk leaves out the first such period s, and never ends
      when s is the target itself. */
  lemma {:induction false} WalkSkips(f: Frequency, next: Time, target: Time, budget: nat, s: int)
    requires Period(f, next) < s <= Period(f, target)
    requires FitsUpTo(f, next, s - 1) && !Fits(f, next, s)
    ensures s == Period(f, target) ==> Walk(f, next, target, budget) == None
    ensures s < Period(f, target) && Period(f, target) <= Period(f, next) + budget
            ==> Walk(f, next, target, budget).Some?
    ensures Walk(f, next, target, budget).Some? ==> s !in Walk(f, next, target, budget).value
    decreases budget
  {
    hide LabelAt, Advance, Period, Fits;
    SameLabelSamePeriod(f, next, target);
    AdvanceMeaning(f, next);
    var after := Advance(f, next);
    if budget > 0 {
      if s > Period(f, next) + 1 {
        assert Fits(f, next, Period(f, next) + 1);
        WalkSkips(f, after, target, budget - 1, s);
      } else if s == Period(f, target) {
        WalkPast(f, after, target, budget - 1);
      } else {
        assert Period(f, after) == s + 1;
        WalkPeriods(f, after, target, budget - 1);
        if Period(f, target) <= Period(f, next) + budget {
          WalkFits(f, after, target, budget - 1);
        }
      }
    }
  }

  /** The walk lists, in order, only periods from its start up to, not including, the target. */
  lemma {:induction false} WalkPeriods(f: Frequency, next: Time, target: Time, budget: nat)
    ensures Walk(f, next, target, budget).Some? ==>
              && Ascending(Walk(f, next, target, budget).value)
              && forall k :: k in Walk(f, next, target, budget).value ==> Period(f, next) <= k < Period(f, target)
    decreases budget
  {
    hide LabelAt, Advance, Period, Fits;
    SameLabelSamePeriod(f, next, target);
    if Period(f, next) > Period(f, target) {
      WalkPast(f, next, target, budget);
    } else if budget > 0 {
      AdvanceMeaning(f, next);
      WalkPeriods(f, Advance(f, next), target, budget - 1);
      if Walk(f, next, target, budget).Some? && Period(f, next) != Period(f, target) {
        AscendingJoin([Period(f, next)], Walk(f, Advance(f, next), target, budget - 1).value, Period(f, next) + 1);
      }
    }
  }

  lemma AscendingJoin(ps: seq<int>, qs: seq<int>, mid: int)
    requires Ascending(ps) && Ascending(qs)
    requires (forall k :: k in ps ==> k < mid) && (forall k :: k in qs ==> mid <= k)
    ensures Ascending(ps + qs)
    ensures forall k :: k in ps + qs <==> k in ps || k in qs
  {
    assert forall i :: 0 <= i < |ps| ==> ps[i] in ps;
    assert forall i :: 0 <= i < |qs| ==> qs[i] in qs;
  }

  // ----- The outer loop -----

  lemma RestOrdered(f: Frequency, previous: Time, newer: seq<Time>)
    requires Ordered(previous, newer) && newer != []
    ensures var current, rest := newer[|newer| - 1], newer[..|newer| - 1];
            && Ordered(current, rest) && Ordered(previous, rest)
            && Newest(current, rest) == Newest(previous, newer)
            && Period(f, previous) <= Period(f, current) <= Period(f, Newest(previous, newer))
            && Periods(f, newer) == Periods(f, rest) + {Period(f, current)}
            && (forall k :: k in Periods(f, newer) ==> Period(f, current) <= k)
  {
    hide Period;
    var current, rest := newer[|newer| - 1], newer[..|newer| - 1];
    forall i | 0 <= i < |newer| ensures Period(f, current) <= Period(f, newer[i]) {
      PeriodOrder(f, current, newer[i]);
    }
    PeriodOrder(f, previous, current);
    assert newer == rest + [current];
  }

  lemma {:induction false} ScanPeriods(f: Frequency, previous: Time, newer: seq<Time>, budget: nat)
    requires Ordered(previous, newer)
    ensures Scan(f, previous, newer, budget).Some? ==>
              && Ascending(Scan(f, previous, newer, budget).value)
              && forall k :: k in Scan(f, previous, newer, budget).value ==> Period(f, previous) < k
    decreases |newer|
  {
    hide LabelAt, Advance, Period, Fits;
    if newer != [] {
      RestOrdered(f, previous, newer);
      var current, rest := newer[|newer| - 1], newer[..|newer| - 1];
      SameLabelSamePeriod(f, previous, current);
      AdvanceMeaning(f, previous);
      WalkPeriods(f, Advance(f, previous), current, budget);
      ScanPeriods(f, previous, rest, budget);
      ScanPeriods(f, current, rest, budget);
      if Period(f, previous) != Period(f, current) && Scan(f, previous, newer, budget).Some? {
        AscendingJoin(Walk(f, Advance(f, previous), current, budget).value, Scan(f, current, rest, budget).value,
                      Period(f, current));
      }
    }
  }

  /** If every day fits, the scan stops and lists exactly the periods without a backup. */
  lemma {:induction false} ScanFits(f: Frequency, previous: Time, newer: seq<Time>, budget: nat)
    requires Ordered(previous, newer) && AllFit(f, previous, newer)
    requires Period(f, Newest(previous, newer)) <= Period(f, previous) + budget
    ensures Scan(f, previous, newer, budget).Some?
    ensures ListsGaps(Scan(f, previous, newer, budget).value, Period(f, previous),
                      Period(f, Newest(previous, newer)), Periods(f, newer))
    decreases |newer|
  {
    hide LabelAt, Advance, Period, Fits;
    if newer != [] {
      RestOrdered(f, previous, newer);
      var current, rest := newer[|newer| - 1], newer[..|newer| - 1];
      SameLabelSamePeriod(f, previous, current);
      if Period(f, previous) == Period(f, current) {
        ScanFits(f, previous, rest, budget);
        if rest == [] { assert Newest(previous, rest) == previous; }
      } else {
        AdvanceMeaning(f, previous);
        WalkFits(f, Advance(f, previous), current, budget);
        ScanFits(f, current, rest, budget);
        JoinGaps(Walk(f, Advance(f, previous), current, budget).value, Scan(f, current, rest, budget).value,
                 Period(f, previous), Period(f, current), Period(f, Newest(current, rest)), Periods(f, rest));
      }
    }
  }

  lemma JoinGaps(ps: seq<int>, qs: seq<int>, lo: int, mid: int, hi: int, have: set<int>)
    requires ListsGaps(ps, lo, mid, {}) && ListsGaps(qs, mid, hi, have)
    requires lo <= mid <= hi && forall k :: k in have ==> mid <= k
    ensures ListsGaps(ps + qs, lo, hi, have + {mid})
  {
    assert forall i :: 0 <= i < |ps| ==> ps[i] in ps;
    assert forall i :: 0 <= i < |qs| ==> qs[i] in qs;
    forall k ensures k in ps + qs <==> lo < k < hi && k !in have + {mid} {
      assert k in ps + qs <==> k in ps || k in qs;
    }
  }

  /** If some day does not fit, the scan does not stop, or leaves out a month k that has no backup. */
  lemma {:induction false} ScanMisses(f: Frequency, previous: Time, newer: seq<Time>, budget: nat) returns (k: int)
    requires Ordered(previous, newer) && !AllFit(f, previous, newer)
    ensures Period(f, previous) < k
    ensures Scan(f, previous, newer, budget).Some? ==>
              && k < Period(f, Newest(previous, newer))
              && k !in Periods(f, newer) && k !in Scan(f, previous, newer, budget).value
    decreases |newer|
  {
    hide LabelAt, Advance, Period, Fits, Ordered, Periods, FitsUpTo;
    RestOrdered(f, previous, newer);
    var current, rest := newer[|newer| - 1], newer[..|newer| - 1];
    SameLabelSamePeriod(f, previous, current);
    if Period(f, previous) == Period(f, current) {
      k := ScanMisses(f, previous, rest, budget);
    } else if FitsUpTo(f, previous, Period(f, current)) {
      k := ScanMisses(f, current, rest, budget);
      WalkPeriods(f, Advance(f, previous), current, budget);
    } else {
      k := FirstShort(f, previous, Period(f, current));
      StepSkips(f, previous, current, budget, k);
      ScanPeriods(f, current, rest, budget);
    }
  }

  lemma FirstShort(f: Frequency, t: Time, hi: int) returns (s: int)
    requires !FitsUpTo(f, t, hi)
    ensures Period(f, t) < s <= hi && FitsUpTo(f, t, s - 1) && !Fits(f, t, s)
  {
    hide Period, Fits;
    s := Period(f, t) + 1;
    while Fits(f, t, s)
      invariant Period(f, t) < s <= hi && FitsUpTo(f, t, s - 1)
      decreases hi - s
    {
      s := s + 1;
    }
  }

  /** WalkSkips for the walk that starts one step after a backup. */
  lemma StepSkips(f: Frequency, previous: Time, current: Time, budget: nat, s: int)
    requires Period(f, previous) < s <= Period(f, current)
    requires FitsUpTo(f, previous, s - 1) && !Fits(f, previous, s)
    ensures var r := Walk(f, Advance(f, previous), current, budget);
            && (s == Period(f, current) ==> r == None)
            && (s < Period(f, current) && Period(f, current) <= Period(f, previous) + budget ==> r.Some?)
            && (r.Some? ==> s !in r.value)
  {
    hide LabelAt, Advance, Period, Fits;
    AdvanceMeaning(f, previous);
    var next := Advance(f, previous);
    if s > Period(f, previous) + 1 {
      WalkSkips(f, next, current, budget, s);
    } else if s == Period(f, current) {
      WalkPast(f, next, current, budget);
    } else {
      WalkPeriods(f, next, current, budget);
      if Period(f, current) <= Period(f, previous) + budget {
        WalkFits(f, next, current, budget);
      }
    }
  }

  /** The exact condition for the report to be right: every day of the month fits. It always holds for daily
      and weekly backups, and for monthly ones when no backup is later than the 28th. */
  lemma GapsExact(f: Frequency, previous: Time, newer: seq<Time>, budget: nat)
    requires Ordered(previous, newer)
    requires Period(f, Newest(previous, newer)) <= Period(f, previous) + budget
    ensures AllFit(f, previous, newer) <==>
            && Scan(f, previous, newer, budget).Some?
            && ListsGaps(Scan(f, previous, newer, budget).value, Period(f, previous),
                         Period(f, Newest(previous, newer)), Periods(f, newer))
  {
    hide Period, Scan, AllFit, Newest;
    if AllFit(f, previous, newer) {
      ScanFits(f, previous, newer, budget);
    } else {
      var _ := ScanMisses(f, previous, newer, budget);
    }
  }

  lemma {:induction false} EarlyDaysFit(f: Frequency, previous: Time, newer: seq<Time>)
    requires f == Monthly ==> DayOfMonth(DayOf(previous)) <= 28
    requires f == Monthly ==> forall t :: t in newer ==> DayOfMonth(DayOf(t)) <= 28
    ensures AllFit(f, previous, newer)
    decreases |newer|
  {
    hide DayOfMonth, MonthLength, MonthOf;
    forall m ensures 28 <= MonthLength(m) {
      MonthStep(m);
    }
    if newer != [] {
      EarlyDaysFit(f, previous, newer[..|newer| - 1]);
      EarlyDaysFit(f, newer[|newer| - 1], newer[..|newer| - 1]);
    }
  }

  /** The exact condition for the search never to stop, however long it is observed. */
  lemma {:induction false} ScanDiverges(f: Frequency, previous: Time, newer: seq<Time>, budget: nat)
    requires Ordered(previous, newer)
    requires Period(f, Newest(previous, newer)) <= Period(f, previous) + budget
    ensures SomeStepStuck(f, previous, newer) <==> Scan(f, previous, newer, budget) == None
    decreases |newer|
  {
    hide LabelAt, Advance, Period, Fits;
    if newer != [] {
      RestOrdered(f, previous, newer);
      var current, rest := newer[|newer| - 1], newer[..|newer| - 1];
      SameLabelSamePeriod(f, previous, current);
      if Period(f, previous) == Period(f, current) {
        ScanDiverges(f, previous, rest, budget);
      } else {
        ScanDiverges(f, current, rest, budget);
        AdvanceMeaning(f, previous);
        if FitsUpTo(f, previous, Period(f, current)) {
          WalkFits(f, Advance(f, previous), current, budget);
        } else {
          var s := FirstShort(f, previous, Period(f, current));
          StepSkips(f, previous, current, budget, s);
        }
      }
    }
  }

  // ----- run -----

  function NewestFirst(history: seq<Time>): seq<Time> {
    SortByKey(history, (t: Time) => -t)
  }

  lemma NewestFirstMeaning(history: seq<Time>)
    ensures var s := NewestFirst(history);
            && |s| == |history|
            && (forall t :: t in s <==> t in history)
            && (s != [] ==> Ordered(s[|s| - 1], s[..|s| - 1]))
  {
    var key := (t: Time) => -t;
    SortMeaning(history, key);
    var s := SortByKey(history, key);
    assert forall i :: 0 <= i < |s| ==> key(s[i]) == -s[i];
  }

  /** The sorted history's outer and inner loop. */
  method CollectMissing(f: Frequency, history: seq<Time>, budget: nat) returns (missing: Option<seq<Label>>)
    requires |history| >= 2
    ensures var r := Scan(f, history[|history| - 1], history[..|history| - 1], budget);
            missing == if r.None? then None else Some(Labels(f, r.value))
  {
    hide LabelAt, Advance, Period, PeriodLabel;
    var missingDates: seq<Label> := [];
    ghost var ps := [];
    var previousDate := history[|history| - 1];
    var i := |history| - 2;
    while i >= 0
      invariant -1 <= i <= |history| - 2
      invariant missingDates == Labels(f, ps)
      invariant Prepend(ps, Scan(f, previousDate, history[..i + 1], budget))
             == Scan(f, history[|history| - 1], history[..|history| - 1], budget)
    {
      assert history[..i + 1][..i] == history[..i];
      if LabelAt(f, previousDate) == LabelAt(f, history[i]) {
        i := i - 1;
        continue;
      }
      var nextDate := Advance(f, previousDate);
      var steps := 0;
      ghost var qs := [];
      while LabelAt(f, nextDate) != LabelAt(f, history[i])
        invariant steps <= budget
        invariant missingDates == Labels(f, ps + qs)
        invariant Prepend(qs, Walk(f, nextDate, history[i], budget - steps))
               == Walk(f, Advance(f, previousDate), history[i], budget)
        decreases budget - steps
      {
        if steps == budget {
          return None;
        }
        SameLabelSamePeriod(f, nextDate, nextDate);
        assert ps + (qs + [Period(f, nextDate)]) == ps + qs + [Period(f, nextDate)];
        PrependTwice(qs, [Period(f, nextDate)], Walk(f, Advance(f, nextDate), history[i], budget - steps - 1));
        missingDates := missingDates + [LabelAt(f, nextDate)];
        qs := qs + [Period(f, nextDate)];
        nextDate := Advance(f, nextDate);
        steps := steps + 1;
      }
      assert qs + [] == qs;
      ScanStep(f, previousDate, history[..i + 1], budget);
      PrependTwice(ps, qs, Scan(f, history[i], history[..i], budget));
      ps := ps + qs;
      previousDate := history[i];
      i := i - 1;
    }
    assert history[..0] == [] && ps + [] == ps;
    return Some(missingDates);
  }

  lemma ScanStep(f: Frequency, previous: Time, newer: seq<Time>, budget: nat)
    requires newer != [] && LabelAt(f, previous) != LabelAt(f, newer[|newer| - 1])
    ensures var current, rest := newer[|newer| - 1], newer[..|newer| - 1];
            var walked := Walk(f, Advance(f, previous), current, budget);
            Scan(f, previous, newer, budget)
              == if walked.None? then None else Prepend(walked.value, Scan(f, current, rest, budget))
  {
    hide LabelAt, Advance;
  }

  /** The final loop drops labels already seen; a list without repetition stays as it is. */
  method UniqueLabels(missing: seq<Label>) returns (unique: seq<Label>)
    ensures NoDuplicates(unique)
    ensures forall x :: x in unique <==> x in missing
    ensures exists at: seq<int> :: FirstPlaces(unique, missing, at)
    ensures NoDuplicates(missing) ==> unique == missing
  {
    unique := [];
    ghost var at: seq<int> := [];
    for i := 0 to |missing|
      invariant NoDuplicates(unique)
      invariant forall x :: x in unique <==> x in missing[..i]
      invariant FirstPlaces(unique, missing, at) && forall j :: 0 <= j < |at| ==> at[j] < i
      invariant NoDuplicates(missing) ==> unique == missing[..i]
    {
      assert missing[..i + 1] == missing[..i] + [missing[i]];
      if missing[i] !in unique {
        unique := unique + [missing[i]];
        at := at + [i];
      }
    }
    assert missing[..|missing|] == missing;
  }

  /** The labels stand in the order in which they first occur. */
  ghost predicate FirstPlaces(unique: seq<Label>, missing: seq<Label>, at: seq<int>) {
    && |at| == |unique| && Ascending(at)
    && forall j :: 0 <= j < |at| ==>
         0 <= at[j] < |missing| && unique[j] == missing[at[j]] && unique[j] !in missing[..at[j]]
  }

  lemma PeriodLabelUnique(f: Frequency, p: int, q: int)
    requires PeriodLabel(f, p) == PeriodLabel(f, q)
    ensures p == q
  {
    hide DateOf, IsoWeekAt;
    match f
    case Daily => DateUnique(p, q);
    case Weekly => IsoWeekUnique(p, q);
    case Monthly => assert p == 12 * (p / 12) + p % 12 && q == 12 * (q / 12) + q % 12;
  }

  lemma LabelsDistinct(f: Frequency, ps: seq<int>)
    requires Ascending(ps)
    ensures NoDuplicates(Labels(f, ps))
  {
    hide PeriodLabel;
    forall i, j | 0 <= i < j < |ps| ensures Labels(f, ps)[i] != Labels(f, ps)[j] {
      if PeriodLabel(f, ps[i]) == PeriodLabel(f, ps[j]) {
        PeriodLabelUnique(f, ps[i], ps[j]);
      }
    }
  }

  datatype Failure = FrequencyRequired | UnsupportedTool(tool: string) | FetchFailed(error: string)
                   | NoHistory | OnlyOneBackup | UnsupportedFrequency(frequency: string)

  datatype Output = Output(missing: seq<Label>, start: Date, end: Date, frequency: string)

  datatype Outcome = Failed(failure: Failure) | Reported(output: Output) | StillSearching

  /** The failure run reports, in the order it checks. */
  function FailureOf(tool: string, frequency: string, fetched: Result<seq<Time>, string>): Option<Failure> {
    if frequency == "" then Some(FrequencyRequired)
    else if tool !in {"pgbackrest", "pg_dump", "pg_dumpall", "pg_basebackup"} then Some(UnsupportedTool(tool))
    else if fetched.Err? then Some(FetchFailed(fetched.error))
    else if |fetched.value| == 0 then Some(NoHistory)
    else if |fetched.value| == 1 then Some(OnlyOneBackup)
    else if frequency !in {"daily", "weekly", "monthly"} then Some(UnsupportedFrequency(frequency))
    else None
  }

  /** Strictly between the days of the oldest and the newest backup, the days on which no backup was made are listed in
      order, each by its date. */
  ghost predicate ListsDays(history: seq<Time>, oldest: Time, newest: Time, missing: seq<Label>) {
    exists days :: && ListsGaps(days, DayOf(oldest), DayOf(newest), set i | 0 <= i < |history| :: DayOf(history[i]))
                   && missing == seq(|days|, i requires 0 <= i < |days| => DayLabel(DateOf(days[i])))
  }

  /** The same for weeks, by ISO year and week. */
  ghost predicate ListsWeeks(history: seq<Time>, oldest: Time, newest: Time, missing: seq<Label>) {
    exists weeks :: && ListsGaps(weeks, WeekOf(DayOf(oldest)), WeekOf(DayOf(newest)),
                                 set i | 0 <= i < |history| :: WeekOf(DayOf(history[i])))
                    && missing == seq(|weeks|, i requires 0 <= i < |weeks| => WeekLabel(IsoWeekOf(7 * weeks[i])))
  }

  /** The same for months, by year and month. */
  ghost predicate ListsMonths(history: seq<Time>, oldest: Time, newest: Time, missing: seq<Label>) {
    exists months :: && ListsGaps(months, MonthOf(DayOf(oldest)), MonthOf(DayOf(newest)),
                                  set i | 0 <= i < |history| :: MonthOf(DayOf(history[i])))
                     && missing == seq(|months|, i requires 0 <= i < |months| =>
                                         var first := DateOf(MonthStart(months[i])); MonthLabel(first.year, first.month))
  }

  ghost predicate ListsEmpty(f: Frequency, history: seq<Time>, oldest: Time, newest: Time, missing: seq<Label>) {
    match f
    case Daily => ListsDays(history, oldest, newest, missing)
    case Weekly => ListsWeeks(history, oldest, newest, missing)
    case Monthly => ListsMonths(history, oldest, newest, missing)
  }

  /** The report names the days of the oldest and the newest backup and lists what is empty in between. */
  ghost predicate RightReport(f: Frequency, history: seq<Time>, oldest: Time, newest: Time, out: Output) {
    && out.start == DateOf(DayOf(oldest)) && out.end == DateOf(DayOf(newest))
    && ListsEmpty(f, history, oldest, newest, out.missing)
  }

  lemma ListsEmptyMeaning(f: Frequency, history: seq<Time>, oldest: Time, newest: Time, missing: seq<Label>)
    ensures ListsEmpty(f, history, oldest, newest, missing) <==>
              exists ps :: ListsGaps(ps, Period(f, oldest), Period(f, newest), Periods(f, history)) && missing == Labels(f, ps)
  {
    hide DateOf, MonthOf, WeekOf, IsoWeekAt, MonthStart, ListsGaps;
    forall p: int ensures IsoWeekOf(7 * p) == IsoWeekAt(p)
                  ensures DateOf(MonthStart(p)) == Date(p / 12, p % 12 + 1, 1)
    {
      WeekOfThursday(p);
      FirstOfMonth(p);
    }
    match f
    case Daily =>
      assert Periods(f, history) == set i | 0 <= i < |history| :: DayOf(history[i]);
      forall ps: seq<int> ensures Labels(f, ps) == seq(|ps|, i requires 0 <= i < |ps| => DayLabel(DateOf(ps[i]))) {
      }
    case Weekly =>
      assert Periods(f, history) == set i | 0 <= i < |history| :: WeekOf(DayOf(history[i]));
      forall ps: seq<int> ensures Labels(f, ps) == seq(|ps|, i requires 0 <= i < |ps| => WeekLabel(IsoWeekOf(7 * ps[i]))) {
      }
    case Monthly =>
      assert Periods(f, history) == set i | 0 <= i < |history| :: MonthOf(DayOf(history[i]));
      forall ps: seq<int> ensures Labels(f, ps) == seq(|ps|, i requires 0 <= i < |ps| =>
                                    var first := DateOf(MonthStart(ps[i])); MonthLabel(first.year, first.month)) {
      }
  }

  lemma WeekOfThursday(week: int)
    ensures WeekOf(7 * week) == week
  {
  }

  ghost predicate IsOldest(t: Time, history: seq<Time>) {
    t in history && forall u :: u in history ==> t <= u
  }

  ghost predicate IsNewest(t: Time, history: seq<Time>) {
    t in history && forall u :: u in history ==> u <= t
  }

  /** What the search by days, weeks or months comes to on a history, when it is observed long enough. */
  ghost predicate Searched(f: Frequency, history: seq<Time>, frequency: string, budget: nat, outcome: Outcome)
    requires |history| >= 2 && |NewestFirst(history)| == |history|
  {
    var h := NewestFirst(history);
    var oldest, newest, newer := h[|h| - 1], h[0], h[..|h| - 1];
    && IsOldest(oldest, history) && IsNewest(newest, history) && Period(f, oldest) <= Period(f, newest)
    && (outcome.Reported? ==> outcome.output.frequency == frequency)
    && (Period(f, newest) <= Period(f, oldest) + budget ==>
          && (AllFit(f, oldest, newer) <==>
                outcome.Reported? && RightReport(f, history, oldest, newest, outcome.output))
          && (SomeStepStuck(f, oldest, newer) <==> outcome == StillSearching))
  }

  /** A daily or weekly search, observed for as many steps as there are days, always ends with the right report. */
  lemma SearchedEnds(f: Frequency, history: seq<Time>, frequency: string, budget: nat, outcome: Outcome)
    requires |history| >= 2 && |NewestFirst(history)| == |history| && f != Monthly
    requires Searched(f, history, frequency, budget, outcome)
    ensures var h := NewestFirst(history);
            DayOf(h[0]) <= DayOf(h[|h| - 1]) + budget ==>
              && outcome.Reported? && outcome.output.frequency == frequency
              && RightReport(f, history, h[|h| - 1], h[0], outcome.output)
  {
    hide SomeStepStuck, RightReport, NewestFirst, AllFit, DayOf;
    var h := NewestFirst(history);
    EarlyDaysFit(f, h[|h| - 1], h[..|h| - 1]);
  }

  /** run, given what reading the backup tool's history returned. */
  method Run(tool: string, frequency: string, fetched: Result<seq<Time>, string>, budget: nat)
    returns (outcome: Outcome)
    ensures FailureOf(tool, frequency, fetched).Some? ==>
              outcome == Failed(FailureOf(tool, frequency, fetched).value)
    ensures FailureOf(tool, frequency, fetched).None? ==>
              && |fetched.value| >= 2 && |NewestFirst(fetched.value)| == |fetched.value|
              && (frequency == "daily" ==> Searched(Daily, fetched.value, frequency, budget, outcome))
              && (frequency == "weekly" ==> Searched(Weekly, fetched.value, frequency, budget, outcome))
              && (frequency == "monthly" ==> Searched(Monthly, fetched.value, frequency, budget, outcome))
    ensures FailureOf(tool, frequency, fetched).None? && frequency in {"daily", "weekly"} ==>
              var h := NewestFirst(fetched.value);
              var oldest, newest := h[|h| - 1], h[0];
              && (forall t :: t in fetched.value ==> oldest <= t <= newest)
              && (DayOf(newest) <= DayOf(oldest) + budget ==>
                  && outcome.Reported? && outcome.output.frequency == frequency
                  && outcome.output.start == DateOf(DayOf(oldest)) && outcome.output.end == DateOf(DayOf(newest))
                  && (frequency == "daily" ==> ListsDays(fetched.value, oldest, newest, outcome.output.missing))
                  && (frequency == "weekly" ==> ListsWeeks(fetched.value, oldest, newest, outcome.output.missing)))
  {
    hide NewestFirst, Searched, DateOf, ListsDays, ListsWeeks, DayOf;
    if frequency == "" {
      return Failed(FrequencyRequired);
    }
    if tool != "pgbackrest" && tool != "pg_dump" && tool != "pg_dumpall" && tool != "pg_basebackup" {
      return Failed(UnsupportedTool(tool));
    }
    if fetched.Err? {
      return Failed(FetchFailed(fetched.error));
    }
    if |fetched.value| == 0 {
      return Failed(NoHistory);
    } else if |fetched.value| == 1 {
      return Failed(OnlyOneBackup);
    }
    NewestFirstMeaning(fetched.value);
    SortedEnds(fetched.value);
    if frequency == "daily" {
      outcome := Search(Daily, frequency, fetched.value, budget);
      SearchedEnds(Daily, fetched.value, frequency, budget, outcome);
    } else if frequency == "weekly" {
      outcome := Search(Weekly, frequency, fetched.value, budget);
      SearchedEnds(Weekly, fetched.value, frequency, budget, outcome);
    } else if frequency == "monthly" {
      outcome := Search(Monthly, frequency, fetched.value, budget);
    } else {
      return Failed(UnsupportedFrequency(frequency));
    }
  }

  /** One of the three branches, and the report after it. */
  method Search(f: Frequency, frequency: string, history: seq<Time>, budget: nat) returns (outcome: Outcome)
    requires |history| >= 2 && |NewestFirst(history)| == |history|
    ensures Searched(f, history, frequency, budget, outcome)
  {
    hide Period, LabelAt, Advance, PeriodLabel, DateOf, Scan, AllFit, SomeStepStuck, SortByKey;
    var backupHistory := NewestFirst(history);
    NewestFirstMeaning(history);
    var missing := CollectMissing(f, backupHistory, budget);
    ghost var oldest, newer := backupHistory[|backupHistory| - 1], backupHistory[..|backupHistory| - 1];
    assert newer[0] == backupHistory[0];
    SortedEnds(history);
    PeriodOrder(f, oldest, backupHistory[0]);
    if Period(f, backupHistory[0]) <= Period(f, oldest) + budget {
      ScanDiverges(f, oldest, newer, budget);
      GapsExact(f, oldest, newer, budget);
    }
    if missing.None? {
      return StillSearching;
    }
    ghost var ps := Scan(f, oldest, newer, budget).value;
    ScanPeriods(f, oldest, newer, budget);
    LabelsDistinct(f, ps);
    var unique := UniqueLabels(missing.value);
    var out := Output(unique, DateOf(DayOf(backupHistory[|backupHistory| - 1])), DateOf(DayOf(backupHistory[0])),
                      frequency);
    RightReportMeaning(f, history, ps, out);
    return Reported(out);
  }

  lemma SortedEnds(history: seq<Time>)
    requires history != []
    ensures var h := NewestFirst(history);
            |h| == |history| && IsOldest(h[|h| - 1], history) && IsNewest(h[0], history)
  {
    hide NewestFirst;
    NewestFirstMeaning(history);
    var h := NewestFirst(history);
    assert h[0] in h && h[|h| - 1] in h;
    forall t | t in history ensures h[|h| - 1] <= t <= h[0] {
      assert t in h;
      var i :| 0 <= i < |h| && h[i] == t;
      if i < |h| - 1 { assert h[..|h| - 1][i] == t && h[..|h| - 1][0] == h[0]; }
    }
  }

  /** Listing the gaps among the newer backups is listing the gaps among all of them. */
  lemma RightReportMeaning(f: Frequency, history: seq<Time>, ps: seq<int>, out: Output)
    requires |history| >= 2 && |NewestFirst(history)| == |history| && Ascending(ps)
    requires var h := NewestFirst(history);
             out.missing == Labels(f, ps) && out.start == DateOf(DayOf(h[|h| - 1])) && out.end == DateOf(DayOf(h[0]))
    ensures var h := NewestFirst(history);
            RightReport(f, history, h[|h| - 1], h[0], out) <==>
              ListsGaps(ps, Period(f, h[|h| - 1]), Period(f, h[0]), Periods(f, h[..|h| - 1]))
  {
    hide Period, PeriodLabel, DateOf, NewestFirst, ListsEmpty;
    NewestFirstMeaning(history);
    var h := NewestFirst(history);
    var lo, hi := Period(f, h[|h| - 1]), Period(f, h[0]);
    forall k | lo < k ensures k in Periods(f, history) <==> k in Periods(f, h[..|h| - 1]) {
      if k in Periods(f, history) {
        var i :| 0 <= i < |history| && Period(f, history[i]) == k;
        assert history[i] in h;
        var j :| 0 <= j < |h| && h[j] == history[i];
        assert j != |h| - 1;
        assert h[..|h| - 1][j] == h[j];
      }
      if k in Periods(f, h[..|h| - 1]) {
        var j :| 0 <= j < |h| - 1 && Period(f, h[..|h| - 1][j]) == k;
        assert h[j] in history;
        var i :| 0 <= i < |history| && history[i] == h[j];
      }
    }
    ListsEmptyMeaning(f, history, h[|h| - 1], h[0], out.missing);
    if RightReport(f, history, h[|h| - 1], h[0], out) {
      var qs :| ListsGaps(qs, lo, hi, Periods(f, history)) && out.missing == Labels(f, qs);
      SameLabels(f, ps, qs);
    }
  }

  lemma SameLabels(f: Frequency, ps: seq<int>, qs: seq<int>)
    requires Labels(f, ps) == Labels(f, qs)
    ensures ps == qs
  {
    hide PeriodLabel;
    assert |ps| == |qs|;
    forall i | 0 <= i < |ps| ensures ps[i] == qs[i] {
      assert Labels(f, ps)[i] == Labels(f, qs)[i];
      PeriodLabelUnique(f, ps[i], qs[i]);
    }
  }

  // ----- The monthly search on days the next month does not have -----

  /** 31 January to 10 February 2023: the monthly search never stops. 31 January to 10 March 2023: it stops,
      and does not report February. */
  lemma EndOfJanuary(budget: nat)
    ensures var jan31 := (NewYear(2023) + 30) * NANOS_PER_DAY;
            var feb10, mar10 := jan31 + 10 * NANOS_PER_DAY, jan31 + 38 * NANOS_PER_DAY;
            && Scan(Monthly, jan31, [feb10], budget) == None
            && Scan(Monthly, jan31, [mar10], budget) == Some([])
            && PeriodLabel(Monthly, Period(Monthly, jan31) + 1) == MonthLabel(2023, 2)
            && Period(Monthly, mar10) == Period(Monthly, jan31) + 2
  {
    hide Scan, Period, LabelAt, Advance, Fits;
    Year2023();
    EndOfJanuaryPeriods(19388 * NANOS_PER_DAY);
    EndOfJanuarySteps(19388 * NANOS_PER_DAY, budget);
  }

  lemma Year2023()
    ensures NewYear(2023) == 19358
    ensures MonthStart(24276) == 19358 && MonthStart(24277) == 19389
    ensures MonthStart(24278) == 19417 && MonthStart(24279) == 19448
  {
    assert NewYear(2023) == 19358;
    Months2023();
  }

  lemma Months2023()
    requires NewYear(2023) == 19358
    ensures MonthStart(24276) == 19358 && MonthStart(24277) == 19389
    ensures MonthStart(24278) == 19417 && MonthStart(24279) == 19448
  {
    hide NewYear;
  }

  lemma EndOfJanuaryPeriods(jan31: Time)
    requires jan31 == 19388 * NANOS_PER_DAY
    requires MonthStart(24276) == 19358 && MonthStart(24277) == 19389
    requires MonthStart(24278) == 19417 && MonthStart(24279) == 19448
    ensures Period(Monthly, jan31) == 24276 && !Fits(Monthly, jan31, 24277)
    ensures Period(Monthly, jan31 + 10 * NANOS_PER_DAY) == 24277
    ensures Period(Monthly, jan31 + 38 * NANOS_PER_DAY) == 24278
  {
    hide MonthStart, MonthOf;
    MonthUnique(19388, 24276);
    MonthUnique(19398, 24277);
    MonthUnique(19426, 24278);
  }

  lemma EndOfJanuarySteps(jan31: Time, budget: nat)
    requires Period(Monthly, jan31) == 24276 && !Fits(Monthly, jan31, 24277)
    requires Period(Monthly, jan31 + 10 * NANOS_PER_DAY) == 24277
    requires Period(Monthly, jan31 + 38 * NANOS_PER_DAY) == 24278
    ensures Scan(Monthly, jan31, [jan31 + 10 * NANOS_PER_DAY], budget) == None
    ensures Scan(Monthly, jan31, [jan31 + 38 * NANOS_PER_DAY], budget) == Some([])
  {
    hide Period, LabelAt, Advance, Fits;
    var feb10, mar10 := jan31 + 10 * NANOS_PER_DAY, jan31 + 38 * NANOS_PER_DAY;
    SameLabelSamePeriod(Monthly, jan31, feb10);
    SameLabelSamePeriod(Monthly, jan31, mar10);
    AdvanceMeaning(Monthly, jan31);
    WalkPast(Monthly, Advance(Monthly, jan31), feb10, budget);
    SameLabelSamePeriod(Monthly, Advance(Monthly, jan31), mar10);
    assert [feb10][..0] == [] && [mar10][..0] == [];
    ScanStep(Monthly, jan31, [mar10], budget);
  }
}
