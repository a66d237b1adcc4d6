/** The list filters and the sort of the procedure page
    (src/app_filter_sort.py). Records are generic: each filter reads the
    fields it needs through accessor functions, and the Flask request
    arguments arrive as explicit parameters (`None` when absent). */
module FilterSort {
  import opened Wrappers
  import opened Text
  import opened Sequences

  /** Python truthiness of an optional string argument. */
  predicate Truthy(arg: Option<string>) {
    arg.Some? && arg.value != []
  }

  // ---------------------------------------------------------------------------
  // filter_priority
  // ---------------------------------------------------------------------------

  /** The cap `max_priority` imposes: none when it is absent, empty or not an
      integer. */
  function PriorityCap(maxPriority: Option<string>): Option<int> {
    if Truthy(maxPriority) then ParseInt(maxPriority.value) else None
  }

  predicate KeepPriority(p: Option<int>, cap: Option<int>) {
    p.Some? && p.value >= 0 && (cap.Some? ==> p.value <= cap.value)
  }

  /** The first stage's test: a priority that is present and not negative. */
  function NonNegative<T>(priority: T -> Option<int>): T -> bool {
    x => priority(x).Some? && priority(x).value >= 0
  }

  /** The second stage's test: a priority that is present and at most `cap`. */
  function AtMost<T>(priority: T -> Option<int>, cap: int): T -> bool {
    x => priority(x).Some? && priority(x).value <= cap
  }

  function Kept<T>(priority: T -> Option<int>, cap: Option<int>): T -> bool {
    x => KeepPriority(priority(x), cap)
  }

  /** `filter_priority`: drops records without a non-negative priority, then,
      when `max_priority` parses as an integer, those above it. */
  function FilterPriority<T(==)>(records: seq<T>, maxPriority: Option<string>, priority: T -> Option<int>): (r: seq<T>)
    ensures forall k :: 0 <= k < |r| ==> KeepPriority(priority(r[k]), PriorityCap(maxPriority))
    ensures forall k :: 0 <= k < |records| && KeepPriority(priority(records[k]), PriorityCap(maxPriority)) ==> records[k] in r
    ensures KeepsCopiesOf(r, records, Kept(priority, PriorityCap(maxPriority)))
    ensures IsSubseq(r, records)
  {
    var first := FirstStage(records, priority);
    var cap := PriorityCap(maxPriority);
    match cap
    case Some(m) =>
      var second := SecondStage(first, priority, m);
      IsSubseqTrans(second, first, records);
      FilterFilter(records, NonNegative(priority), AtMost(priority, m), Kept(priority, cap));
      FilterCounts(records, Kept(priority, cap));
      second
    case None =>
      FilterSame(records, NonNegative(priority), Kept(priority, cap));
      FilterCounts(records, Kept(priority, cap));
      first
  }

  /** The comprehension keeping present, non-negative priorities. */
  function FirstStage<T(==)>(records: seq<T>, priority: T -> Option<int>): (r: seq<T>)
    ensures forall k :: 0 <= k < |r| ==> KeepPriority(priority(r[k]), None)
    ensures forall k :: 0 <= k < |records| && KeepPriority(priority(records[k]), None) ==> records[k] in r
    ensures IsSubseq(r, records)
  {
    FilterIsSubseq(records, NonNegative(priority));
    Filter(records, NonNegative(priority))
  }

  /** The comprehension applied when `max_priority` is an integer. */
  function SecondStage<T(==)>(first: seq<T>, priority: T -> Option<int>, cap: int): (r: seq<T>)
    requires forall k :: 0 <= k < |first| ==> KeepPriority(priority(first[k]), None)
    ensures forall k :: 0 <= k < |r| ==> KeepPriority(priority(r[k]), Some(cap))
    ensures forall k :: 0 <= k < |first| && KeepPriority(priority(first[k]), Some(cap)) ==> first[k] in r
    ensures IsSubseq(r, first)
  {
    var r := Filter(first, AtMost(priority, cap));
    FilterIsSubseq(first, AtMost(priority, cap));
    forall k | 0 <= k < |r|
      ensures KeepPriority(priority(r[k]), Some(cap))
    {
      var j :| 0 <= j < |first| && first[j] == r[k];
      assert KeepPriority(priority(first[j]), None);
    }
    r
  }

  /** The two stages amount to one comprehension with the combined test. */
  lemma FilterPriorityIsOneFilter<T>(records: seq<T>, maxPriority: Option<string>, priority: T -> Option<int>)
    ensures FilterPriority(records, maxPriority, priority) == Filter(records, Kept(priority, PriorityCap(maxPriority)))
  {
    var cap := PriorityCap(maxPriority);
    match cap
    case Some(m) =>
      FilterFilter(records, NonNegative(priority), AtMost(priority, m), Kept(priority, cap));
    case None =>
      FilterSame(records, NonNegative(priority), Kept(priority, cap));
  }

  // ---------------------------------------------------------------------------
  // filter_blitz and filter_blitz_index
  // ---------------------------------------------------------------------------

  /** The test of `filter_blitz`: a non-empty finding that is selected. */
  function FindingSelected<T>(finding: T -> Option<string>, selected: seq<string>): T -> bool {
    x => Truthy(finding(x)) && finding(x).value in selected
  }

  /** `filter_blitz`: `deselect_all` empties the list; no selection keeps it;
      otherwise a record stays iff its non-empty finding is selected. */
  function FilterBlitz<T(==)>(records: seq<T>, selected: seq<string>, deselectAll: bool, finding: T -> Option<string>): (r: seq<T>)
    ensures deselectAll ==> r == []
    ensures !deselectAll && selected == [] ==> r == records
    ensures !deselectAll && selected != [] ==>
      && (forall k :: 0 <= k < |r| ==> Truthy(finding(r[k])) && finding(r[k]).value in selected)
      && (forall k :: 0 <= k < |records| && Truthy(finding(records[k])) && finding(records[k]).value in selected ==> records[k] in r)
      && KeepsCopiesOf(r, records, FindingSelected(finding, selected))
    ensures IsSubseq(r, records)
  {
    if deselectAll then []
    else if selected == [] then IsSubseqRefl(records); records
    else
      FilterIsSubseq(records, FindingSelected(finding, selected));
      FilterCounts(records, FindingSelected(finding, selected));
      Filter(records, FindingSelected(finding, selected))
  }

  /** The group of a finding: the text before its first `:`; findings that
      are absent, empty or without a `:` have none. */
  function GroupOf(finding: Option<string>): (g: Option<string>)
    ensures g.Some? ==> Truthy(finding) && ':' in finding.value && ':' !in g.value
    ensures g.Some? ==> StartsWith(finding.value, g.value + [':'])
    ensures g.None? ==> !Truthy(finding) || ':' !in finding.value
  {
    if Truthy(finding) then
      match IndexOf(finding.value, ':')
      case Some(i) => assert finding.value[..i + 1] == finding.value[..i] + [':']; Some(finding.value[..i])
      case None => None
    else None
  }

  /** Strictly increasing in code-point order: sorted and free of repeats. */
  predicate StrictlySorted(s: seq<string>) {
    forall i, j :: 0 <= i < j < |s| ==> Less(s[i], s[j])
  }

  /** Adds `g` to a strictly sorted list, keeping it strictly sorted. */
  function InsertSorted(s: seq<string>, g: string): (r: seq<string>)
    requires StrictlySorted(s)
    ensures StrictlySorted(r)
    ensures forall y :: y in r <==> y in s || y == g
    decreases |s|
  {
    if s == [] then [g]
    else if g == s[0] then s
    else if Less(g, s[0]) then
      assert forall k :: 0 < k < |s| ==> Less(g, s[k]) by {
        forall k | 0 < k < |s| ensures Less(g, s[k]) {
          LessTransitive(g, s[0], s[k]);
        }
      }
      [g] + s
    else
      LessTotal(g, s[0]);
      var rest := InsertSorted(s[1..], g);
      assert forall k :: 0 <= k < |rest| ==> Less(s[0], rest[k]) by {
        forall k | 0 <= k < |rest| ensures Less(s[0], rest[k]) {
          if rest[k] != g {
            assert rest[k] in s[1..];
            var j :| 0 <= j < |s[1..]| && s[1..][j] == rest[k];
            assert s[1..][j] == s[j + 1];
          }
        }
      }
      var r := [s[0]] + rest;
      assert forall i, j :: 0 < i < j < |r| ==> Less(r[i], r[j]) by {
        assert forall i :: 0 < i < |r| ==> r[i] == rest[i - 1];
      }
      r
  }

  /** `sorted(set of groups)`: the distinct groups of the records' findings in
      code-point order. */
  function FindingGroups<T>(records: seq<T>, finding: T -> Option<string>): (r: seq<string>)
    ensures StrictlySorted(r)
    ensures forall g :: g in r <==> HasGroup(records, finding, g)
    decreases |records|
  {
    if records == [] then []
    else
      var rest := FindingGroups(records[1..], finding);
      var r := match GroupOf(finding(records[0]))
        case Some(g) => InsertSorted(rest, g)
        case None => rest;
      forall g ensures g in r <==> HasGroup(records, finding, g) {
        HasGroupCons(records, finding, g);
      }
      r
  }

  /** Some record's finding has group `g`. */
  predicate HasGroup<T>(records: seq<T>, finding: T -> Option<string>, g: string) {
    exists k :: 0 <= k < |records| && GroupOf(finding(records[k])) == Some(g)
  }

  lemma HasGroupCons<T>(records: seq<T>, finding: T -> Option<string>, g: string)
    requires records != []
    ensures HasGroup(records, finding, g)
        <==> GroupOf(finding(records[0])) == Some(g) || HasGroup(records[1..], finding, g)
  {
    if HasGroup(records, finding, g) && GroupOf(finding(records[0])) != Some(g) {
      var k :| 0 <= k < |records| && GroupOf(finding(records[k])) == Some(g);
      assert records[1..][k - 1] == records[k];
    }
    if HasGroup(records[1..], finding, g) {
      var k :| 0 <= k < |records[1..]| && GroupOf(finding(records[1..][k])) == Some(g);
      assert records[k + 1] == records[1..][k];
    }
  }

  /** The group of a record, when it is selected. */
  predicate GroupSelected(finding: Option<string>, selected: seq<string>) {
    GroupOf(finding).Some? && GroupOf(finding).value in selected
  }

  function GroupIsSelected<T>(finding: T -> Option<string>, selected: seq<string>): T -> bool {
    x => GroupSelected(finding(x), selected)
  }

  /** `filter_blitz_index`: the records, the sorted groups and the selection
      it returns. */
  function FilterBlitzIndex<T(==)>(records: seq<T>, selected: seq<string>, deselectAll: bool, finding: T -> Option<string>)
    : (r: (seq<T>, seq<string>, seq<string>))
    ensures r.1 == FindingGroups(records, finding)
    ensures deselectAll ==> r.0 == [] && r.2 == []
    ensures !deselectAll && selected == [] ==> r.0 == records && r.2 == r.1
    ensures !deselectAll && selected != [] ==>
      && r.2 == selected
      && (forall k :: 0 <= k < |r.0| ==> GroupSelected(finding(r.0[k]), selected))
      && (forall k :: 0 <= k < |records| && GroupSelected(finding(records[k]), selected) ==> records[k] in r.0)
      && KeepsCopiesOf(r.0, records, GroupIsSelected(finding, selected))
    ensures IsSubseq(r.0, records)
  {
    var groups := FindingGroups(records, finding);
    if deselectAll then ([], groups, [])
    else if selected == [] then IsSubseqRefl(records); (records, groups, groups)
    else
      FilterIsSubseq(records, GroupIsSelected(finding, selected));
      FilterCounts(records, GroupIsSelected(finding, selected));
      (Filter(records, GroupIsSelected(finding, selected)), groups, selected)
  }

  // ---------------------------------------------------------------------------
  // filter_blitz_cache, sort_records, filter_by_hour
  // ---------------------------------------------------------------------------

  /** The metrics of a Blitz Cache row the page filters and sorts on. Integer
      metrics are carried as reals, which compare the same way. */
  datatype CacheFields<-T> = CacheFields(
    avgCpuMs: T -> Option<real>,
    totalCpuMs: T -> Option<real>,
    executions: T -> Option<real>,
    totalReads: T -> Option<real>,
    lastExecutionHour: T -> Option<int>)

  /** The threshold an argument sets: none when it is absent, empty or does
      not parse. */
  function Threshold(arg: Option<string>, parse: string -> Option<real>): Option<real> {
    if Truthy(arg) then parse(arg.value) else None
  }

  /** `int(s)` as a threshold. */
  function ParseIntAsReal(s: string): Option<real> {
    match ParseInt(s)
    case Some(i) => Some(i as real)
    case None => None
  }

  predicate Meets(v: Option<real>, threshold: Option<real>) {
    threshold.Some? ==> v.Some? && v.value >= threshold.value
  }

  function MeetsThreshold<T>(metric: T -> Option<real>, threshold: Option<real>): T -> bool {
    x => Meets(metric(x), threshold)
  }

  /** One threshold stage. */
  function AtLeast<T(==)>(records: seq<T>, threshold: Option<real>, metric: T -> Option<real>): (r: seq<T>)
    ensures forall k :: 0 <= k < |r| ==> Meets(metric(r[k]), threshold)
    ensures forall k :: 0 <= k < |records| && Meets(metric(records[k]), threshold) ==> records[k] in r
    ensures KeepsCopiesOf(r, records, MeetsThreshold(metric, threshold))
    ensures IsSubseq(r, records)
  {
    match threshold
    case None => IsSubseqRefl(records); records
    case Some(t) =>
      FilterIsSubseq(records, MeetsThreshold(metric, threshold));
      FilterCounts(records, MeetsThreshold(metric, threshold));
      Filter(records, MeetsThreshold(metric, threshold))
  }

  /** Every active threshold of `filter_blitz_cache` holds of `x`. */
  predicate MeetsAll<T>(x: T, f: CacheFields<T>, minAvgCpu: Option<real>, minTotalCpu: Option<real>, minExecutions: Option<real>, minTotalReads: Option<real>) {
    && Meets(f.avgCpuMs(x), minAvgCpu)
    && Meets(f.totalCpuMs(x), minTotalCpu)
    && Meets(f.executions(x), minExecutions)
    && Meets(f.totalReads(x), minTotalReads)
  }

  function MeetsAllOf<T>(f: CacheFields<T>, minAvgCpu: Option<real>, minTotalCpu: Option<real>, minExecutions: Option<real>, minTotalReads: Option<real>): T -> bool {
    x => MeetsAll(x, f, minAvgCpu, minTotalCpu, minExecutions, minTotalReads)
  }

  /** `filter_blitz_cache`: the four thresholds in turn; `float()` is the
      parameter `parseFloat`, `int()` the integer parser. */
  function FilterBlitzCache<T(==)>(records: seq<T>, f: CacheFields<T>,
                                   minAvgCpu: Option<string>, minTotalCpu: Option<string>,
                                   minExecutions: Option<string>, minTotalReads: Option<string>,
                                   parseFloat: string -> Option<real>): (r: seq<T>)
    ensures var a := Threshold(minAvgCpu, parseFloat);
      var b := Threshold(minTotalCpu, parseFloat);
      var c := Threshold(minExecutions, ParseIntAsReal);
      var d := Threshold(minTotalReads, ParseIntAsReal);
      && (forall k :: 0 <= k < |r| ==> MeetsAll(r[k], f, a, b, c, d))
      && (forall k :: 0 <= k < |records| && MeetsAll(records[k], f, a, b, c, d) ==> records[k] in r)
      && KeepsCopiesOf(r, records, MeetsAllOf(f, a, b, c, d))
    ensures IsSubseq(r, records)
  {
    var a := Threshold(minAvgCpu, parseFloat);
    var b := Threshold(minTotalCpu, parseFloat);
    var c := Threshold(minExecutions, ParseIntAsReal);
    var d := Threshold(minTotalReads, ParseIntAsReal);
    var r := AtLeast(AtLeast(AtLeast(AtLeast(records, a, f.avgCpuMs), b, f.totalCpuMs), c, f.executions), d, f.totalReads);
    ThresholdsAreOneFilter(records, f, a, b, c, d);
    FilterIsSubseq(records, MeetsAllOf(f, a, b, c, d));
    FilterCounts(records, MeetsAllOf(f, a, b, c, d));
    r
  }

  /** A threshold stage is one comprehension; an absent threshold keeps
      everything. */
  lemma AtLeastIsFilter<T>(records: seq<T>, threshold: Option<real>, metric: T -> Option<real>)
    ensures AtLeast(records, threshold, metric) == Filter(records, MeetsThreshold(metric, threshold))
  {
    if threshold.None? {
      FilterAll(records, MeetsThreshold(metric, threshold));
    }
  }

  /** The four threshold stages in turn amount to one comprehension testing
      all four thresholds. */
  lemma ThresholdsAreOneFilter<T>(records: seq<T>, f: CacheFields<T>, a: Option<real>, b: Option<real>, c: Option<real>, d: Option<real>)
    ensures AtLeast(AtLeast(AtLeast(AtLeast(records, a, f.avgCpuMs), b, f.totalCpuMs), c, f.executions), d, f.totalReads)
         == Filter(records, MeetsAllOf(f, a, b, c, d))
  {
    var p1, p2 := MeetsThreshold(f.avgCpuMs, a), MeetsThreshold(f.totalCpuMs, b);
    var p3, p4 := MeetsThreshold(f.executions, c), MeetsThreshold(f.totalReads, d);
    var s1 := AtLeast(records, a, f.avgCpuMs);
    var s2 := AtLeast(s1, b, f.totalCpuMs);
    var s3 := AtLeast(s2, c, f.executions);
    AtLeastIsFilter(records, a, f.avgCpuMs);
    AtLeastIsFilter(s1, b, f.totalCpuMs);
    FilterFilter(records, p1, p2, Both(p1, p2));
    AtLeastIsFilter(s2, c, f.executions);
    FilterFilter(records, Both(p1, p2), p3, Both(Both(p1, p2), p3));
    AtLeastIsFilter(s3, d, f.totalReads);
    FilterFilter(records, Both(Both(p1, p2), p3), p4, MeetsAllOf(f, a, b, c, d));
  }

  /** The columns `sort_records` sorts on. */
  const SortColumns: seq<string> := ["avg_cpu_ms", "total_cpu_ms", "executions", "total_reads"]

  /** `getattr(x, sort_by) or 0`. */
  function SortKey<T>(f: CacheFields<T>, sortBy: string): T -> real
    requires sortBy in SortColumns
  {
    var metric := if sortBy == "avg_cpu_ms" then f.avgCpuMs
      else if sortBy == "total_cpu_ms" then f.totalCpuMs
      else if sortBy == "executions" then f.executions
      else f.totalReads;
    x => metric(x).GetOr(0.0)
  }

  /** `sort_records`: for a sortable column, the records ordered by that
      metric (absent as 0), descending iff the order is `desc`; otherwise the
      records as given. */
  function SortRecords<T(==)>(records: seq<T>, f: CacheFields<T>, sortBy: Option<string>, sortOrder: string): (r: seq<T>)
    ensures multiset(r) == multiset(records)
    ensures sortBy.Some? && sortBy.value in SortColumns ==> SortedBy(r, SortKey(f, sortBy.value), sortOrder == "desc")
    ensures !(sortBy.Some? && sortBy.value in SortColumns) ==> r == records
  {
    if sortBy.Some? && sortBy.value in SortColumns then SortBy(records, SortKey(f, sortBy.value), sortOrder == "desc")
    else records
  }

  /** Records with equal sort keys keep their relative order. */
  lemma SortRecordsStable<T>(records: seq<T>, f: CacheFields<T>, sortBy: string, sortOrder: string, c: real)
    requires sortBy in SortColumns
    ensures Filter(SortRecords(records, f, Some(sortBy), sortOrder), HasKey(SortKey(f, sortBy), c))
         == Filter(records, HasKey(SortKey(f, sortBy), c))
  {
    SortByStable(records, SortKey(f, sortBy), sortOrder == "desc", c);
  }

  /** The hour window: inclusive, and wrapping past midnight when the start
      is after the end. */
  predicate InWindow(start: int, end: int, hour: int) {
    if start <= end then start <= hour <= end else hour >= start || hour <= end
  }

  /** A record whose execution hour is known and lies in the window. */
  function HourIn<T>(hour: T -> Option<int>, start: int, end: int): T -> bool {
    x => hour(x).Some? && InWindow(start, end, hour(x).value)
  }

  /** The records whose execution hour lies in the window; records without a
      usable time are dropped. */
  function InWindowRecords<T(==)>(records: seq<T>, start: int, end: int, hour: T -> Option<int>): (r: seq<T>)
    ensures forall k :: 0 <= k < |r| ==> hour(r[k]).Some? && InWindow(start, end, hour(r[k]).value)
    ensures forall k :: 0 <= k < |records| && hour(records[k]).Some? && InWindow(start, end, hour(records[k]).value) ==> records[k] in r
    ensures KeepsCopiesOf(r, records, HourIn(hour, start, end))
    ensures IsSubseq(r, records)
  {
    FilterIsSubseq(records, HourIn(hour, start, end));
    FilterCounts(records, HourIn(hour, start, end));
    Filter(records, HourIn(hour, start, end))
  }

  /** `filter_by_hour` as written: when either hour is missing or empty it
      falls off the end of the function and returns `None`. */
  function FilterByHourAsWritten<T(==)>(startHour: Option<string>, endHour: Option<string>, records: seq<T>, hour: T -> Option<int>): (r: Option<seq<T>>)
    ensures r.None? <==> !(Truthy(startHour) && Truthy(endHour))
  {
    if Truthy(startHour) && Truthy(endHour) then
      match (ParseInt(startHour.value), ParseInt(endHour.value))
      case (Some(s), Some(e)) => Some(InWindowRecords(records, s, e, hour))
      case _ => Some(records)
    else None
  }

  /** Opening the Blitz Cache page with no hour window loses the records:
      the as-written filter hands `None` on to the sort. */
  lemma NoWindowLosesRecords<T>(records: seq<T>, hour: T -> Option<int>, endHour: Option<string>)
    ensures FilterByHourAsWritten(None, endHour, records, hour) == None
    ensures FilterByHourAsWritten(Some(""), endHour, records, hour) == None
  {
  }

  /** The window to filter by: present exactly when both hours are given
      and both read as integers. */
  function HourWindow(startHour: Option<string>, endHour: Option<string>): (w: Option<(int, int)>)
    ensures w.Some? <==> Truthy(startHour) && Truthy(endHour)
                         && ParseInt(startHour.value).Some? && ParseInt(endHour.value).Some?
    ensures w.Some? ==> w.value == (ParseInt(startHour.value).value, ParseInt(endHour.value).value)
  {
    if !Truthy(startHour) || !Truthy(endHour) then None
    else
      match (ParseInt(startHour.value), ParseInt(endHour.value))
      case (Some(s), Some(e)) => Some((s, e))
      case _ => None
  }

  /** `filter_by_hour` as evidently intended: without a complete window, or
      with hours that are not integers, the records pass unchanged. */
  function FilterByHour<T(==)>(startHour: Option<string>, endHour: Option<string>, records: seq<T>, hour: T -> Option<int>): (r: seq<T>)
    ensures IsSubseq(r, records)
    ensures !(Truthy(startHour) && Truthy(endHour)) ==> r == records
    ensures Truthy(startHour) && Truthy(endHour) && ParseInt(startHour.value).Some? && ParseInt(endHour.value).Some? ==>
      var s := ParseInt(startHour.value).value;
      var e := ParseInt(endHour.value).value;
      && (forall k :: 0 <= k < |r| ==> hour(r[k]).Some? && InWindow(s, e, hour(r[k]).value))
      && (forall k :: 0 <= k < |records| && hour(records[k]).Some? && InWindow(s, e, hour(records[k]).value) ==> records[k] in r)
    ensures Truthy(startHour) && Truthy(endHour) && (ParseInt(startHour.value).None? || ParseInt(endHour.value).None?) ==> r == records
    ensures HourWindow(startHour, endHour).Some? ==>
      var w := HourWindow(startHour, endHour).value;
      KeepsCopiesOf(r, records, HourIn(hour, w.0, w.1))
  {
    match HourWindow(startHour, endHour)
    case Some((s, e)) => InWindowRecords(records, s, e, hour)
    case None => IsSubseqRefl(records); records
  }

  /** With both hours given the source returns a list, and the corrected
      filter returns the same list. */
  lemma FilterByHourAgrees<T>(startHour: Option<string>, endHour: Option<string>, records: seq<T>, hour: T -> Option<int>)
    requires Truthy(startHour) && Truthy(endHour)
    ensures FilterByHourAsWritten(startHour, endHour, records, hour) == Some(FilterByHour(startHour, endHour, records, hour))
  {
    match HourWindow(startHour, endHour)
    case Some((s, e)) =>
      assert ParseInt(startHour.value) == Some(s) && ParseInt(endHour.value) == Some(e);
    case None =>
  }

  /** Shown on the Blitz Cache page: every active threshold holds and, when
      there is an hour window, the execution hour lies in it. */
  function CacheShown<T>(f: CacheFields<T>, minAvgCpu: Option<real>, minTotalCpu: Option<real>,
                         minExecutions: Option<real>, minTotalReads: Option<real>,
                         window: Option<(int, int)>): T -> bool {
    x => MeetsAll(x, f, minAvgCpu, minTotalCpu, minExecutions, minTotalReads)
         && (window.Some? ==> HourIn(f.lastExecutionHour, window.value.0, window.value.1)(x))
  }

  /** The Blitz Cache branch of the procedure page: thresholds, hour window,
      then sort. The page shows every copy of each record that meets the
      thresholds and lies in the window, and nothing else, ordered by the
      sort column when there is one and in input order otherwise. */
  function CacheView<T(==)>(records: seq<T>, f: CacheFields<T>,
                            minAvgCpu: Option<string>, minTotalCpu: Option<string>,
                            minExecutions: Option<string>, minTotalReads: Option<string>,
                            startHour: Option<string>, endHour: Option<string>,
                            sortBy: Option<string>, sortOrder: string,
                            parseFloat: string -> Option<real>): (r: seq<T>)
    ensures |r| <= |records|
    ensures forall k :: 0 <= k < |r| ==>
      && r[k] in records
      && MeetsAll(r[k], f, Threshold(minAvgCpu, parseFloat), Threshold(minTotalCpu, parseFloat),
                  Threshold(minExecutions, ParseIntAsReal), Threshold(minTotalReads, ParseIntAsReal))
    ensures HourWindow(startHour, endHour).Some? ==>
      var w := HourWindow(startHour, endHour).value;
      forall k :: 0 <= k < |r| ==> f.lastExecutionHour(r[k]).Some? && InWindow(w.0, w.1, f.lastExecutionHour(r[k]).value)
    ensures KeepsCopiesOf(r, records,
      CacheShown(f, Threshold(minAvgCpu, parseFloat), Threshold(minTotalCpu, parseFloat),
                 Threshold(minExecutions, ParseIntAsReal), Threshold(minTotalReads, ParseIntAsReal),
                 HourWindow(startHour, endHour)))
    ensures sortBy.Some? && sortBy.value in SortColumns ==> SortedBy(r, SortKey(f, sortBy.value), sortOrder == "desc")
    ensures !(sortBy.Some? && sortBy.value in SortColumns) ==> IsSubseq(r, records)
  {
    var shown := CacheShown(f, Threshold(minAvgCpu, parseFloat), Threshold(minTotalCpu, parseFloat),
                            Threshold(minExecutions, ParseIntAsReal), Threshold(minTotalReads, ParseIntAsReal),
                            HourWindow(startHour, endHour));
    var windowed := FilterByHour(startHour, endHour,
      FilterBlitzCache(records, f, minAvgCpu, minTotalCpu, minExecutions, minTotalReads, parseFloat),
      f.lastExecutionHour);
    CacheFiltersAreOneFilter(records, f, minAvgCpu, minTotalCpu, minExecutions, minTotalReads, startHour, endHour, parseFloat);
    FilterIsSubseq(records, shown);
    FilterCounts(records, shown);
    IsSubseqLength(windowed, records);
    var sorted := SortRecords(windowed, f, sortBy, sortOrder);
    PermutationMembers(sorted, windowed);
    KeepsCopiesPermuted(windowed, sorted, records, shown);
    sorted
  }

  /** Thresholds followed by the hour window amount to one comprehension
      with the combined test. */
  lemma CacheFiltersAreOneFilter<T>(records: seq<T>, f: CacheFields<T>,
                                    minAvgCpu: Option<string>, minTotalCpu: Option<string>,
                                    minExecutions: Option<string>, minTotalReads: Option<string>,
                                    startHour: Option<string>, endHour: Option<string>,
                                    parseFloat: string -> Option<real>)
    ensures FilterByHour(startHour, endHour,
              FilterBlitzCache(records, f, minAvgCpu, minTotalCpu, minExecutions, minTotalReads, parseFloat),
              f.lastExecutionHour)
         == Filter(records, CacheShown(f, Threshold(minAvgCpu, parseFloat), Threshold(minTotalCpu, parseFloat),
                                       Threshold(minExecutions, ParseIntAsReal), Threshold(minTotalReads, ParseIntAsReal),
                                       HourWindow(startHour, endHour)))
  {
    var a := Threshold(minAvgCpu, parseFloat);
    var b := Threshold(minTotalCpu, parseFloat);
    var c := Threshold(minExecutions, ParseIntAsReal);
    var d := Threshold(minTotalReads, ParseIntAsReal);
    var window := HourWindow(startHour, endHour);
    var shown := CacheShown(f, a, b, c, d, window);
    ThresholdsAreOneFilter(records, f, a, b, c, d);
    assert FilterBlitzCache(records, f, minAvgCpu, minTotalCpu, minExecutions, minTotalReads, parseFloat)
        == Filter(records, MeetsAllOf(f, a, b, c, d));
    match window
    case Some((s, e)) =>
      FilterFilter(records, MeetsAllOf(f, a, b, c, d), HourIn(f.lastExecutionHour, s, e), shown);
    case None =>
      FilterSame(records, MeetsAllOf(f, a, b, c, d), shown);
  }
}
