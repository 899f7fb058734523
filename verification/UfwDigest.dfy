/** The UFW journal digest of `scripts/lib/ufw-digest.py`: port scans, floods and listener hits.
    A journal line is already parsed; a timestamp is a whole number of seconds. */
module UfwEvents {
  import opened Lists
  import opened Strings

  datatype Action = BLOCK | ALLOW | AUDIT

  datatype Event = Event(
    ts: Option<int>, action: Action, inIf: string, outIf: string,
    src: string, dst: string, proto: string, dpt: int)

  const REAL_LOOPBACK := {"", "lo", "lo0"}
  const DROP_DPT := {67, 68, 137, 138, 139, 1900, 3702, 5353, 5355, 546, 547}
  const MULTICAST_PFX := ["224.", "239.", "ff02:", "ff00:", "255.255.255.255"]

  predicate Multicast(dst: string) {
    exists i :: 0 <= i < |MULTICAST_PFX| && StartsWith(Lower(dst), MULTICAST_PFX[i])
  }

  /** The reason an event is dropped, if any; the branches are tried in this order. */
  function NoiseReason(e: Event): Option<string> {
    if e.dpt in DROP_DPT then Some("well_known_noise")
    else if e.inIf in {"lo", "lo0"} || e.dst in {"127.0.0.1", "::1"} then Some("lo")
    else if e.outIf == "proton0" && e.dst == "10.2.0.1" && e.dpt == 53 then Some("proton_dns")
    else if Multicast(e.dst) then Some("mcast")
    else if e.inIf == "" && e.outIf == "proton0" && e.action == ALLOW && e.dpt == 53 then Some("proton_out")
    else if e.src in {"127.0.0.1", "::1"} then Some("lo")
    else None
  }

  predicate IsNoise(e: Event) {
    NoiseReason(e).Some?
  }

  predicate InboundBlock(e: Event) {
    e.action == BLOCK && e.inIf !in REAL_LOOPBACK
  }

  /** The source's whole chain of tests: some of its reasons are covered by an earlier test. */
  function EveryReason(e: Event): Option<string> {
    if e.dpt in {67, 68, 137, 138, 139, 1900, 3702, 5353, 5355, 546, 547} then Some("well_known_noise")
    else if e.inIf == "lo" || e.inIf == "lo0" || e.dst == "127.0.0.1" || e.dst == "::1" then Some("lo")
    else if e.outIf == "proton0" && e.dst == "10.2.0.1" && e.dpt == 53 then Some("proton_dns")
    else if GoesToMany(e.dst) then Some("mcast")
    else if (e.proto == "ICMP" || e.proto == "ICMPV6") && GoesToMany(e.dst) then Some("icmp_mcast")
    else if e.inIf == "" && e.outIf == "proton0" && e.action == ALLOW && e.dpt == 53 then Some("proton_out")
    else if e.src == "127.0.0.1" || e.src == "::1" || e.dst == "127.0.0.1" || e.dst == "::1" then Some("lo")
    else None
  }

  predicate GoesToMany(dst: string) {
    "224." <= Lower(dst) || "239." <= Lower(dst) || "ff02:" <= Lower(dst) || "ff00:" <= Lower(dst)
    || "255.255.255.255" <= Lower(dst)
  }

  /** The shadowed reasons never fire: the shorter chain gives every event the same reason. */
  lemma ShadowedReasonsNeverFire(e: Event)
    ensures NoiseReason(e) == EveryReason(e) && EveryReason(e) != Some("icmp_mcast")
  {
    assert MULTICAST_PFX[0] == "224." && MULTICAST_PFX[1] == "239." && MULTICAST_PFX[2] == "ff02:";
    assert MULTICAST_PFX[3] == "ff00:" && MULTICAST_PFX[4] == "255.255.255.255";
    assert Multicast(e.dst) <==> GoesToMany(e.dst);
  }
}

/** The sliding-window port-scan detector. */
module UfwScans {
  import opened Lists
  import opened Sorting
  import opened UfwEvents

  datatype ScanRow = ScanRow(src: string, dpts: nat, secs: int)

  const WINDOW := 60
  const SCAN_PORTS := 10

  /** A scan candidate: inbound BLOCK with a time, a source and a port. */
  predicate Candidate(e: Event) {
    InboundBlock(e) && e.ts.Some? && e.src != "" && e.dpt != 0
  }

  function Time(e: Event): int {
    e.ts.GetOr(0)
  }

  // ----- Order-free specification

  /** What one source did: the set of its candidates. Order and repetition are gone. */
  ghost function From(events: seq<Event>, src: string): set<Event> {
    set e | e in events && Candidate(e) && e.src == src
  }

  /** Distinct ports in the 60 seconds that end at `t`. */
  ghost function PortsUntil(hits: set<Event>, t: int): set<int> {
    set e | e in hits && t - WINDOW <= Time(e) <= t :: e.dpt
  }

  ghost predicate Alarm(hits: set<Event>, t: int) {
    |PortsUntil(hits, t)| >= SCAN_PORTS
  }

  /** The events that close an alarming window. */
  ghost function Alarms(hits: set<Event>): set<Event> {
    set e | e in hits && Alarm(hits, Time(e))
  }

  ghost function Window(hits: set<Event>, t: int): set<Event> {
    set e | e in hits && t - WINDOW <= Time(e) <= t
  }

  ghost predicate Scanner(hits: set<Event>) {
    Alarms(hits) != {}
  }

  ghost function Earliest(s: set<Event>): (m: Event)
    requires s != {}
    ensures m in s
    ensures forall e :: e in s ==> Time(m) <= Time(e)
  {
    var e :| e in s;
    var rest := s - {e};
    assert forall x :: x in s ==> x == e || x in rest;
    if rest == {} then assert forall x :: x !in rest; e else
      var m := Earliest(rest);
      if Time(e) < Time(m) then e else m
  }

  /** Seconds between the first alarm and the first event of its window, at least 1. */
  ghost function Secs(hits: set<Event>): int
    requires Scanner(hits)
  {
    var t := Time(Earliest(Alarms(hits)));
    assert Earliest(Alarms(hits)) in Window(hits, t);
    var d := t - Time(Earliest(Window(hits, t)));
    if d > 1 then d else 1
  }

  // ----- Sorting

  ghost predicate Sorted(rows: seq<Event>) {
    forall i, j :: 0 <= i < j < |rows| ==> Time(rows[i]) <= Time(rows[j])
  }

  /** The stable sort by time. */
  function SortByTime(rows: seq<Event>): seq<Event> {
    SortDesc((e: Event) => -Time(e), rows)
  }

  lemma SortCorrect(rows: seq<Event>)
    ensures Sorted(SortByTime(rows))
    ensures forall x :: x in SortByTime(rows) <==> x in rows
  {
    var key := (e: Event) => -Time(e);
    SortDescSorts(key, rows);
    forall i, j | 0 <= i < j < |SortByTime(rows)| ensures Time(SortByTime(rows)[i]) <= Time(SortByTime(rows)[j]) {
      assert key(SortByTime(rows)[i]) >= key(SortByTime(rows)[j]);
    }
  }

  // ----- The two-pointer loop

  ghost function All(rows: seq<Event>): set<Event> {
    set e | e in rows
  }

  /** No alarm within the first `n` rows, each row judged by the rows up to itself. */
  ghost predicate Quiet(rows: seq<Event>, n: nat)
    requires n <= |rows|
  {
    forall k :: 0 <= k < n ==> !RowAlarms(rows, k)
  }

  ghost predicate RowAlarms(rows: seq<Event>, k: nat)
    requires k < |rows|
  {
    Alarm(All(rows[..k + 1]), Time(rows[k]))
  }

  /** The last row that carries the time of row `k`. */
  lemma {:induction false} LastTie(rows: seq<Event>, k: nat) returns (r: nat)
    requires Sorted(rows) && k < |rows|
    ensures k <= r < |rows| && Time(rows[r]) == Time(rows[k])
    ensures r + 1 < |rows| ==> Time(rows[r + 1]) > Time(rows[r])
    decreases |rows| - k
  {
    r := k;
    if k + 1 < |rows| && Time(rows[k + 1]) == Time(rows[k]) {
      r := LastTie(rows, k + 1);
    }
  }

  lemma PortsOfPrefix(rows: seq<Event>, r: nat)
    requires Sorted(rows) && r < |rows|
    requires r + 1 < |rows| ==> Time(rows[r + 1]) > Time(rows[r])
    ensures PortsUntil(All(rows), Time(rows[r])) == PortsUntil(All(rows[..r + 1]), Time(rows[r]))
  {
  }

  /** Ties are no loophole: an event that alarms in the whole set belongs to a row that alarms
      in its own prefix, at the same time. */
  lemma AlarmHasRow(rows: seq<Event>, e: Event) returns (r: nat)
    requires Sorted(rows) && e in Alarms(All(rows))
    ensures r < |rows| && RowAlarms(rows, r) && Time(rows[r]) == Time(e)
  {
    assert e in rows;
    var k :| 0 <= k < |rows| && rows[k] == e;
    r := LastTie(rows, k);
    PortsOfPrefix(rows, r);
    assert Alarm(All(rows), Time(rows[r]));
  }

  lemma OneMorePort(rows: seq<Event>, j: nat)
    requires Sorted(rows) && j < |rows| && Quiet(rows, j)
    ensures |PortsUntil(All(rows[..j + 1]), Time(rows[j]))| <= SCAN_PORTS
  {
    var now := PortsUntil(All(rows[..j + 1]), Time(rows[j]));
    if j == 0 {
      forall p | p in now ensures p in {rows[0].dpt} {
      }
      SubsetSize(now, {rows[0].dpt});
    } else {
      var before := PortsUntil(All(rows[..j]), Time(rows[j - 1]));
      forall p | p in now ensures p in before + {rows[j].dpt} {
        if p != rows[j].dpt {
          PortIsOld(rows, j, p);
        }
      }
      SubsetSize(now, before + {rows[j].dpt});
      assert !RowAlarms(rows, j - 1);
    }
  }

  lemma PortIsOld(rows: seq<Event>, j: nat, p: int)
    requires Sorted(rows) && 0 < j < |rows|
    requires p in PortsUntil(All(rows[..j + 1]), Time(rows[j])) && p != rows[j].dpt
    ensures p in PortsUntil(All(rows[..j]), Time(rows[j - 1]))
  {
  }

  /** Row `i` opens the window of row `j`. */
  ghost predicate Opens(rows: seq<Event>, i: nat, j: nat)
    requires i <= j < |rows|
  {
    (forall k :: 0 <= k < i ==> Time(rows[k]) < Time(rows[j]) - WINDOW)
    && Time(rows[j]) - Time(rows[i]) <= WINDOW
  }

  /** The ports of rows `i..=j`. */
  method WindowPorts(rows: seq<Event>, i: nat, j: nat) returns (dpts: set<int>)
    requires Sorted(rows) && i <= j < |rows| && Opens(rows, i, j)
    ensures |dpts| >= SCAN_PORTS <==> RowAlarms(rows, j)
    ensures Quiet(rows, j) ==> |dpts| <= SCAN_PORTS
  {
    dpts := set k | i <= k <= j :: rows[k].dpt;
    ghost var ports := PortsUntil(All(rows[..j + 1]), Time(rows[j]));
    forall k | i <= k <= j ensures rows[k].dpt in ports {
      RowInWindow(rows, i, j, k);
    }
    forall p | p in ports ensures p in dpts {
      var k := PortHasRow(rows, i, j, p);
    }
    assert dpts == ports;
    if Quiet(rows, j) {
      OneMorePort(rows, j);
    }
  }

  lemma RowInWindow(rows: seq<Event>, i: nat, j: nat, k: nat)
    requires Sorted(rows) && i <= k <= j < |rows| && Opens(rows, i, j)
    ensures rows[k].dpt in PortsUntil(All(rows[..j + 1]), Time(rows[j]))
  {
  }

  lemma PortHasRow(rows: seq<Event>, i: nat, j: nat, p: int) returns (k: nat)
    requires Sorted(rows) && i <= j < |rows| && Opens(rows, i, j)
    requires p in PortsUntil(All(rows[..j + 1]), Time(rows[j]))
    ensures i <= k <= j && rows[k].dpt == p
  {
    var e :| e in All(rows[..j + 1]) && Time(rows[j]) - WINDOW <= Time(e) <= Time(rows[j]) && e.dpt == p;
    k :| 0 <= k < j + 1 && rows[..j + 1][k] == e;
  }

  lemma AlarmGrows(rows: seq<Event>, j: nat)
    requires j < |rows| && RowAlarms(rows, j)
    ensures rows[j] in Alarms(All(rows))
  {
    var t := Time(rows[j]);
    forall e | e in All(rows[..j + 1]) ensures e in All(rows) {
    }
    forall p | p in PortsUntil(All(rows[..j + 1]), t) ensures p in PortsUntil(All(rows), t) {
    }
    SubsetSize(PortsUntil(All(rows[..j + 1]), t), PortsUntil(All(rows), t));
  }

  lemma NoEarlierAlarm(rows: seq<Event>, j: nat, e: Event)
    requires Sorted(rows) && j < |rows| && Quiet(rows, j)
    requires e in Alarms(All(rows))
    ensures Time(rows[j]) <= Time(e)
  {
    var r := AlarmHasRow(rows, e);
    assert j <= r;
  }

  lemma WindowOpensAt(rows: seq<Event>, i: nat, j: nat, e: Event)
    requires Sorted(rows) && i <= j < |rows| && Opens(rows, i, j)
    requires e in Window(All(rows), Time(rows[j]))
    ensures Time(rows[i]) <= Time(e)
  {
  }

  lemma SecsBetween(hits: set<Event>, a: Event, b: Event)
    requires b in Alarms(hits) && forall e :: e in Alarms(hits) ==> Time(b) <= Time(e)
    requires a in Window(hits, Time(b)) && forall e :: e in Window(hits, Time(b)) ==> Time(a) <= Time(e)
    ensures Scanner(hits)
    ensures var d := Time(b) - Time(a); Secs(hits) == if d > 1 then d else 1
  {
  }

  lemma FirstAlarm(rows: seq<Event>, i: nat, j: nat)
    requires Sorted(rows) && i <= j < |rows| && Opens(rows, i, j) && Quiet(rows, j)
    requires RowAlarms(rows, j)
    ensures Scanner(All(rows))
    ensures var d := Time(rows[j]) - Time(rows[i]); Secs(All(rows)) == if d > 1 then d else 1
  {
    var all := All(rows);
    AlarmGrows(rows, j);
    forall e | e in Alarms(all) ensures Time(rows[j]) <= Time(e) {
      NoEarlierAlarm(rows, j, e);
    }
    forall e | e in Window(all, Time(rows[j])) ensures Time(rows[i]) <= Time(e) {
      WindowOpensAt(rows, i, j, e);
    }
    SecsBetween(all, rows[i], rows[j]);
  }

  lemma AllQuiet(rows: seq<Event>)
    requires Sorted(rows) && Quiet(rows, |rows|)
    ensures !Scanner(All(rows))
  {
    if e :| e in Alarms(All(rows)) {
      var r := AlarmHasRow(rows, e);
    }
    assert forall e :: e !in Alarms(All(rows));
  }

  method FirstRow(src: string, rows: seq<Event>, i: nat, j: nat, dpts: nat) returns (row: ScanRow)
    requires Sorted(rows) && i <= j < |rows| && Opens(rows, i, j) && Quiet(rows, j)
    requires RowAlarms(rows, j) && dpts == SCAN_PORTS
    ensures Scanner(All(rows)) && row == ScanRow(src, SCAN_PORTS, Secs(All(rows)))
  {
    FirstAlarm(rows, i, j);
    var d := Time(rows[j]) - Time(rows[i]);
    return ScanRow(src, dpts, if d > 1 then d else 1);
  }

  /** One pass over one source's sorted rows. */
  method ScanSource(src: string, rows: seq<Event>) returns (row: Option<ScanRow>)
    requires Sorted(rows)
    ensures row.Some? <==> Scanner(All(rows))
    ensures row.Some? ==> row.value == ScanRow(src, SCAN_PORTS, Secs(All(rows)))
  {
    var i, j := 0, 0;
    while j < |rows|
      invariant 0 <= i <= j <= |rows|
      invariant j > 0 ==> i < j && Opens(rows, i, j - 1)
      invariant Quiet(rows, j)
    {
      i := Advance(rows, i, j);
      var dpts := WindowPorts(rows, i, j);
      if |dpts| >= SCAN_PORTS {
        var first := FirstRow(src, rows, i, j, |dpts|);
        return Some(first);
      }
      j := j + 1;
    }
    AllQuiet(rows);
    return None;
  }

  /** Moves the left pointer until the window of row `j` spans at most 60 seconds. */
  method Advance(rows: seq<Event>, start: nat, j: nat) returns (i: nat)
    requires Sorted(rows) && start <= j < |rows|
    requires j > 0 ==> start < j && Opens(rows, start, j - 1)
    requires j == 0 ==> start == 0
    ensures i <= j && Opens(rows, i, j)
  {
    i := start;
    while Time(rows[j]) - Time(rows[i]) > WINDOW
      invariant i <= j
      invariant forall k :: 0 <= k < i ==> Time(rows[k]) < Time(rows[j]) - WINDOW
      decreases j - i
    {
      i := i + 1;
    }
  }

  // ----- All sources

  /** The dictionary order of the detector: sources by their first candidate. */
  function Sources(events: seq<Event>): seq<string> {
    if events == [] then [] else
      var d, e := Sources(events[..|events| - 1]), events[|events| - 1];
      if Candidate(e) && e.src !in d then d + [e.src] else d
  }

  /** Every scanner among `srcs`, one row each, in the order of `srcs`. */
  ghost function RowsFor(events: seq<Event>, srcs: seq<string>): seq<ScanRow> {
    if srcs == [] then [] else RowsFor(events, srcs[..|srcs| - 1]) + RowOf(events, srcs[|srcs| - 1])
  }

  ghost function RowOf(events: seq<Event>, src: string): seq<ScanRow> {
    if Scanner(From(events, src)) then [ScanRow(src, SCAN_PORTS, Secs(From(events, src)))] else []
  }

  /** The table before the 20-row cut. */
  ghost function AllRows(events: seq<Event>): seq<ScanRow> {
    RowsFor(events, Sources(events))
  }

  method ScansFor(events: seq<Event>) returns (out: seq<ScanRow>)
    ensures out == Take(AllRows(events), 20)
  {
    var bySrc, order := GroupBySource(events);
    out := [];
    for n := 0 to |order|
      invariant out == RowsFor(events, order[..n])
    {
      Snoc(order, n);
      var rows := SortByTime(bySrc[order[n]]);
      SortCorrect(bySrc[order[n]]);
      RowsOfAre(events, order[n]);
      assert All(rows) == From(events, order[n]);
      var row := ScanSource(order[n], rows);
      out := out + (if row.Some? then [row.value] else []);
    }
    Whole(order);
    out := Take(out, 20);
  }

  method GroupBySource(events: seq<Event>) returns (bySrc: map<string, seq<Event>>, order: seq<string>)
    ensures order == Sources(events)
    ensures forall s :: s in bySrc <==> s in order
    ensures forall s :: s in bySrc ==> bySrc[s] == RowsOf(events, s)
  {
    bySrc, order := map[], [];
    for n := 0 to |events|
      invariant order == Sources(events[..n])
      invariant forall s :: s in bySrc <==> s in order
      invariant forall s :: RowsOf(events[..n], s) == if s in bySrc then bySrc[s] else []
    {
      var e := events[n];
      Snoc(events, n);
      if Candidate(e) {
        if e.src !in bySrc {
          order := order + [e.src];
          bySrc := bySrc[e.src := []];
        }
        bySrc := bySrc[e.src := bySrc[e.src] + [e]];
      }
    }
    Whole(events);
  }

  function RowsOf(events: seq<Event>, src: string): seq<Event> {
    if events == [] then [] else
      var r, e := RowsOf(events[..|events| - 1], src), events[|events| - 1];
      if Candidate(e) && e.src == src then r + [e] else r
  }

  lemma {:induction false} RowsOfAre(events: seq<Event>, src: string)
    ensures All(RowsOf(events, src)) == From(events, src)
  {
    if events != [] {
      var init, e := events[..|events| - 1], events[|events| - 1];
      RowsOfAre(init, src);
      assert events == init + [e];
      assert From(events, src) == From(init, src) + if Candidate(e) && e.src == src then {e} else {};
      assert All(RowsOf(init, src) + [e]) == All(RowsOf(init, src)) + {e};
    }
  }

  // ----- What the table means

  lemma {:induction false} SourcesHaveCandidates(events: seq<Event>)
    ensures Distinct(Sources(events))
    ensures forall s :: s in Sources(events) <==> From(events, s) != {}
  {
    if events == [] {
      assert forall s :: From(events, s) == {};
    } else {
      var init, e := events[..|events| - 1], events[|events| - 1];
      SourcesHaveCandidates(init);
      assert events == init + [e];
      forall s ensures s in Sources(events) <==> From(events, s) != {} {
        assert From(events, s) == From(init, s) + if Candidate(e) && e.src == s then {e} else {};
        if Candidate(e) && e.src == s {
          assert e in From(events, s);
        }
      }
    }
  }

  /** The order of the dictionary: the sources of the candidates, each by its first one. */
  lemma {:induction false} SourcesAre(events: seq<Event>)
    ensures Sources(events) == Dedup(Map((e: Event) => e.src, Filter(Candidate, events)))
  {
    if events != [] {
      var init, e := events[..|events| - 1], events[|events| - 1];
      var before := Filter(Candidate, init);
      SourcesAre(init);
      MapSnoc((x: Event) => x.src, before, e);
      DedupSnoc(Map((x: Event) => x.src, before), e.src);
      assert before + [] == before;
    }
  }

  lemma {:induction false} RowsForExactly(events: seq<Event>, srcs: seq<string>, row: ScanRow)
    ensures row in RowsFor(events, srcs) <==> row.src in srcs && row in RowOf(events, row.src)
  {
    if srcs != [] {
      RowsForExactly(events, srcs[..|srcs| - 1], row);
    }
  }

  /** Before the cut, the rows are exactly those of the scanners: 10 ports and the scanner's seconds. */
  lemma ReportsExactlyTheScanners(events: seq<Event>, row: ScanRow)
    ensures row in AllRows(events) <==>
      Scanner(From(events, row.src)) && row.dpts == SCAN_PORTS && row.secs == Secs(From(events, row.src))
  {
    RowsForExactly(events, Sources(events), row);
    SourcesHaveCandidates(events);
    if Scanner(From(events, row.src)) {
      assert Earliest(Alarms(From(events, row.src))) in From(events, row.src);
    }
  }

  lemma {:induction false} RowsForSources(events: seq<Event>, srcs: seq<string>)
    ensures Map((row: ScanRow) => row.src, RowsFor(events, srcs))
      == Filter((s: string) => Scanner(From(events, s)), srcs)
  {
    if srcs != [] {
      var init, src := srcs[..|srcs| - 1], srcs[|srcs| - 1];
      RowsForSources(events, init);
      if Scanner(From(events, src)) {
        MapSnoc((row: ScanRow) => row.src, RowsFor(events, init), ScanRow(src, SCAN_PORTS, Secs(From(events, src))));
      } else {
        assert RowsFor(events, init) + [] == RowsFor(events, init);
      }
    }
  }

  /** Each scanner has one row, in the order in which the sources were first seen. */
  lemma OneRowPerScanner(events: seq<Event>)
    ensures Map((row: ScanRow) => row.src, AllRows(events))
      == Filter((s: string) => Scanner(From(events, s)), Sources(events))
    ensures Distinct(Map((row: ScanRow) => row.src, AllRows(events)))
  {
    RowsForSources(events, Sources(events));
    SourcesHaveCandidates(events);
    FilterKeepsDistinct((s: string) => Scanner(From(events, s)), Sources(events));
  }

  /** The journal order is irrelevant to who is reported and to the reported numbers. */
  lemma OrderIsIrrelevant(events: seq<Event>, shuffled: seq<Event>, row: ScanRow)
    requires multiset(events) == multiset(shuffled)
    ensures row in AllRows(events) <==> row in AllRows(shuffled)
  {
    SameElements(events, shuffled);
    assert From(events, row.src) == From(shuffled, row.src);
    ReportsExactlyTheScanners(events, row);
    ReportsExactlyTheScanners(shuffled, row);
  }

  lemma SecsWithinWindow(hits: set<Event>)
    requires Scanner(hits)
    ensures 1 <= Secs(hits) <= WINDOW
  {
  }

  ghost function Ports(hits: set<Event>): set<int> {
    set e | e in hits :: e.dpt
  }

  /** Events of one source, all within 60 seconds of each other, that touch at least 10 ports. */
  ghost predicate Burst(hits: set<Event>, part: set<Event>) {
    && part <= hits
    && (forall a, b :: a in part && b in part ==> Time(b) - Time(a) <= WINDOW)
    && |Ports(part)| >= SCAN_PORTS
  }

  lemma {:induction false} Latest(s: set<Event>) returns (m: Event)
    requires s != {}
    ensures m in s && forall e :: e in s ==> Time(e) <= Time(m)
    decreases |s|
  {
    m :| m in s;
    var rest := s - {m};
    assert forall e :: e in s ==> e == m || e in rest;
    if e :| e in rest {
      var r := Latest(rest);
      if Time(m) < Time(r) {
        m := r;
      }
    }
  }

  /** The sliding window finds a burst exactly when one exists anywhere. */
  lemma ScannerIffBurst(hits: set<Event>)
    ensures Scanner(hits) <==> exists part :: Burst(hits, part)
  {
    if Scanner(hits) {
      var t := Time(Earliest(Alarms(hits)));
      assert Ports(Window(hits, t)) == PortsUntil(hits, t);
      assert Burst(hits, Window(hits, t));
    }
    if part :| Burst(hits, part) {
      BurstAlarms(hits, part);
    }
  }

  // ----- The table in terms of the journal

  /** An inbound BLOCK of the source with a time and a port. */
  ghost predicate Probes(e: Event, src: string) {
    && e.action == BLOCK && e.inIf != "" && e.inIf != "lo" && e.inIf != "lo0"
    && e.ts.Some? && e.src == src && src != "" && e.dpt != 0
  }

  ghost function PortsBetween(events: seq<Event>, src: string, from: int, to: int): set<int> {
    set e | e in events && Probes(e, src) && from <= e.ts.value <= to :: e.dpt
  }

  /** The event brings the ports of the last 60 seconds to ten. */
  ghost predicate TenthPort(events: seq<Event>, src: string, e: Event) {
    e in events && Probes(e, src) && |PortsBetween(events, src, e.ts.value - 60, e.ts.value)| >= 10
  }

  /** `b` is an earliest event with ten ports behind it, and `a` an earliest event of its last 60 seconds. */
  ghost predicate FirstBurst(events: seq<Event>, src: string, a: Event, b: Event) {
    && TenthPort(events, src, b) && a in events && Probes(a, src) && b.ts.value - 60 <= a.ts.value <= b.ts.value
    && (forall e :: TenthPort(events, src, e) ==> b.ts.value <= e.ts.value)
    && (forall e :: e in events && Probes(e, src) && b.ts.value - 60 <= e.ts.value <= b.ts.value ==>
        a.ts.value <= e.ts.value)
  }

  lemma ProbesAreHits(events: seq<Event>, src: string)
    ensures forall e :: e in From(events, src) <==> e in events && Probes(e, src)
    ensures forall t: int :: PortsUntil(From(events, src), t) == PortsBetween(events, src, t - 60, t)
  {
    forall t: int ensures PortsUntil(From(events, src), t) == PortsBetween(events, src, t - 60, t) {
      PortsAgree(events, src, t);
    }
  }

  lemma PortsAgree(events: seq<Event>, src: string, t: int)
    ensures PortsUntil(From(events, src), t) == PortsBetween(events, src, t - 60, t)
  {
    forall p ensures p in PortsUntil(From(events, src), t) <==> p in PortsBetween(events, src, t - 60, t) {
      if e :| e in From(events, src) && t - WINDOW <= Time(e) <= t && e.dpt == p {
        assert e in events && Probes(e, src);
      }
      if e :| e in events && Probes(e, src) && t - 60 <= e.ts.value <= t && e.dpt == p {
        assert e in From(events, src);
      }
    }
  }

  lemma AlarmIsTenthPort(events: seq<Event>, src: string, e: Event)
    ensures e in Alarms(From(events, src)) <==> TenthPort(events, src, e)
  {
    ProbesAreHits(events, src);
  }

  function SecondsOf(a: Event, b: Event): int {
    if Time(b) - Time(a) > 1 then Time(b) - Time(a) else 1
  }

  /** In terms of the set of hits. */
  ghost predicate FirstAmong(hits: set<Event>, a: Event, b: Event) {
    && b in Alarms(hits) && (forall e :: e in Alarms(hits) ==> Time(b) <= Time(e))
    && a in Window(hits, Time(b)) && (forall e :: e in Window(hits, Time(b)) ==> Time(a) <= Time(e))
  }

  lemma ScannerHasFirst(hits: set<Event>) returns (a: Event, b: Event)
    requires Scanner(hits)
    ensures FirstAmong(hits, a, b) && Secs(hits) == SecondsOf(a, b)
  {
    b := Earliest(Alarms(hits));
    assert b in Window(hits, Time(b));
    a := Earliest(Window(hits, Time(b)));
    SecsBetween(hits, a, b);
  }

  lemma FirstIsBurst(events: seq<Event>, src: string, a: Event, b: Event)
    ensures FirstAmong(From(events, src), a, b) <==> FirstBurst(events, src, a, b)
  {
    ProbesAreHits(events, src);
    forall e ensures e in Alarms(From(events, src)) <==> TenthPort(events, src, e) {
      AlarmIsTenthPort(events, src, e);
    }
    forall e ensures e in Window(From(events, src), Time(b))
      <==> e in events && Probes(e, src) && Time(b) - 60 <= e.ts.value <= Time(b)
    {
    }
  }

  lemma ScannerHasBurst(events: seq<Event>, src: string) returns (a: Event, b: Event)
    requires Scanner(From(events, src))
    ensures FirstBurst(events, src, a, b) && Secs(From(events, src)) == SecondsOf(a, b)
  {
    a, b := ScannerHasFirst(From(events, src));
    FirstIsBurst(events, src, a, b);
  }

  lemma BurstIsScanner(events: seq<Event>, src: string, a: Event, b: Event)
    requires FirstBurst(events, src, a, b)
    ensures Scanner(From(events, src)) && Secs(From(events, src)) == SecondsOf(a, b)
  {
    FirstIsBurst(events, src, a, b);
    SecsBetween(From(events, src), a, b);
  }

  /** Before the cut, a source has a row exactly when some event of it brings ten ports within 60 seconds, and the
      row says ten ports and the seconds from the first event of the first such window, at least 1. */
  lemma RowsAre(events: seq<Event>, row: ScanRow)
    ensures row in AllRows(events) <==>
      row.dpts == 10 && exists a, b :: FirstBurst(events, row.src, a, b) && row.secs == SecondsOf(a, b)
  {
    ReportsExactlyTheScanners(events, row);
    if Scanner(From(events, row.src)) {
      var a, b := ScannerHasBurst(events, row.src);
    }
    if a, b :| FirstBurst(events, row.src, a, b) && row.secs == SecondsOf(a, b) {
      BurstIsScanner(events, row.src, a, b);
    }
  }

  lemma BurstAlarms(hits: set<Event>, part: set<Event>)
    requires Burst(hits, part)
    ensures Scanner(hits)
  {
    if part == {} {
      SubsetSize(Ports(part), {});
    }
    var b := Latest(part);
    forall p | p in Ports(part) ensures p in PortsUntil(hits, Time(b)) {
      var e :| e in part && e.dpt == p;
    }
    SubsetSize(Ports(part), PortsUntil(hits, Time(b)));
    assert b in Alarms(hits);
  }
}

/** Per-second flood buckets. */
module UfwFloods {
  import opened Lists
  import opened Strings
  import opened UfwEvents

  datatype FloodKey = FloodKey(src: string, dpt: int, proto: string)
  datatype Bucket = Bucket(key: FloodKey, sec: int)
  datatype FloodRow = FloodRow(key: FloodKey, perS: nat)

  predicate Counted(e: Event) {
    InboundBlock(e) && e.ts.Some? && e.src != ""
  }

  function BucketOf(e: Event): Bucket
    requires Counted(e)
  {
    Bucket(FloodKey(e.src, e.dpt, e.proto), e.ts.value)
  }

  predicate FallsIn(e: Event, b: Bucket) {
    Counted(e) && BucketOf(e) == b
  }

  function Size(events: seq<Event>, b: Bucket): nat {
    Count((e: Event) => FallsIn(e, b), events)
  }

  /** Events per second that make a flood: 20 for TCP, 50 for ICMP, nothing else. */
  predicate IsFlood(proto: string, n: nat) {
    (StartsWith(proto, "TCP") && n >= 20) || (StartsWith(proto, "ICMP") && n >= 50)
  }

  // ----- The detector's dictionary order

  function Buckets(events: seq<Event>): seq<Bucket> {
    if events == [] then [] else
      var d, e := Buckets(events[..|events| - 1]), events[|events| - 1];
      if Counted(e) && BucketOf(e) !in d then d + [BucketOf(e)] else d
  }

  function Place(e: Event): Bucket {
    Bucket(FloodKey(e.src, e.dpt, e.proto), e.ts.GetOr(0))
  }

  /** The order of the dictionary: the buckets of the counted events, each by its first one. */
  lemma {:induction false} BucketsAre(events: seq<Event>)
    ensures Buckets(events) == Dedup(Map(Place, Filter(Counted, events)))
  {
    if events != [] {
      var init, e := events[..|events| - 1], events[|events| - 1];
      var before := Filter(Counted, init);
      BucketsAre(init);
      MapSnoc(Place, before, e);
      DedupSnoc(Map(Place, before), Place(e));
      assert before + [] == before;
    }
  }

  ghost predicate Reported(rows: seq<FloodRow>, key: FloodKey) {
    exists row :: row in rows && row.key == key
  }

  /** One of the buckets is a flood of this key. */
  ghost predicate Trips(events: seq<Event>, order: seq<Bucket>, key: FloodKey) {
    exists b :: b in order && b.key == key && IsFlood(key.proto, Size(events, b))
  }

  /** Some second of this key is a flood. */
  ghost predicate Flooding(events: seq<Event>, key: FloodKey) {
    exists sec :: IsFlood(key.proto, Size(events, Bucket(key, sec)))
  }

  /** A row for the first bucket of each key that is a flood, in bucket order. */
  ghost function RowsFor(events: seq<Event>, order: seq<Bucket>): seq<FloodRow> {
    if order == [] then [] else
      var rows, b := RowsFor(events, order[..|order| - 1]), order[|order| - 1];
      if !Reported(rows, b.key) && IsFlood(b.key.proto, Size(events, b))
      then rows + [FloodRow(b.key, Size(events, b))] else rows
  }

  ghost function AllRows(events: seq<Event>): seq<FloodRow> {
    RowsFor(events, Buckets(events))
  }

  method FloodsFor(events: seq<Event>) returns (floods: seq<FloodRow>)
    ensures floods == Take(AllRows(events), 20)
  {
    var buckets, order := CountBuckets(events);
    floods := [];
    var seen: set<FloodKey> := {};
    for n := 0 to |order|
      invariant floods == RowsFor(events, order[..n])
      invariant forall k :: k in seen <==> Reported(floods, k)
    {
      Snoc(order, n);
      var b, size := order[n], buckets[order[n]];
      if b.key !in seen {
        if StartsWith(b.key.proto, "TCP") && size >= 20 {
          ReportedGrows(floods, FloodRow(b.key, size));
          floods := floods + [FloodRow(b.key, size)];
          seen := seen + {b.key};
        } else if StartsWith(b.key.proto, "ICMP") && size >= 50 {
          ReportedGrows(floods, FloodRow(b.key, size));
          floods := floods + [FloodRow(b.key, size)];
          seen := seen + {b.key};
        }
      }
    }
    Whole(order);
    floods := Take(floods, 20);
  }

  lemma ReportedGrows(rows: seq<FloodRow>, row: FloodRow)
    ensures forall k :: Reported(rows + [row], k) <==> Reported(rows, k) || k == row.key
  {
  }

  method CountBuckets(events: seq<Event>) returns (buckets: map<Bucket, nat>, order: seq<Bucket>)
    ensures order == Buckets(events)
    ensures forall b :: b in order <==> b in buckets
    ensures forall b :: b in buckets ==> buckets[b] == Size(events, b)
  {
    buckets, order := map[], [];
    for n := 0 to |events|
      invariant order == Buckets(events[..n])
      invariant forall b :: b in order <==> b in buckets
      invariant forall b :: Size(events[..n], b) == if b in buckets then buckets[b] else 0
    {
      Snoc(events, n);
      var e := events[n];
      if Counted(e) {
        var b := BucketOf(e);
        if b !in buckets {
          order := order + [b];
          buckets := buckets[b := 0];
        }
        buckets := buckets[b := buckets[b] + 1];
      }
    }
    Whole(events);
  }

  // ----- What the table means

  lemma {:induction false} BucketsAreNonEmpty(events: seq<Event>)
    ensures forall b :: b in Buckets(events) <==> Size(events, b) > 0
  {
    if events != [] {
      BucketsAreNonEmpty(events[..|events| - 1]);
    }
  }

  lemma TripsStep(events: seq<Event>, init: seq<Bucket>, b: Bucket, key: FloodKey)
    ensures Trips(events, init + [b], key)
      <==> Trips(events, init, key) || (b.key == key && IsFlood(key.proto, Size(events, b)))
  {
  }

  lemma {:induction false} RowsForExactly(events: seq<Event>, order: seq<Bucket>, key: FloodKey)
    ensures Reported(RowsFor(events, order), key) <==> Trips(events, order, key)
  {
    if order != [] {
      var init, b := order[..|order| - 1], order[|order| - 1];
      assert order == init + [b];
      RowsForExactly(events, init, key);
      RowsForExactly(events, init, b.key);
      TripsStep(events, init, b, key);
      ReportedGrows(RowsFor(events, init), FloodRow(b.key, Size(events, b)));
    }
  }

  ghost predicate DistinctKeys(rows: seq<FloodRow>) {
    forall i, j :: 0 <= i < j < |rows| ==> rows[i].key != rows[j].key
  }

  lemma {:induction false} RowsAreDistinctAndTrue(events: seq<Event>, order: seq<Bucket>)
    ensures DistinctKeys(RowsFor(events, order))
    ensures forall row :: row in RowsFor(events, order) ==>
      IsFlood(row.key.proto, row.perS) && exists b :: b in order && b.key == row.key && row.perS == Size(events, b)
  {
    if order != [] {
      var init, b := order[..|order| - 1], order[|order| - 1];
      assert order == init + [b];
      RowsAreDistinctAndTrue(events, init);
      var rows := RowsFor(events, init);
      forall i | 0 <= i < |rows| ensures Reported(rows, rows[i].key) {
        assert rows[i] in rows;
      }
      forall r | r in rows ensures exists c :: c in order && c.key == r.key && r.perS == Size(events, c) {
        var c :| c in init && c.key == r.key && r.perS == Size(events, c);
        assert c in order;
      }
      assert b in order;
    }
  }

  /** Before the cut a key is reported exactly when one of its seconds reaches the limit. */
  lemma ReportsExactlyTheFloods(events: seq<Event>, key: FloodKey)
    ensures Reported(AllRows(events), key) <==> Flooding(events, key)
  {
    RowsForExactly(events, Buckets(events), key);
    BucketsAreNonEmpty(events);
    if b :| b in Buckets(events) && b.key == key && IsFlood(key.proto, Size(events, b)) {
      assert b == Bucket(key, b.sec);
    }
    if sec :| IsFlood(key.proto, Size(events, Bucket(key, sec))) {
      assert Bucket(key, sec) in Buckets(events);
    }
  }

  /** How often the key was blocked on its way in during one second. */
  function Blocked(events: seq<Event>, key: FloodKey, sec: int): nat {
    Count((e: Event) => e.action == BLOCK && e.inIf != "" && e.inIf != "lo" && e.inIf != "lo0" && e.ts == Some(sec)
                        && e.src == key.src && e.src != "" && e.dpt == key.dpt && e.proto == key.proto, events)
  }

  lemma {:induction false} SizeIsBlocked(events: seq<Event>, key: FloodKey, sec: int)
    ensures Size(events, Bucket(key, sec)) == Blocked(events, key, sec)
  {
    if events != [] {
      SizeIsBlocked(events[..|events| - 1], key, sec);
      var e := events[|events| - 1];
      assert key == FloodKey(key.src, key.dpt, key.proto);
      assert Counted(e) ==> BucketOf(e) == Bucket(FloodKey(e.src, e.dpt, e.proto), e.ts.value);
    }
  }

  /** Before the cut a key is in the table exactly when some second saw 20 TCP events of it, or 50 ICMP events. */
  lemma FloodsAre(events: seq<Event>, key: FloodKey)
    ensures Reported(AllRows(events), key) <==> exists sec ::
      ("TCP" <= key.proto && Blocked(events, key, sec) >= 20)
      || ("ICMP" <= key.proto && Blocked(events, key, sec) >= 50)
  {
    ReportsExactlyTheFloods(events, key);
    forall sec ensures Size(events, Bucket(key, sec)) == Blocked(events, key, sec) {
      SizeIsBlocked(events, key, sec);
    }
  }

  /** The journal order is irrelevant to which keys flood. */
  lemma OrderIsIrrelevant(events: seq<Event>, shuffled: seq<Event>, key: FloodKey)
    requires multiset(events) == multiset(shuffled)
    ensures Reported(AllRows(events), key) <==> Reported(AllRows(shuffled), key)
  {
    ReportsExactlyTheFloods(events, key);
    ReportsExactlyTheFloods(shuffled, key);
    forall sec ensures Size(events, Bucket(key, sec)) == Size(shuffled, Bucket(key, sec)) {
      CountOfPermutation((e: Event) => FallsIn(e, Bucket(key, sec)), events, shuffled);
    }
  }
}

/** The digest: noise out, scans and floods in, singletons out, listener hits kept. */
module UfwDigest {
  import opened Lists
  import opened UfwEvents
  import UfwScans
  import UfwFloods

  datatype Hit = Hit(src: string, dpt: int, inIf: string, action: Action)
  datatype Digest = Digest(
    lines: nat, block: nat, allow: nat, droppedNoise: nat,
    scans: seq<UfwScans.ScanRow>, floods: seq<UfwFloods.FloodRow>, hitsListen: seq<Hit>)

  predicate Kept(e: Event) {
    !IsNoise(e)
  }

  predicate IsListenerHit(e: Event, listen: set<int>) {
    e.dpt in listen && e.inIf !in REAL_LOOPBACK
  }

  predicate HasKey(hits: seq<Hit>, e: Event) {
    exists h :: h in hits && h.src == e.src && h.dpt == e.dpt && h.action == e.action
  }

  /** First occurrence of every (source, port, action) among the listener hits. */
  function HitsOf(events: seq<Event>, listen: set<int>): seq<Hit> {
    if events == [] then [] else AddHit(HitsOf(events[..|events| - 1], listen), events[|events| - 1], listen)
  }

  function AddHit(hits: seq<Hit>, e: Event, listen: set<int>): seq<Hit> {
    if IsListenerHit(e, listen) && !HasKey(hits, e) then hits + [Hit(e.src, e.dpt, e.inIf, e.action)] else hits
  }

  function PairCount(events: seq<Event>, src: string, dpt: int): nat {
    Count((e: Event) => e.src == src && e.dpt == dpt, events)
  }

  /** What the singleton filter lets through. */
  predicate Interesting(kept: seq<Event>, scanSrcs: set<string>, listen: set<int>, e: Event) {
    PairCount(kept, e.src, e.dpt) >= 5 || e.src in scanSrcs || e.dpt in listen
  }

  function InterestingEvents(kept: seq<Event>, scanSrcs: set<string>, listen: set<int>): seq<Event> {
    Filter((e: Event) => Interesting(kept, scanSrcs, listen, e), kept)
  }

  method MakeDigest(parsed: seq<Event>, listen: set<int>) returns (d: Digest)
    ensures d.lines == |parsed|
    ensures d.block == Count((e: Event) => e.action == BLOCK, parsed)
    ensures d.allow == Count((e: Event) => e.action == ALLOW, parsed)
    ensures var kept := Filter(Kept, parsed);
      && d.scans == Take(UfwScans.AllRows(kept), 20)
      && d.floods == Take(UfwFloods.AllRows(kept), 20)
      && d.hitsListen == Take(HitsOf(kept, listen), 20)
      && d.lines == d.droppedNoise + |InterestingEvents(kept, set s | s in d.scans :: s.src, listen)|
  {
    var block, allow := CountActions(parsed);
    var kept, dropped := DropNoise(parsed);
    var pairs := CountPairs(kept);
    var scans := UfwScans.ScansFor(kept);
    var scanSrcs := set s | s in scans :: s.src;
    var floods := UfwFloods.FloodsFor(kept);
    var interesting, singles := DropSingletons(kept, pairs, scanSrcs, listen);
    var hits := CollectHits(interesting, listen);
    HitsSurviveTheFilter(kept, (e: Event) => Interesting(kept, scanSrcs, listen, e), listen);
    d := Digest(|parsed|, block, allow, dropped + singles, scans, floods, Take(hits, 20));
  }

  method CountActions(parsed: seq<Event>) returns (block: nat, allow: nat)
    ensures block == Count((e: Event) => e.action == BLOCK, parsed)
    ensures allow == Count((e: Event) => e.action == ALLOW, parsed)
  {
    block, allow := 0, 0;
    for n := 0 to |parsed|
      invariant block == Count((e: Event) => e.action == BLOCK, parsed[..n])
      invariant allow == Count((e: Event) => e.action == ALLOW, parsed[..n])
    {
      Snoc(parsed, n);
      block := block + if parsed[n].action == BLOCK then 1 else 0;
      allow := allow + if parsed[n].action == ALLOW then 1 else 0;
    }
    Whole(parsed);
  }

  method DropNoise(parsed: seq<Event>) returns (kept: seq<Event>, dropped: nat)
    ensures kept == Filter(Kept, parsed) && dropped + |kept| == |parsed|
  {
    kept, dropped := [], 0;
    for n := 0 to |parsed|
      invariant kept == Filter(Kept, parsed[..n]) && dropped + |kept| == n
    {
      Snoc(parsed, n);
      if IsNoise(parsed[n]) {
        dropped := dropped + 1;
      } else {
        kept := kept + [parsed[n]];
      }
    }
    Whole(parsed);
  }

  method CountPairs(kept: seq<Event>) returns (pairs: map<(string, int), nat>)
    ensures forall e :: e in kept ==> (e.src, e.dpt) in pairs && pairs[(e.src, e.dpt)] == PairCount(kept, e.src, e.dpt)
  {
    pairs := map[];
    for n := 0 to |kept|
      invariant forall e :: e in kept[..n] ==> (e.src, e.dpt) in pairs
      invariant forall s, p :: PairCount(kept[..n], s, p) == if (s, p) in pairs then pairs[(s, p)] else 0
    {
      Snoc(kept, n);
      var key := (kept[n].src, kept[n].dpt);
      pairs := pairs[key := 1 + if key in pairs then pairs[key] else 0];
    }
    Whole(kept);
  }

  method DropSingletons(kept: seq<Event>, pairs: map<(string, int), nat>, scanSrcs: set<string>, listen: set<int>)
    returns (interesting: seq<Event>, dropped: nat)
    requires forall e :: e in kept ==> (e.src, e.dpt) in pairs && pairs[(e.src, e.dpt)] == PairCount(kept, e.src, e.dpt)
    ensures interesting == InterestingEvents(kept, scanSrcs, listen)
    ensures dropped + |interesting| == |kept|
  {
    interesting, dropped := [], 0;
    ghost var p := (e: Event) => Interesting(kept, scanSrcs, listen, e);
    for n := 0 to |kept|
      invariant interesting == Filter(p, kept[..n])
      invariant dropped + |interesting| == n
    {
      Snoc(kept, n);
      var e := kept[n];
      assert e in kept;
      if pairs[(e.src, e.dpt)] < 5 && e.src !in scanSrcs && e.dpt !in listen {
        dropped := dropped + 1;
      } else {
        interesting := interesting + [e];
      }
    }
    Whole(kept);
  }

  method CollectHits(events: seq<Event>, listen: set<int>) returns (hits: seq<Hit>)
    ensures hits == HitsOf(events, listen)
  {
    hits := [];
    var seen: set<(string, int, Action)> := {};
    for n := 0 to |events|
      invariant hits == HitsOf(events[..n], listen)
      invariant forall s, p, a :: (s, p, a) in seen <==>
        exists h :: h in hits && h.src == s && h.dpt == p && h.action == a
    {
      Snoc(events, n);
      var e := events[n];
      var key := (e.src, e.dpt, e.action);
      if e.dpt in listen && e.inIf !in REAL_LOOPBACK && key !in seen {
        seen := seen + {key};
        var h := Hit(e.src, e.dpt, e.inIf, e.action);
        assert h in hits + [h];
        hits := hits + [h];
      }
    }
    Whole(events);
  }

  lemma HitsOfSnoc(events: seq<Event>, e: Event, listen: set<int>)
    ensures HitsOf(events + [e], listen) == AddHit(HitsOf(events, listen), e, listen)
  {
  }

  /** A filter that keeps every event on a listening port hides no hit. */
  lemma {:induction false} HitsSurviveTheFilter(events: seq<Event>, p: Event -> bool, listen: set<int>)
    requires forall e: Event :: e.dpt in listen ==> p(e)
    ensures HitsOf(Filter(p, events), listen) == HitsOf(events, listen)
  {
    if events != [] {
      var init, e := events[..|events| - 1], events[|events| - 1];
      HitsSurviveTheFilter(init, p, listen);
      HitsOfSnoc(Filter(p, init), e, listen);
      assert !p(e) ==> Filter(p, init) + [] == Filter(p, init);
    }
  }

  lemma HasKeyGrows(hits: seq<Hit>, h: Hit, e: Event)
    ensures HasKey(hits + [h], e) <==> HasKey(hits, e) || (h.src == e.src && h.dpt == e.dpt && h.action == e.action)
  {
  }

  /** A (source, port, action) has a row before the cut exactly when some kept event on a listening port
      and a real interface carries it. */
  lemma {:induction false} HitsAreTheListenerKeys(events: seq<Event>, listen: set<int>, key: Event)
    ensures HasKey(HitsOf(events, listen), key) <==>
      exists e :: e in events && IsListenerHit(e, listen)
        && e.src == key.src && e.dpt == key.dpt && e.action == key.action
  {
    if events != [] {
      var init, e := events[..|events| - 1], events[|events| - 1];
      HitsAreTheListenerKeys(init, listen, key);
      HasKeyGrows(HitsOf(init, listen), Hit(e.src, e.dpt, e.inIf, e.action), key);
      if x :| x in init && IsListenerHit(x, listen) && x.src == key.src && x.dpt == key.dpt && x.action == key.action {
        assert x in events;
      }
      assert e in events;
    }
  }

  ghost predicate DistinctHits(hits: seq<Hit>) {
    forall i, j :: 0 <= i < j < |hits| ==>
      hits[i].src != hits[j].src || hits[i].dpt != hits[j].dpt || hits[i].action != hits[j].action
  }

  lemma {:induction false} HitsAreDistinct(events: seq<Event>, listen: set<int>)
    ensures DistinctHits(HitsOf(events, listen))
  {
    if events != [] {
      HitsAreDistinct(events[..|events| - 1], listen);
    }
  }

  // ----- Hits and noise in terms of the journal

  /** The event reaches a listening port from a real interface. */
  ghost predicate Reaches(e: Event, listen: set<int>) {
    e.dpt in listen && e.inIf != "" && e.inIf != "lo" && e.inIf != "lo0"
  }

  ghost predicate SameKey(a: Event, b: Event) {
    a.src == b.src && a.dpt == b.dpt && a.action == b.action
  }

  /** Event `k` is the first of its key that reaches a listener. */
  ghost predicate FirstReach(events: seq<Event>, listen: set<int>, k: nat) {
    && k < |events| && Reaches(events[k], listen)
    && forall j :: 0 <= j < k ==> !(Reaches(events[j], listen) && SameKey(events[j], events[k]))
  }

  lemma FirstReachGrows(init: seq<Event>, e: Event, listen: set<int>)
    ensures forall k: nat :: k < |init| ==> (FirstReach(init, listen, k) <==> FirstReach(init + [e], listen, k))
    ensures FirstReach(init + [e], listen, |init|)
      <==> Reaches(e, listen) && forall x :: x in init ==> !(Reaches(x, listen) && SameKey(x, e))
  {
    var events := init + [e];
    assert forall k :: 0 <= k < |init| ==> events[k] == init[k];
  }

  function HitFrom(e: Event): Hit {
    Hit(e.src, e.dpt, e.inIf, e.action)
  }

  ghost predicate SaysHit(events: seq<Event>, listen: set<int>, h: Hit) {
    exists k: nat :: FirstReach(events, listen, k) && h == HitFrom(events[k])
  }

  lemma SaysHitStep(init: seq<Event>, e: Event, listen: set<int>, h: Hit)
    ensures SaysHit(init + [e], listen, h) <==>
      SaysHit(init, listen, h) || (FirstReach(init + [e], listen, |init|) && h == HitFrom(e))
  {
    var events, n := init + [e], |init|;
    FirstReachGrows(init, e, listen);
    if k: nat :| FirstReach(init, listen, k) && h == HitFrom(init[k]) {
      assert FirstReach(events, listen, k) && h == HitFrom(events[k]);
    }
    if k: nat :| FirstReach(events, listen, k) && h == HitFrom(events[k]) {
      assert k < n ==> FirstReach(init, listen, k) && h == HitFrom(init[k]);
    }
    if FirstReach(events, listen, n) && h == HitFrom(e) {
      assert h == HitFrom(events[n]);
    }
  }

  lemma NewHitIsFirstReach(init: seq<Event>, e: Event, listen: set<int>)
    ensures IsListenerHit(e, listen) && !HasKey(HitsOf(init, listen), e) <==> FirstReach(init + [e], listen, |init|)
  {
    HitsAreTheListenerKeys(init, listen, e);
    FirstReachGrows(init, e, listen);
    if x :| x in init && IsListenerHit(x, listen) && x.src == e.src && x.dpt == e.dpt && x.action == e.action {
      assert Reaches(x, listen) && SameKey(x, e);
    }
  }

  /** A hit is in the table, before the cut, exactly when the first event of its key to reach a listener says so. */
  lemma {:induction false} HitsAre(events: seq<Event>, listen: set<int>, h: Hit)
    ensures h in HitsOf(events, listen) <==> SaysHit(events, listen, h)
  {
    if events != [] {
      var init, e := events[..|events| - 1], events[|events| - 1];
      assert events == init + [e];
      HitsAre(init, listen, h);
      SaysHitStep(init, e, listen, h);
      NewHitIsFirstReach(init, e, listen);
    }
  }

  /** The singleton filter keeps exactly the events whose source and port occur at least five times, whose source
      scans, or whose port listens. */
  lemma InterestingAre(kept: seq<Event>, scanSrcs: set<string>, listen: set<int>, e: Event)
    ensures e in InterestingEvents(kept, scanSrcs, listen) <==>
      && e in kept
      && (Count((x: Event) => x.src == e.src && x.dpt == e.dpt, kept) >= 5 || e.src in scanSrcs || e.dpt in listen)
  {
    FilterIn((x: Event) => Interesting(kept, scanSrcs, listen, x), kept);
  }
}
