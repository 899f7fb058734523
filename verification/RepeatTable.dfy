/** The cross-snapshot repeat table: `scripts/kalived-advise.py`. */
module RepeatTable {
  import opened Lists
  import opened Sorting

  const REPEAT_WINDOW := 8
  const ROW_CUT := 32
  const NOISE := "PROC-HIDDEN-NOISE"

  datatype Finding = Finding(id: string, severity: string)

  /** One snapshot directory. Stamps order like integers; `scanChild` is the process-summary test. */
  datatype Snap = Snap(path: string, stamp: int, live: bool, findings: seq<Finding>, scanChild: bool)

  function Rank(severity: string): int {
    if severity == "ALERT" || severity == "ERROR" then 3 else if severity == "WARN" then 2
    else if severity == "INFO" then 1 else 0
  }

  // ----- The window

  function Stamp(s: Snap): int { s.stamp }

  /** Live snapshots, newest first, cut. */
  function LiveNewest(dir: seq<Snap>, limit: int): seq<Snap> {
    Take(SortDesc(Stamp, Filter((s: Snap) => s.live, dir)), limit)
  }

  function Paths(snaps: seq<Snap>): seq<string> {
    Map((s: Snap) => s.path, snaps)
  }

  /** The current snapshot goes in front when it is live and the window lacks it. */
  function Window(dir: seq<Snap>, current: Option<Snap>, window: int): seq<Snap> {
    var snaps := LiveNewest(dir, window);
    if current.Some? && current.value.path !in Paths(snaps) && current.value.live
    then Take([current.value] + snaps, window) else snaps
  }

  lemma {:induction false} FilterKeepsPathsDistinct(p: Snap -> bool, dir: seq<Snap>)
    requires Distinct(Paths(dir))
    ensures Distinct(Paths(Filter(p, dir)))
    ensures forall x :: x in Paths(Filter(p, dir)) ==> x in Paths(dir)
  {
    if dir != [] {
      var path := (s: Snap) => s.path;
      var init, x := dir[..|dir| - 1], dir[|dir| - 1];
      assert dir == init + [x];
      MapSnoc(path, init, x);
      DistinctSnoc(Paths(init), x.path);
      FilterKeepsPathsDistinct(p, init);
      MapSnoc(path, Filter(p, init), x);
      DistinctSnoc(Paths(Filter(p, init)), x.path);
      FilterSnoc(p, init, x);
      assert Filter(p, init) + [] == Filter(p, init);
    }
  }

  lemma TakeKeepsPathsDistinct(snaps: seq<Snap>, n: int)
    requires Distinct(Paths(snaps))
    ensures Distinct(Paths(Take(snaps, n)))
  {
    assert forall i :: 0 <= i < |Take(snaps, n)| ==> Paths(Take(snaps, n))[i] == Paths(snaps)[i];
  }

  lemma PrependKeepsPathsDistinct(x: Snap, snaps: seq<Snap>)
    requires Distinct(Paths(snaps)) && x.path !in Paths(snaps)
    ensures Distinct(Paths([x] + snaps))
  {
    assert Paths([x] + snaps) == [x.path] + Paths(snaps);
  }

  /** The window never holds a directory twice, so no count does. */
  lemma WindowHasDistinctPaths(dir: seq<Snap>, current: Option<Snap>, window: int)
    requires Distinct(Paths(dir))
    ensures Distinct(Paths(Window(dir, current, window)))
    ensures |Window(dir, current, window)| <= if window < 0 then 0 else window
  {
    var live := (s: Snap) => s.live;
    FilterKeepsPathsDistinct(live, dir);
    SortDescSorts(Stamp, Filter(live, dir));
    DistinctOfPermutation((s: Snap) => s.path, Filter(live, dir), SortDesc(Stamp, Filter(live, dir)));
    TakeKeepsPathsDistinct(SortDesc(Stamp, Filter(live, dir)), window);
    var snaps := LiveNewest(dir, window);
    if current.Some? && current.value.path !in Paths(snaps) {
      PrependKeepsPathsDistinct(current.value, snaps);
      TakeKeepsPathsDistinct([current.value] + snaps, window);
    }
  }

  /** Listed snapshots are live, and a live directory that is left out of a nonempty list is no newer
      than any listed one. */
  lemma ListedAreNewest(dir: seq<Snap>, limit: int, s: Snap, t: Snap)
    requires s in LiveNewest(dir, limit) && t in dir && t.live && t !in LiveNewest(dir, limit)
    ensures s in dir && s.live && t.stamp <= s.stamp && |LiveNewest(dir, limit)| == limit
  {
    var live := (s: Snap) => s.live;
    FilterIn(live, dir);
    SortDescSorts(Stamp, Filter(live, dir));
    assert s in SortDesc(Stamp, Filter(live, dir));
    CutOfDescending(Stamp, SortDesc(Stamp, Filter(live, dir)), limit, s, t);
  }

  /** The listed snapshots: live ones of the directory, newest first, and all of them if they fit. */
  lemma ListedIs(dir: seq<Snap>, limit: int)
    ensures var listed := LiveNewest(dir, limit);
      && (forall s :: s in listed ==> s in dir && s.live)
      && (forall i, j :: 0 <= i < j < |listed| ==> listed[i].stamp >= listed[j].stamp)
      && (|listed| < limit ==> forall s :: s in dir && s.live ==> s in listed)
  {
    var live := (s: Snap) => s.live;
    var sorted := SortDesc(Stamp, Filter(live, dir));
    FilterIn(live, dir);
    SortDescSorts(Stamp, Filter(live, dir));
    forall i, j | 0 <= i < j < |LiveNewest(dir, limit)|
      ensures LiveNewest(dir, limit)[i].stamp >= LiveNewest(dir, limit)[j].stamp
    {
      assert Stamp(sorted[i]) >= Stamp(sorted[j]);
    }
  }

  /** A live current snapshot that the list lacks stands in front, and the oldest one makes room for it; any other
      current snapshot changes nothing. */
  lemma WindowIs(dir: seq<Snap>, current: Option<Snap>, window: int)
    ensures var (listed, snaps) := (LiveNewest(dir, window), Window(dir, current, window));
      if current.Some? && current.value.live && (forall s :: s in listed ==> s.path != current.value.path)
      then window > 0 ==> snaps != [] && snaps[0] == current.value && snaps[1..] == Take(listed, window - 1)
      else snaps == listed
  {
    var listed := LiveNewest(dir, window);
    if current.Some? {
      var path := current.value.path;
      if s :| s in listed && s.path == path {
        var k :| 0 <= k < |listed| && listed[k] == s;
        assert Paths(listed)[k] == path;
      }
      if path in Paths(listed) {
        var k :| 0 <= k < |listed| && Paths(listed)[k] == path;
        assert listed[k] in listed;
      }
    }
  }

  // ----- One snapshot's say about one id

  datatype Sighting = Read(severity: string) | Synthetic

  /** Severity of the first finding with the id. */
  function FirstRead(findings: seq<Finding>, id: string): Option<string> {
    if findings == [] then None else
      var before, f := FirstRead(findings[..|findings| - 1], id), findings[|findings| - 1];
      if before.Some? then before else if f.id == id then Some(f.severity) else None
  }

  /** The first finding of the id counts; the synthetic id only where no finding carries it. */
  function Sighted(s: Snap, id: string): Option<Sighting> {
    var read := FirstRead(s.findings, id);
    if read.Some? then Some(Read(read.value)) else if s.scanChild && id == NOISE then Some(Synthetic) else None
  }

  /** The ids of a snapshot, the synthetic one included. */
  predicate HasId(s: Snap, id: string) {
    (exists k :: 0 <= k < |s.findings| && s.findings[k].id == id) || (s.scanChild && id == NOISE)
  }

  lemma {:induction false} FirstReadIs(findings: seq<Finding>, id: string)
    ensures FirstRead(findings, id).Some? <==> exists k :: 0 <= k < |findings| && findings[k].id == id
  {
    if findings != [] {
      var n := |findings| - 1;
      FirstReadIs(findings[..n], id);
      if FirstRead(findings[..n], id).Some? {
        var k :| 0 <= k < n && findings[..n][k].id == id;
        assert findings[k].id == id;
      }
    }
  }

  // ----- The table

  datatype Rec = Rec(severity: string, n: nat, stamps: seq<int>)

  /** How one sighting changes the record: a read severity replaces one that does not outrank it. */
  function Update(rec: Option<Rec>, stamp: int, x: Sighting): Rec {
    match rec
    case None => Rec(if x.Read? then x.severity else "INFO", 1, [stamp])
    case Some(r) => Rec(if x.Read? && Rank(x.severity) >= Rank(r.severity) then x.severity else r.severity,
                        r.n + 1, r.stamps + [stamp])
  }

  function RecOf(snaps: seq<Snap>, id: string): Option<Rec> {
    if snaps == [] then None else
      var before, s := RecOf(snaps[..|snaps| - 1], id), snaps[|snaps| - 1];
      if Sighted(s, id).Some? then Some(Update(before, s.stamp, Sighted(s, id).value)) else before
  }

  function Get(table: map<string, Rec>, id: string): Option<Rec> {
    if id in table then Some(table[id]) else None
  }

  ghost predicate ListsKeys(ids: seq<string>, table: map<string, Rec>) {
    Distinct(ids) && forall id :: id in ids <==> id in table
  }

  /** A dictionary with its insertion order. */
  method Put(table: map<string, Rec>, ids: seq<string>, id: string, r: Rec) returns (t: map<string, Rec>,
             out: seq<string>)
    requires ListsKeys(ids, table)
    ensures t == table[id := r] && ListsKeys(out, t)
  {
    t, out := table[id := r], if id in table then ids else ids + [id];
  }

  /** The inner loop: every finding of a snapshot, first come first served, then the synthetic id. */
  method AddSnap(table: map<string, Rec>, ids: seq<string>, s: Snap) returns (t: map<string, Rec>, out: seq<string>)
    requires ListsKeys(ids, table)
    ensures ListsKeys(out, t)
    ensures forall id :: Get(t, id) == Sight(Get(table, id), s.stamp, Sighted(s, id))
  {
    t, out := table, ids;
    var seen: set<string> := {};
    for k := 0 to |s.findings|
      invariant ListsKeys(out, t)
      invariant forall id :: id in seen <==> FirstRead(s.findings[..k], id).Some?
      invariant forall id :: Get(t, id) == Sight(Get(table, id), s.stamp, AsRead(FirstRead(s.findings[..k], id)))
    {
      Snoc(s.findings, k);
      var f := s.findings[k];
      if f.id !in seen {
        seen := seen + {f.id};
        t, out := Put(t, out, f.id, Update(Get(t, f.id), s.stamp, Read(f.severity)));
      }
    }
    Whole(s.findings);
    if s.scanChild && NOISE !in seen {
      t, out := Put(t, out, NOISE, Update(Get(t, NOISE), s.stamp, Synthetic));
    }
  }

  function AsRead(severity: Option<string>): Option<Sighting> {
    if severity.Some? then Some(Read(severity.value)) else None
  }

  function Sight(rec: Option<Rec>, stamp: int, x: Option<Sighting>): Option<Rec> {
    if x.Some? then Some(Update(rec, stamp, x.value)) else rec
  }

  method Tabulate(snaps: seq<Snap>) returns (table: map<string, Rec>, ids: seq<string>)
    ensures ListsKeys(ids, table)
    ensures forall id :: Get(table, id) == RecOf(snaps, id)
  {
    table, ids := map[], [];
    for k := 0 to |snaps|
      invariant ListsKeys(ids, table)
      invariant forall id :: Get(table, id) == RecOf(snaps[..k], id)
    {
      Snoc(snaps, k);
      table, ids := AddSnap(table, ids, snaps[k]);
    }
    Whole(snaps);
  }

  // ----- What a record means

  function Holders(snaps: seq<Snap>, id: string): seq<Snap> {
    Filter((s: Snap) => HasId(s, id), snaps)
  }

  lemma SightedIffHasId(s: Snap, id: string)
    ensures Sighted(s, id).Some? <==> HasId(s, id)
  {
    FirstReadIs(s.findings, id);
  }

  /** An id is in the table exactly when some window snapshot has it; `n` counts those snapshots, and
      the stamps are theirs. */
  lemma {:induction false} RecordCountsHolders(snaps: seq<Snap>, id: string)
    ensures RecOf(snaps, id).Some? <==> Holders(snaps, id) != []
    ensures RecOf(snaps, id).Some? ==> RecOf(snaps, id).value.n == |Holders(snaps, id)|
    ensures RecOf(snaps, id).Some? ==> RecOf(snaps, id).value.stamps == Map(Stamp, Holders(snaps, id))
  {
    if snaps != [] {
      var init, s := snaps[..|snaps| - 1], snaps[|snaps| - 1];
      RecordCountsHolders(init, id);
      SightedIffHasId(s, id);
      var before := Holders(init, id);
      MapSnoc(Stamp, before, s);
      assert before + [] == before;
    }
  }

  ghost predicate Outranked(snaps: seq<Snap>, id: string, rank: int) {
    forall s :: s in snaps && FirstRead(s.findings, id).Some? ==> Rank(FirstRead(s.findings, id).value) <= rank
  }

  ghost predicate ReadSomewhere(snaps: seq<Snap>, id: string, severity: string) {
    exists s :: s in snaps && FirstRead(s.findings, id) == Some(severity)
  }

  /** No finding read for the id outranks the record, and the record's severity was read in some
      snapshot, or is the INFO of a synthetic first sighting. */
  lemma {:induction false} SeverityIsMaximal(snaps: seq<Snap>, id: string)
    requires RecOf(snaps, id).Some?
    ensures Holders(snaps, id) != []
    ensures Outranked(snaps, id, Rank(RecOf(snaps, id).value.severity))
    ensures ReadSomewhere(snaps, id, RecOf(snaps, id).value.severity)
      || (RecOf(snaps, id).value.severity == "INFO" && Sighted(Holders(snaps, id)[0], id) == Some(Synthetic))
  {
    var init, s := snaps[..|snaps| - 1], snaps[|snaps| - 1];
    assert snaps == init + [s];
    RecordCountsHolders(init, id);
    RecordCountsHolders(snaps, id);
    SightedIffHasId(s, id);
    if RecOf(init, id).Some? {
      SeverityIsMaximal(init, id);
      var sev := RecOf(init, id).value.severity;
      assert Holders(snaps, id)[0] == Holders(init, id)[0];
      if ReadSomewhere(init, id, sev) {
        var w :| w in init && FirstRead(w.findings, id) == Some(sev);
        assert w in snaps;
      }
    } else {
      NothingRead(init, id);
    }
  }

  lemma {:induction false} NothingRead(snaps: seq<Snap>, id: string)
    requires RecOf(snaps, id).None?
    ensures forall s :: s in snaps ==> FirstRead(s.findings, id).None?
  {
    if snaps != [] {
      NothingRead(snaps[..|snaps| - 1], id);
      assert snaps == snaps[..|snaps| - 1] + [snaps[|snaps| - 1]];
    }
  }

  /** The first finding of an id counts in its snapshot. */
  lemma {:induction false} FirstReadIsFirst(findings: seq<Finding>, id: string, severity: string)
    ensures FirstRead(findings, id) == Some(severity) <==>
      exists k: nat :: k < |findings| && findings[k] == Finding(id, severity)
        && forall j :: 0 <= j < k ==> findings[j].id != id
  {
    if findings != [] {
      var n := |findings| - 1;
      var init := findings[..n];
      FirstReadIsFirst(init, id, severity);
      FirstReadIs(init, id);
      if k: nat :| k < n && init[k] == Finding(id, severity) && forall j :: 0 <= j < k ==> init[j].id != id {
        assert findings[k] == Finding(id, severity) && forall j :: 0 <= j < k ==> findings[j].id != id;
      }
      if k: nat :| k < |findings| && findings[k] == Finding(id, severity)
                   && forall j :: 0 <= j < k ==> findings[j].id != id {
        if k < n {
          assert init[k] == Finding(id, severity) && forall j :: 0 <= j < k ==> init[j].id != id;
        } else {
          assert forall j :: 0 <= j < n ==> init[j] == findings[j];
        }
      }
    }
  }

  /** Snapshot `k` reads the id, and neither it nor a later one is outranked by any other read. */
  ghost predicate LastHighest(snaps: seq<Snap>, id: string, k: nat) {
    && k < |snaps| && FirstRead(snaps[k].findings, id).Some?
    && Outranked(snaps, id, Rank(FirstRead(snaps[k].findings, id).value))
    && forall j :: k < j < |snaps| && FirstRead(snaps[j].findings, id).Some? ==>
         Rank(FirstRead(snaps[j].findings, id).value) < Rank(FirstRead(snaps[k].findings, id).value)
  }

  predicate StartsSynthetic(snaps: seq<Snap>, id: string) {
    Holders(snaps, id) != [] && Sighted(Holders(snaps, id)[0], id) == Some(Synthetic)
  }

  function Expected(snaps: seq<Snap>, id: string, read: string): string {
    if Rank(read) == 0 && StartsSynthetic(snaps, id) then "INFO" else read
  }

  lemma SameStart(init: seq<Snap>, s: Snap, id: string)
    requires RecOf(init, id).Some?
    ensures StartsSynthetic(init + [s], id) <==> StartsSynthetic(init, id)
  {
    RecordCountsHolders(init, id);
    FilterSnoc((x: Snap) => HasId(x, id), init, s);
    assert Holders(init + [s], id)[0] == Holders(init, id)[0];
  }

  lemma RecSnoc(init: seq<Snap>, s: Snap, id: string)
    ensures RecOf(init + [s], id) == Sight(RecOf(init, id), s.stamp, Sighted(s, id))
  {
    assert (init + [s])[..|init|] == init;
  }

  lemma OutrankedInit(init: seq<Snap>, s: Snap, id: string, rank: int)
    requires Outranked(init + [s], id, rank)
    ensures Outranked(init, id, rank)
  {
    assert forall x :: x in init ==> x in init + [s];
  }

  lemma LowerReadKeeps(init: seq<Snap>, s: Snap, id: string, rank: int)
    requires RecOf(init, id).Some? && rank <= Rank(RecOf(init, id).value.severity)
    requires FirstRead(s.findings, id).Some? ==> Rank(FirstRead(s.findings, id).value) < rank
    ensures RecOf(init + [s], id).value.severity == RecOf(init, id).value.severity
  {
    RecSnoc(init, s, id);
  }

  lemma StartsRecord(init: seq<Snap>, s: Snap, id: string)
    requires RecOf(init, id).None? && FirstRead(s.findings, id).Some?
    ensures RecOf(init + [s], id).value.severity == FirstRead(s.findings, id).value
    ensures !StartsSynthetic(init + [s], id)
  {
    RecSnoc(init, s, id);
    RecordCountsHolders(init, id);
    SightedIffHasId(s, id);
    FilterSnoc((x: Snap) => HasId(x, id), init, s);
  }

  lemma HighestReadReplaces(init: seq<Snap>, s: Snap, id: string)
    requires RecOf(init, id).Some? && FirstRead(s.findings, id).Some?
    requires Outranked(init, id, Rank(FirstRead(s.findings, id).value))
    ensures RecOf(init + [s], id).value.severity == Expected(init + [s], id, FirstRead(s.findings, id).value)
  {
    RecSnoc(init, s, id);
    SameStart(init, s, id);
    SeverityIsBounded(init, id, Rank(FirstRead(s.findings, id).value));
  }

  lemma LastHighestInit(init: seq<Snap>, s: Snap, id: string, k: nat)
    requires LastHighest(init + [s], id, k) && k < |init|
    ensures LastHighest(init, id, k) && init[k] == (init + [s])[k]
  {
    var snaps := init + [s];
    assert forall j :: 0 <= j < |init| ==> init[j] == snaps[j];
    assert forall x :: x in init ==> x in snaps;
  }

  /** The record's severity is the one that the last snapshot of highest rank read; but a synthetic first sighting
      counts as an INFO, which no unknown severity replaces. */
  lemma {:induction false} SeverityIsLastHighest(snaps: seq<Snap>, id: string, k: nat)
    requires RecOf(snaps, id).Some? && LastHighest(snaps, id, k)
    ensures RecOf(snaps, id).value.severity == Expected(snaps, id, FirstRead(snaps[k].findings, id).value)
  {
    var init, s := snaps[..|snaps| - 1], snaps[|snaps| - 1];
    assert snaps == init + [s];
    if k < |init| {
      LastHighestInit(init, s, id, k);
      ReadIsRecorded(init, id, k);
      SeverityIsLastHighest(init, id, k);
      SameStart(init, s, id);
      LowerReadKeeps(init, s, id, Rank(FirstRead(init[k].findings, id).value));
    } else if RecOf(init, id).Some? {
      OutrankedInit(init, s, id, Rank(FirstRead(s.findings, id).value));
      HighestReadReplaces(init, s, id);
    } else {
      StartsRecord(init, s, id);
    }
  }

  lemma {:induction false} ReadIsRecorded(snaps: seq<Snap>, id: string, k: nat)
    requires k < |snaps| && FirstRead(snaps[k].findings, id).Some?
    ensures RecOf(snaps, id).Some?
  {
    var n := |snaps| - 1;
    if k < n {
      ReadIsRecorded(snaps[..n], id, k);
    }
  }

  lemma SeverityIsBounded(snaps: seq<Snap>, id: string, rank: int)
    requires RecOf(snaps, id).Some? && Outranked(snaps, id, rank)
    ensures Rank(RecOf(snaps, id).value.severity) <= rank
      || (RecOf(snaps, id).value.severity == "INFO" && StartsSynthetic(snaps, id))
    ensures rank == 0 && StartsSynthetic(snaps, id) ==> RecOf(snaps, id).value.severity == "INFO"
  {
    SeverityIsMaximal(snaps, id);
    if ReadSomewhere(snaps, id, RecOf(snaps, id).value.severity) {
      var s :| s in snaps && FirstRead(s.findings, id) == Some(RecOf(snaps, id).value.severity);
    }
    if rank == 0 && StartsSynthetic(snaps, id) {
      InfoStays(snaps, id);
    }
  }

  lemma {:induction false} InfoStays(snaps: seq<Snap>, id: string)
    requires RecOf(snaps, id).Some? && Outranked(snaps, id, 0) && StartsSynthetic(snaps, id)
    ensures RecOf(snaps, id).value.severity == "INFO"
  {
    var init, s := snaps[..|snaps| - 1], snaps[|snaps| - 1];
    assert snaps == init + [s];
    RecordCountsHolders(init, id);
    SightedIffHasId(s, id);
    if RecOf(init, id).Some? {
      assert Holders(snaps, id)[0] == Holders(init, id)[0];
      assert forall x :: x in init ==> x in snaps;
      InfoStays(init, id);
    }
  }

  // ----- Rows

  datatype Row = Row(id: string, severity: string, n: nat, first: int, last: int, seenBefore: bool)

  function Least(s: seq<int>): (m: int)
    requires s != []
    ensures m in s && forall x :: x in s ==> m <= x
  {
    if |s| == 1 then s[0] else
      var m, x := Least(s[..|s| - 1]), s[|s| - 1];
      assert s == s[..|s| - 1] + [x];
      if x < m then x else m
  }

  function Greatest(s: seq<int>): (m: int)
    requires s != []
    ensures m in s && forall x :: x in s ==> x <= m
  {
    if |s| == 1 then s[0] else
      var m, x := Greatest(s[..|s| - 1]), s[|s| - 1];
      assert s == s[..|s| - 1] + [x];
      if x > m then x else m
  }

  function RowOf(id: string, r: Rec): Row
    requires r.stamps != []
  {
    Row(id, r.severity, r.n, Least(r.stamps), Greatest(r.stamps), r.n >= 2)
  }

  /** Seen before, then rank, then count, each descending; then the id. */
  function Key(r: Row): (int, (int, (int, string))) {
    var n: int := r.n;
    (if r.seenBefore then -1 else 0, (-Rank(r.severity), (-n, r.id)))
  }

  predicate RowLe(a: Row, b: Row) {
    Then(IntLe, Then(IntLe, Then(IntLe, LexLe)))(Key(a), Key(b))
  }

  lemma RowLeIsPreorder()
    ensures Preorder(RowLe)
  {
    var le := Then(IntLe, Then(IntLe, Then(IntLe, LexLe)));
    LexIsTotal();
    IntIsTotal();
    ThenIsTotal(IntLe, LexLe);
    ThenIsTotal(IntLe, Then(IntLe, LexLe));
    ThenIsTotal(IntLe, Then(IntLe, Then(IntLe, LexLe)));
    forall a: Row, b: Row ensures RowLe(a, b) || RowLe(b, a) {
      assert le(Key(a), Key(b)) || le(Key(b), Key(a));
    }
    forall a: Row, b: Row, c: Row | RowLe(a, b) && RowLe(b, c) ensures RowLe(a, c) {
      assert le(Key(a), Key(b)) && le(Key(b), Key(c));
    }
  }

  /** The order of rows: those seen before, the graver, the more frequent first, then by id. */
  lemma RowLeIs(a: Row, b: Row)
    ensures RowLe(a, b) <==>
      if a.seenBefore != b.seenBefore then a.seenBefore
      else if Rank(a.severity) != Rank(b.severity) then Rank(a.severity) > Rank(b.severity)
      else if a.n != b.n then a.n > b.n else LexLe(a.id, b.id)
  {
    ThenIs(IntLe, Then(IntLe, Then(IntLe, LexLe)), Key(a), Key(b));
    ThenIs(IntLe, Then(IntLe, LexLe), Key(a).1, Key(b).1);
    ThenIs(IntLe, LexLe, Key(a).1.1, Key(b).1.1);
  }

  lemma RanksAre(severity: string)
    ensures 0 <= Rank(severity) <= Rank("ALERT") == Rank("ERROR")
    ensures Rank("ALERT") > Rank("WARN") > Rank("INFO") > Rank("")
    ensures severity !in {"ALERT", "ERROR", "WARN", "INFO"} ==> Rank(severity) == Rank("")
  {
  }

  /** A row states the history of its id. */
  ghost predicate TellsHistory(row: Row, snaps: seq<Snap>) {
    && Holders(snaps, row.id) != []
    && row.n == |Holders(snaps, row.id)|
    && (row.seenBefore <==> row.n >= 2)
    && row.first == Least(Map(Stamp, Holders(snaps, row.id)))
    && row.last == Greatest(Map(Stamp, Holders(snaps, row.id)))
    && Outranked(snaps, row.id, Rank(row.severity))
  }

  lemma RowTellsHistory(snaps: seq<Snap>, id: string)
    requires RecOf(snaps, id).Some?
    ensures RecOf(snaps, id).value.stamps != [] && TellsHistory(RowOf(id, RecOf(snaps, id).value), snaps)
  {
    RecordCountsHolders(snaps, id);
    SeverityIsMaximal(snaps, id);
  }

  function RowsFor(id: string, rows: seq<Row>): nat {
    Count((row: Row) => row.id == id, rows)
  }

  /** One row for each id that some window snapshot has, and each row states its history. */
  ghost predicate IsTable(full: seq<Row>, snaps: seq<Snap>) {
    && (forall row :: row in full ==> TellsHistory(row, snaps))
    && (forall id :: RowsFor(id, full) == if Holders(snaps, id) != [] then 1 else 0)
  }

  method MakeRows(table: map<string, Rec>, ids: seq<string>, ghost snaps: seq<Snap>) returns (rows: seq<Row>)
    requires ListsKeys(ids, table) && forall id :: Get(table, id) == RecOf(snaps, id)
    ensures |rows| == |ids| && forall k :: 0 <= k < |ids| ==> rows[k].id == ids[k] && TellsHistory(rows[k], snaps)
  {
    rows := [];
    for k := 0 to |ids|
      invariant |rows| == k && forall j :: 0 <= j < k ==> rows[j].id == ids[j] && TellsHistory(rows[j], snaps)
    {
      assert ids[k] in ids;
      assert Get(table, ids[k]) == RecOf(snaps, ids[k]);
      RowTellsHistory(snaps, ids[k]);
      rows := rows + [RowOf(ids[k], table[ids[k]])];
    }
  }

  /** The whole table, before and after its cut. */
  method RepeatFromStatus(dir: seq<Snap>, current: Option<Snap>, window: int := REPEAT_WINDOW)
    returns (stamps: seq<int>, rows: seq<Row>, ghost full: seq<Row>)
    ensures stamps == Map(Stamp, Window(dir, current, window))
    ensures IsTable(full, Window(dir, current, window)) && Ascending(RowLe, full)
    ensures rows == Take(full, 32)
  {
    var snaps := Window(dir, current, window);
    var table, ids := Tabulate(snaps);
    var unsorted := MakeRows(table, ids, snaps);
    RowLeIsPreorder();
    SortSorts(RowLe, unsorted);
    var sorted := Sort(RowLe, unsorted);
    TableOf(table, ids, unsorted, sorted, snaps);
    return Map(Stamp, snaps), Take(sorted, ROW_CUT), sorted;
  }

  lemma TableOf(table: map<string, Rec>, ids: seq<string>, unsorted: seq<Row>, sorted: seq<Row>, snaps: seq<Snap>)
    requires ListsKeys(ids, table) && forall id :: Get(table, id) == RecOf(snaps, id)
    requires |unsorted| == |ids|
    requires forall k :: 0 <= k < |ids| ==> unsorted[k].id == ids[k] && TellsHistory(unsorted[k], snaps)
    requires multiset(sorted) == multiset(unsorted)
    ensures IsTable(sorted, snaps)
  {
    SameElements(sorted, unsorted);
    forall id ensures RowsFor(id, sorted) == if Holders(snaps, id) != [] then 1 else 0 {
      RecordCountsHolders(snaps, id);
      assert Get(table, id) == RecOf(snaps, id);
      OneRowEach(ids, unsorted, id);
      CountOfPermutation((row: Row) => row.id == id, sorted, unsorted);
    }
  }

  lemma {:induction false} OneRowEach(ids: seq<string>, rows: seq<Row>, id: string)
    requires Distinct(ids) && |rows| == |ids| && forall k :: 0 <= k < |ids| ==> rows[k].id == ids[k]
    ensures RowsFor(id, rows) == if id in ids then 1 else 0
  {
    if ids != [] {
      var n := |ids| - 1;
      assert ids == ids[..n] + [ids[n]];
      OneRowEach(ids[..n], rows[..n], id);
    }
  }
}
