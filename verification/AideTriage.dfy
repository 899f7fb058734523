/** From an AIDE report to findings: `scripts/lib/aide_classify.py`. */
module AideTriage {
  import opened Lists
  import opened Strings
  import opened AidePaths
  import opened AideScope

  /** One report line, as the source's patterns see it. */
  datatype Kind = RegularFile | Link | Directory
  datatype Line =
    | SectionStart | SectionEnd | Plain
    | Entry(kind: Kind, added: bool, raw: string)
    | FileHeader(raw: string)

  datatype Reported = Reported(kind: Kind, path: string)

  // ----- The paths of a report

  /** The last section marker decides. */
  predicate InEntries(lines: seq<Line>) {
    lines != [] &&
      var last := lines[|lines| - 1];
      last.SectionStart? || (!last.SectionEnd? && InEntries(lines[..|lines| - 1]))
  }

  /** What one line lists. A changed directory is noise unless it is an identity path. */
  function Listing(dec: string -> string, cls: string -> Class, line: Line, inEntries: bool): Option<Reported> {
    match line
    case Entry(kind, added, raw) =>
      if kind == Directory && !added && cls(dec(raw)) != Identity then None else Some(Reported(kind, dec(raw)))
    case FileHeader(raw) => if inEntries then None else Some(Reported(RegularFile, dec(raw)))
    case _ => None
  }

  /** Everything the lines list, with repetitions. */
  function Listings(dec: string -> string, cls: string -> Class, lines: seq<Line>): seq<Reported> {
    if lines == [] then [] else
      var init := lines[..|lines| - 1];
      var l := Listing(dec, cls, lines[|lines| - 1], InEntries(init));
      Listings(dec, cls, init) + if l.Some? then [l.value] else []
  }

  function PathOf(r: Reported): string {
    r.path
  }

  function PathsOf(rs: seq<Reported>): seq<string> {
    Map(PathOf, rs)
  }

  /** The first entry of every path. */
  function Unrepeated(rs: seq<Reported>): seq<Reported> {
    FirstOfEach(PathOf, rs)
  }

  lemma ListingsSnoc(dec: string -> string, cls: string -> Class, lines: seq<Line>, line: Line)
    ensures var (before, l) := (Listings(dec, cls, lines), Listing(dec, cls, line, InEntries(lines)));
      Unrepeated(Listings(dec, cls, lines + [line])) ==
        if l.None? || l.value.path in PathsOf(Unrepeated(before)) then Unrepeated(before)
        else Unrepeated(before) + [l.value]
  {
    var before, l := Listings(dec, cls, lines), Listing(dec, cls, line, InEntries(lines));
    assert (lines + [line])[..|lines + [line]| - 1] == lines;
    if l.Some? {
      FirstOfEachSnoc(PathOf, before, l.value);
    } else {
      assert before + [] == before;
    }
  }

  method ParsePaths(dec: string -> string, cls: string -> Class, lines: seq<Line>) returns (out: seq<Reported>)
    ensures out == Unrepeated(Listings(dec, cls, lines))
  {
    out := [];
    var seen: set<string> := {};
    var inEntries := false;
    for k := 0 to |lines|
      invariant inEntries == InEntries(lines[..k])
      invariant out == Unrepeated(Listings(dec, cls, lines[..k]))
      invariant forall p :: p in seen <==> p in PathsOf(out)
    {
      Snoc(lines, k);
      var line := lines[k];
      ListingsSnoc(dec, cls, lines[..k], line);
      out, seen := AddListed(dec, cls, line, inEntries, out, seen);
      inEntries := line.SectionStart? || (inEntries && !line.SectionEnd?);
    }
    Whole(lines);
  }

  /** What one line adds. */
  method AddListed(dec: string -> string, cls: string -> Class, line: Line, inEntries: bool, before: seq<Reported>,
                   known: set<string>)
    returns (out: seq<Reported>, seen: set<string>)
    requires forall p :: p in known <==> p in PathsOf(before)
    ensures var l := Listing(dec, cls, line, inEntries);
      out == if l.None? || l.value.path in PathsOf(before) then before else before + [l.value]
    ensures forall p :: p in seen <==> p in PathsOf(out)
  {
    out, seen := before, known;
    match line
    case Entry(kind, added, raw) =>
      var path := dec(raw);
      if !(kind == Directory && !added && cls(path) != Identity) {
        out, seen := Add(out, seen, Reported(kind, path));
      }
    case FileHeader(raw) =>
      if !inEntries {
        out, seen := Add(out, seen, Reported(RegularFile, dec(raw)));
      }
    case _ =>
  }

  method Add(before: seq<Reported>, known: set<string>, r: Reported) returns (out: seq<Reported>, seen: set<string>)
    requires forall p :: p in known <==> p in PathsOf(before)
    ensures out == if r.path in PathsOf(before) then before else before + [r]
    ensures forall p :: p in seen <==> p in PathsOf(out)
  {
    out, seen := before, known;
    if r.path !in seen {
      MapSnoc(PathOf, before, r);
      out, seen := before + [r], known + {r.path};
    }
  }

  /** The parsed paths are the listed ones, each once, in the order of their first line. */
  lemma ParsedAreFirstListings(rs: seq<Reported>)
    ensures PathsOf(Unrepeated(rs)) == Dedup(PathsOf(rs))
  {
    FirstOfEachKeys(PathOf, rs);
  }

  // ----- Which paths a report lists

  /** A section has begun before line `k` and has not ended. */
  ghost predicate InSection(lines: seq<Line>, k: nat)
    requires k <= |lines|
  {
    exists i :: 0 <= i < k && lines[i].SectionStart? && forall j :: i < j < k ==> !lines[j].SectionEnd?
  }

  lemma {:induction false} InEntriesIff(lines: seq<Line>)
    ensures InEntries(lines) <==> InSection(lines, |lines|)
  {
    if lines != [] {
      var n := |lines| - 1;
      var init := lines[..n];
      InEntriesIff(init);
      assert forall i :: 0 <= i < n ==> init[i] == lines[i];
      if InSection(init, n) && !lines[n].SectionEnd? {
        var i :| 0 <= i < n && init[i].SectionStart? && forall j :: i < j < n ==> !init[j].SectionEnd?;
        assert lines[i].SectionStart? && forall j :: i < j < |lines| ==> !lines[j].SectionEnd?;
      }
      if InSection(lines, |lines|) && !lines[n].SectionStart? {
        var i :| 0 <= i < |lines| && lines[i].SectionStart? && forall j :: i < j < |lines| ==> !lines[j].SectionEnd?;
        assert i < n && !lines[n].SectionEnd?;
        assert init[i].SectionStart? && forall j :: i < j < n ==> !init[j].SectionEnd?;
      }
    }
  }

  /** Line `k` lists the path: an entry, unless it is a changed directory that is no identity path, or a file
      header outside the sections. */
  ghost predicate ListsPath(dec: string -> string, cls: string -> Class, lines: seq<Line>, k: nat, path: string)
    requires k < |lines|
  {
    match lines[k]
    case Entry(kind, added, raw) => path == dec(raw) && (kind == Directory && !added ==> cls(path) == Identity)
    case FileHeader(raw) => path == dec(raw) && !InSection(lines, k)
    case _ => false
  }

  lemma ListsPathPrefix(dec: string -> string, cls: string -> Class, lines: seq<Line>, n: nat, k: nat, path: string)
    requires k < n <= |lines|
    ensures ListsPath(dec, cls, lines[..n], k, path) <==> ListsPath(dec, cls, lines, k, path)
  {
    InEntriesIff(lines[..k]);
    InEntriesIff(lines[..n][..k]);
    assert lines[..n][..k] == lines[..k];
    SectionPrefix(lines, k);
    SectionPrefix(lines[..n], k);
  }

  lemma SectionPrefix(lines: seq<Line>, k: nat)
    requires k <= |lines|
    ensures InSection(lines[..k], k) <==> InSection(lines, k)
  {
    assert forall i :: 0 <= i < k ==> lines[..k][i] == lines[i];
    if InSection(lines, k) {
      var i :| 0 <= i < k && lines[i].SectionStart? && forall j :: i < j < k ==> !lines[j].SectionEnd?;
      assert lines[..k][i].SectionStart? && forall j :: i < j < k ==> !lines[..k][j].SectionEnd?;
    }
    if InSection(lines[..k], k) {
      var i :| 0 <= i < k && lines[..k][i].SectionStart? && forall j :: i < j < k ==> !lines[..k][j].SectionEnd?;
      assert lines[i].SectionStart? && forall j :: i < j < k ==> !lines[j].SectionEnd?;
    }
  }

  lemma ListingIsLists(dec: string -> string, cls: string -> Class, lines: seq<Line>, k: nat, path: string)
    requires k < |lines|
    ensures var l := Listing(dec, cls, lines[k], InEntries(lines[..k]));
      l.Some? && l.value.path == path <==> ListsPath(dec, cls, lines, k, path)
  {
    InEntriesIff(lines[..k]);
    SectionPrefix(lines, k);
  }

  lemma {:induction false} ListedIff(dec: string -> string, cls: string -> Class, lines: seq<Line>, path: string)
    ensures path in PathsOf(Listings(dec, cls, lines)) <==>
      exists k: nat :: k < |lines| && ListsPath(dec, cls, lines, k, path)
  {
    if lines != [] {
      var n := |lines| - 1;
      var before, l := Listings(dec, cls, lines[..n]), Listing(dec, cls, lines[n], InEntries(lines[..n]));
      ListedIff(dec, cls, lines[..n], path);
      ListingIsLists(dec, cls, lines, n, path);
      forall k: nat | k < n
        ensures ListsPath(dec, cls, lines[..n], k, path) <==> ListsPath(dec, cls, lines, k, path)
      {
        ListsPathPrefix(dec, cls, lines, n, k, path);
      }
      if l.Some? {
        MapSnoc(PathOf, before, l.value);
      } else {
        assert before + [] == before;
      }
      if k: nat :| k < n && ListsPath(dec, cls, lines[..n], k, path) {
        assert ListsPath(dec, cls, lines, k, path);
      }
    }
  }

  /** A report lists exactly the paths of its entries and of its file headers outside the sections, each once. */
  lemma ReportListsIff(dec: string -> string, cls: string -> Class, report: Report, path: string)
    ensures path in ReportPaths(dec, cls, report) <==>
      exists k: nat :: k < |report.lines| && ListsPath(dec, cls, report.lines, k, path)
    ensures Distinct(ReportPaths(dec, cls, report))
  {
    ParsedAreFirstListings(Listings(dec, cls, report.lines));
    ListedIff(dec, cls, report.lines, path);
  }

  // ----- Package evidence

  const SLACK := 24 * 3600
  const BIN_PREFIXES := ["/usr/bin/", "/usr/sbin/", "/bin/", "/sbin/"]

  datatype Owner = Owner(path: string, pkg: string)
  datatype Event = Event(ts: int, pkg: string)

  /** What dpkg, debsums and the file system say; `resolve` follows links and may fail. */
  datatype Evidence = Evidence(
    owned: seq<Owner>, events: seq<Event>, scanTs: Option<int>,
    aideMtime: map<string, int>, extraMtime: map<string, int>, liveMtime: map<string, int>,
    debsums: map<string, string>, resolve: string -> Option<string>)

  predicate Owns(cls: string -> Class, p: string, o: Owner) {
    cls(o.path) == Identity && Covers(o.path, p)
  }

  /** The owner with the longest path, the first of them on a tie. */
  function BestOwner(owns: Owner -> bool, owned: seq<Owner>): Option<Owner> {
    if owned == [] then None else
      var best, o := BestOwner(owns, owned[..|owned| - 1]), owned[|owned| - 1];
      if owns(o) && (best.None? || |o.path| > |best.value.path|) then Some(o) else best
  }

  ghost predicate IsBest(owns: Owner -> bool, owned: seq<Owner>, k: nat) {
    && k < |owned| && owns(owned[k])
    && (forall j :: 0 <= j < |owned| && owns(owned[j]) ==> |owned[j].path| <= |owned[k].path|)
    && (forall j :: 0 <= j < k && owns(owned[j]) ==> |owned[j].path| < |owned[k].path|)
  }

  lemma {:induction false} BestOwnerIsLongest(owns: Owner -> bool, owned: seq<Owner>)
    ensures BestOwner(owns, owned).None? ==> forall o :: o in owned ==> !owns(o)
    ensures BestOwner(owns, owned).Some? ==>
      exists k: nat :: IsBest(owns, owned, k) && owned[k] == BestOwner(owns, owned).value
  {
    if owned != [] {
      var n := |owned| - 1;
      var init, o := owned[..n], owned[n];
      assert owned == init + [o];
      BestOwnerIsLongest(owns, init);
      if BestOwner(owns, init).None? {
        assert forall j :: 0 <= j < n ==> owned[j] in init;
        if owns(o) {
          assert IsBest(owns, owned, n);
        }
      } else {
        var k: nat :| IsBest(owns, init, k) && init[k] == BestOwner(owns, init).value;
        assert forall j :: 0 <= j < n ==> owned[j] == init[j];
        assert IsBest(owns, owned, if owns(o) && |o.path| > |init[k].path| then n else k);
      }
    }
  }

  /** An exact owner goes first. */
  function PkgOf(cls: string -> Class, p: string, owned: seq<Owner>): Option<string> {
    var k := FirstIndex((o: Owner) => o.path == p, owned);
    if k < |owned| then Some(owned[k].pkg) else
      var best := BestOwner((o: Owner) => Owns(cls, p, o), owned);
      if best.Some? then Some(best.value.pkg) else None
  }

  method PkgForPath(cls: string -> Class, p: string, owned: seq<Owner>) returns (pkg: Option<string>)
    ensures pkg == PkgOf(cls, p, owned)
  {
    var exact := FirstIndex((o: Owner) => o.path == p, owned);
    if exact < |owned| {
      return Some(owned[exact].pkg);
    }
    ghost var owns := (o: Owner) => Owns(cls, p, o);
    var best: Option<Owner> := None;
    for k := 0 to |owned|
      invariant best == BestOwner(owns, owned[..k])
    {
      Snoc(owned, k);
      if cls(owned[k].path) == Identity && Covers(owned[k].path, p) {
        if best.None? || |owned[k].path| > |best.value.path| {
          best := Some(owned[k]);
        }
      }
    }
    Whole(owned);
    return if best.Some? then Some(best.value.pkg) else None;
  }

  /** Some event of the package lies within a day of the time. */
  predicate EventNear(pkg: string, events: seq<Event>, at: Option<int>) {
    at.Some? && exists k :: 0 <= k < |events| && events[k].pkg == pkg && -SLACK <= at.value - events[k].ts <= SLACK
  }

  predicate IsBinary(p: string) {
    exists k :: 0 <= k < |BIN_PREFIXES| && StartsWith(p, BIN_PREFIXES[k])
  }

  /** The live time is asked for the path decoded once more. */
  function Mtime(dec: string -> string, ev: Evidence, p: string): Option<int> {
    if p in ev.aideMtime then Some(ev.aideMtime[p])
    else if p in ev.extraMtime then Some(ev.extraMtime[p])
    else if dec(p) in ev.liveMtime then Some(ev.liveMtime[dec(p)]) else None
  }

  predicate ExcusedByPackage(dec: string -> string, ev: Evidence, pkg: Option<string>, p: string) {
    pkg.Some? && pkg.value != ""
    && ((IsBinary(p) && EventNear(pkg.value, ev.events, ev.scanTs))
        || EventNear(pkg.value, ev.events, Mtime(dec, ev, p)))
  }

  function Debsums(ev: Evidence, p: string): Option<string> {
    if p in ev.debsums then Some(ev.debsums[p])
    else if ev.resolve(p).Some? && ev.resolve(p).value in ev.debsums then Some(ev.debsums[ev.resolve(p).value])
    else None
  }

  predicate ExcusedAsStale(ev: Evidence, pkg: Option<string>, p: string) {
    pkg.Some? && pkg.value != "" && Debsums(ev, p) == Some("OK")
  }

  /** The class after package evidence; `dec` is applied again to the path, as the source does. */
  function FinalClass(dec: string -> string, cls: string -> Class, ev: Evidence, path: string): Class {
    if cls(path) != Identity then cls(path) else
      var pkg := PkgOf(cls, dec(path), ev.owned);
      if ExcusedByPackage(dec, ev, pkg, dec(path)) then Pkg
      else if ExcusedAsStale(ev, pkg, dec(path)) then Stale
      else Identity
  }

  // ----- Buckets

  datatype Place = In(cls: Class) | Skipped | Unreadable

  const FREEZABLE := {SelfSudoers, SelfHelper, Stale}

  function PlaceOf(final: string -> Class, frozen: string -> Verdict, path: string): Place {
    if final(path) !in FREEZABLE then In(final(path))
    else match frozen(path)
      case Frozen => Skipped
      case Changed => In(final(path))
      case Raises => Unreadable
  }

  /** The paths with one place, in report order. */
  function At(place: string -> Place, w: Place, paths: seq<string>): seq<string> {
    Filter((p: string) => place(p) == w, paths)
  }

  datatype Sorted = Sorted(buckets: map<Class, seq<string>>, skipped: seq<string>) | Crashed

  function Bucket(buckets: map<Class, seq<string>>, c: Class): seq<string> {
    if c in buckets then buckets[c] else []
  }

  /** The bucketing loop; an unreadable frozen file ends it with an exception. */
  method SortPaths(place: string -> Place, paths: seq<string>) returns (r: Sorted)
    ensures r.Crashed? <==> At(place, Unreadable, paths) != []
    ensures r.Sorted? ==> r.skipped == At(place, Skipped, paths)
    ensures r.Sorted? ==> forall c: Class :: Bucket(r.buckets, c) == At(place, In(c), paths)
  {
    var buckets: map<Class, seq<string>> := map[];
    var skipped: seq<string> := [];
    for k := 0 to |paths|
      invariant At(place, Unreadable, paths[..k]) == [] && skipped == At(place, Skipped, paths[..k])
      invariant forall c: Class :: Bucket(buckets, c) == At(place, In(c), paths[..k])
    {
      Snoc(paths, k);
      match place(paths[k]) {
        case Skipped => skipped := skipped + [paths[k]];
        case In(c) => buckets := buckets[c := Bucket(buckets, c) + [paths[k]]];
        case Unreadable =>
          AtGrows(place, Unreadable, paths, k + 1);
          return Crashed;
      }
    }
    Whole(paths);
    return Sorted(buckets, skipped);
  }

  lemma {:induction false} AtGrows(place: string -> Place, w: Place, paths: seq<string>, k: nat)
    requires k <= |paths|
    ensures At(place, w, paths[..k]) <= At(place, w, paths)
    decreases |paths| - k
  {
    if k < |paths| {
      Snoc(paths, k);
      AtGrows(place, w, paths, k + 1);
    } else {
      Whole(paths);
    }
  }

  /** All paths at the listed places, place by place. */
  function Gathered(place: string -> Place, places: seq<Place>, paths: seq<string>): seq<string> {
    if places == [] then [] else
      Gathered(place, places[..|places| - 1], paths) + At(place, places[|places| - 1], paths)
  }

  lemma {:induction false} GatheredSnoc(place: string -> Place, places: seq<Place>, init: seq<string>, p: string)
    requires Distinct(places)
    ensures multiset(Gathered(place, places, init + [p]))
      == multiset(Gathered(place, places, init)) + if place(p) in places then multiset{p} else multiset{}
  {
    if places != [] {
      var w, rest := places[|places| - 1], places[..|places| - 1];
      assert places == rest + [w] && w !in rest;
      GatheredSnoc(place, rest, init, p);
      assert (init + [p])[..|init + [p]| - 1] == init;
    }
  }

  /** Distinct places that cover everything split the paths without loss or repetition. */
  lemma {:induction false} PlacesPartition(place: string -> Place, places: seq<Place>, paths: seq<string>)
    requires Distinct(places) && forall p :: p in paths ==> place(p) in places
    ensures multiset(Gathered(place, places, paths)) == multiset(paths)
  {
    if paths == [] {
      NothingGathered(place, places);
    } else {
      var init, p := paths[..|paths| - 1], paths[|paths| - 1];
      assert paths == init + [p];
      PlacesPartition(place, places, init);
      GatheredSnoc(place, places, init, p);
    }
  }

  lemma {:induction false} NothingGathered(place: string -> Place, places: seq<Place>)
    ensures Gathered(place, places, []) == []
  {
    if places != [] {
      NothingGathered(place, places[..|places| - 1]);
    }
  }

  const ORDER := [Identity, Stale, Pkg, SelfSudoers, SnapProton, SnapOther, Other, SelfHelper]

  const PLACES := [
    In(Identity), In(Stale), In(Pkg), In(SelfSudoers), In(SnapProton), In(SnapOther), In(Other), In(SelfHelper),
    Skipped, Unreadable]

  lemma PlacesAreAll()
    ensures Distinct(PLACES) && forall w: Place :: w in PLACES
  {
    forall w: Place ensures w in PLACES {
      PlaceIsListed(w);
    }
  }

  /** Every parsed path lands in exactly one bucket or is skipped (or stops the run), none twice. */
  lemma EveryPathHasOnePlace(place: string -> Place, rs: seq<Reported>)
    ensures Distinct(PathsOf(Unrepeated(rs)))
    ensures multiset(Gathered(place, PLACES, PathsOf(Unrepeated(rs)))) == multiset(PathsOf(Unrepeated(rs)))
  {
    ParsedAreFirstListings(rs);
    PlacesAreAll();
    PlacesPartition(place, PLACES, PathsOf(Unrepeated(rs)));
  }

  lemma PlaceIsListed(w: Place)
    ensures w in PLACES
  {
    match w
    case Skipped => assert PLACES[8] == w;
    case Unreadable => assert PLACES[9] == w;
    case In(c) =>
      match c {
        case Identity => assert PLACES[0] == w;
        case Stale => assert PLACES[1] == w;
        case Pkg => assert PLACES[2] == w;
        case SelfSudoers => assert PLACES[3] == w;
        case SnapProton => assert PLACES[4] == w;
        case SnapOther => assert PLACES[5] == w;
        case Other => assert PLACES[6] == w;
        case SelfHelper => assert PLACES[7] == w;
      }
  }

  // ----- Findings

  datatype Severity = INFO | WARN | ALERT
  datatype Finding = DatabaseMissing | Finding(cls: Class, paths: seq<string>) {
    function Sev(): Severity {
      if DatabaseMissing? then INFO else
        match cls
        case Identity => ALERT
        case SelfHelper => INFO
        case _ => WARN
    }

    function Id(): string {
      if DatabaseMissing? then "FIM-AIDE" else
        match cls
        case Stale => "FIM-AIDE-STALE"
        case Pkg => "FIM-AIDE-PKG"
        case _ => "FIM-AIDE"
    }
  }

  datatype Report = Report(noDifferences: bool, failedToOpen: bool, lines: seq<Line>)

  function FindingFor(place: string -> Place, c: Class, paths: seq<string>): seq<Finding> {
    if At(place, In(c), paths) != [] then [Finding(c, At(place, In(c), paths))] else []
  }

  /** One finding for each nonempty bucket, in the given order. */
  function InOrder(place: string -> Place, order: seq<Class>, paths: seq<string>): seq<Finding> {
    FlatMap((c: Class) => FindingFor(place, c, paths), order)
  }

  method Records(buckets: map<Class, seq<string>>, ghost place: string -> Place, ghost paths: seq<string>)
    returns (recs: seq<Finding>)
    requires forall c: Class :: Bucket(buckets, c) == At(place, In(c), paths)
    ensures recs == InOrder(place, ORDER, paths)
  {
    recs := [];
    for k := 0 to |ORDER|
      invariant recs == InOrder(place, ORDER[..k], paths)
    {
      Snoc(ORDER, k);
      var c := ORDER[k];
      if Bucket(buckets, c) != [] {
        recs := recs + [Finding(c, Bucket(buckets, c))];
      }
    }
    Whole(ORDER);
  }

  /** `findings_from_report`, before the display cuts; None when reading a frozen file raised. */
  method FindingsFromReport(dec: string -> string, cls: string -> Class, ev: Evidence, frozen: string -> Verdict,
                            report: Report)
    returns (r: Option<seq<Finding>>)
    ensures r == Findings(dec, cls, ev, frozen, report)
  {
    if report.noDifferences {
      return Some(if report.failedToOpen then [DatabaseMissing] else []);
    }
    var parsed := ParsePaths(dec, cls, report.lines);
    var place := Placing(dec, cls, ev, frozen);
    var sorted := SortPaths(place, PathsOf(parsed));
    if sorted.Crashed? {
      return None;
    }
    var recs := Records(sorted.buckets, place, PathsOf(parsed));
    return Some(recs);
  }

  function Placing(dec: string -> string, cls: string -> Class, ev: Evidence,
                   frozen: string -> Verdict): string -> Place {
    (p: string) => PlaceOf((q: string) => FinalClass(dec, cls, ev, q), frozen, p)
  }

  function ReportPaths(dec: string -> string, cls: string -> Class, report: Report): seq<string> {
    PathsOf(Unrepeated(Listings(dec, cls, report.lines)))
  }

  function Findings(dec: string -> string, cls: string -> Class, ev: Evidence, frozen: string -> Verdict,
                    report: Report)
    : Option<seq<Finding>>
  {
    if report.noDifferences then Some(if report.failedToOpen then [DatabaseMissing] else []) else
      var place, paths := Placing(dec, cls, ev, frozen), ReportPaths(dec, cls, report);
      if At(place, Unreadable, paths) != [] then None else Some(InOrder(place, ORDER, paths))
  }

  // ----- What excuses an identity path

  ghost predicate OwnsExactly(p: string, owned: seq<Owner>, k: nat) {
    k < |owned| && owned[k].path == p && forall j :: 0 <= j < k ==> owned[j].path != p
  }

  /** No entry is the path itself, and this one is the best that covers it. */
  ghost predicate OwnsByCover(cls: string -> Class, p: string, owned: seq<Owner>, k: nat) {
    && (forall o :: o in owned ==> o.path != p)
    && IsBest((o: Owner) => cls(o.path) == Identity && Covers(o.path, p), owned, k)
  }

  /** The package of the path: its own entry's, else that of the longest covering identity entry. */
  ghost predicate OwnedBy(cls: string -> Class, p: string, owned: seq<Owner>, pkg: string) {
    exists k: nat :: (OwnsExactly(p, owned, k) || OwnsByCover(cls, p, owned, k)) && owned[k].pkg == pkg
  }

  lemma BestIsUnique(owns: Owner -> bool, owned: seq<Owner>, k: nat, m: nat)
    requires IsBest(owns, owned, k) && IsBest(owns, owned, m)
    ensures k == m
  {
    assert owns(owned[k]) && owns(owned[m]);
  }

  lemma PkgIsOwner(cls: string -> Class, p: string, owned: seq<Owner>, pkg: string)
    ensures PkgOf(cls, p, owned) == Some(pkg) <==> OwnedBy(cls, p, owned, pkg)
  {
    var k := FirstIndex((o: Owner) => o.path == p, owned);
    if k < |owned| {
      ExactOwner(cls, p, owned, k, pkg);
    } else {
      CoveringOwner(cls, p, owned, pkg);
    }
  }

  lemma ExactOwner(cls: string -> Class, p: string, owned: seq<Owner>, k: nat, pkg: string)
    requires OwnsExactly(p, owned, k)
    ensures OwnedBy(cls, p, owned, pkg) <==> owned[k].pkg == pkg
  {
    assert owned[k] in owned;
    if OwnedBy(cls, p, owned, pkg) {
      var m: nat :| (OwnsExactly(p, owned, m) || OwnsByCover(cls, p, owned, m)) && owned[m].pkg == pkg;
      assert m == k;
    }
  }

  lemma CoveringOwner(cls: string -> Class, p: string, owned: seq<Owner>, pkg: string)
    requires forall o :: o in owned ==> o.path != p
    ensures var best := BestOwner((o: Owner) => Owns(cls, p, o), owned);
      OwnedBy(cls, p, owned, pkg) <==> best.Some? && best.value.pkg == pkg
  {
    var owns := (o: Owner) => Owns(cls, p, o);
    BestOwnerIsLongest(owns, owned);
    if BestOwner(owns, owned).Some? {
      var k: nat :| IsBest(owns, owned, k) && owned[k] == BestOwner(owns, owned).value;
      assert OwnsByCover(cls, p, owned, k);
    }
    if OwnedBy(cls, p, owned, pkg) {
      var m: nat :| (OwnsExactly(p, owned, m) || OwnsByCover(cls, p, owned, m)) && owned[m].pkg == pkg;
      assert owned[m] in owned;
      assert IsBest(owns, owned, m) && owns(owned[m]);
      var k: nat :| IsBest(owns, owned, k) && owned[k] == BestOwner(owns, owned).value;
      BestIsUnique(owns, owned, k, m);
    }
  }

  /** An event of this very package within a day of the time. */
  ghost predicate Near(ev: Evidence, pkg: string, at: int) {
    exists e :: e in ev.events && e.pkg == pkg && e.ts - 86400 <= at <= e.ts + 86400
  }

  /** The first known of the times that AIDE, the listing and the disk give. */
  ghost predicate ChangedAt(dec: string -> string, ev: Evidence, p: string, t: int) {
    || (p in ev.aideMtime && t == ev.aideMtime[p])
    || (p !in ev.aideMtime && p in ev.extraMtime && t == ev.extraMtime[p])
    || (p !in ev.aideMtime && p !in ev.extraMtime && dec(p) in ev.liveMtime && t == ev.liveMtime[dec(p)])
  }

  ghost predicate UnderBin(p: string) {
    "/usr/bin/" <= p || "/usr/sbin/" <= p || "/bin/" <= p || "/sbin/" <= p
  }

  /** The package was installed or configured about when the path changed, or when the scan ran for a binary. */
  ghost predicate InstalledThen(dec: string -> string, ev: Evidence, p: string, pkg: string) {
    || (exists t :: ChangedAt(dec, ev, p, t) && Near(ev, pkg, t))
    || (UnderBin(p) && ev.scanTs.Some? && Near(ev, pkg, ev.scanTs.value))
  }

  /** debsums calls the path OK, or its link target when it has no entry of its own. */
  ghost predicate SumsMatch(ev: Evidence, p: string) {
    if p in ev.debsums then ev.debsums[p] == "OK"
    else ev.resolve(p).Some? && ev.resolve(p).value in ev.debsums && ev.debsums[ev.resolve(p).value] == "OK"
  }

  ghost predicate Excused(dec: string -> string, cls: string -> Class, ev: Evidence, p: string) {
    exists pkg :: pkg != "" && OwnedBy(cls, p, ev.owned, pkg) && (InstalledThen(dec, ev, p, pkg) || SumsMatch(ev, p))
  }

  lemma EventNearIs(ev: Evidence, pkg: string, at: Option<int>)
    ensures EventNear(pkg, ev.events, at) <==> at.Some? && Near(ev, pkg, at.value)
  {
    if EventNear(pkg, ev.events, at) {
      var k :| 0 <= k < |ev.events| && ev.events[k].pkg == pkg && -SLACK <= at.value - ev.events[k].ts <= SLACK;
      assert ev.events[k] in ev.events;
    }
  }

  lemma BinaryIs(p: string)
    ensures IsBinary(p) <==> UnderBin(p)
  {
    assert BIN_PREFIXES[0] == "/usr/bin/" && BIN_PREFIXES[1] == "/usr/sbin/";
    assert BIN_PREFIXES[2] == "/bin/" && BIN_PREFIXES[3] == "/sbin/";
  }

  lemma InstalledThenIs(dec: string -> string, ev: Evidence, pkg: string, p: string)
    ensures ExcusedByPackage(dec, ev, Some(pkg), p) <==> pkg != "" && InstalledThen(dec, ev, p, pkg)
  {
    BinaryIs(p);
    EventNearIs(ev, pkg, ev.scanTs);
    EventNearIs(ev, pkg, Mtime(dec, ev, p));
    if t :| ChangedAt(dec, ev, p, t) && Near(ev, pkg, t) {
      assert Mtime(dec, ev, p) == Some(t);
    }
    if Mtime(dec, ev, p).Some? {
      assert ChangedAt(dec, ev, p, Mtime(dec, ev, p).value);
    }
  }

  /** Package and stale are exactly the excused identity paths, told apart by the window. */
  lemma FinalClassIs(dec: string -> string, cls: string -> Class, ev: Evidence, path: string)
    ensures var (p, final) := (dec(path), FinalClass(dec, cls, ev, path));
      if cls(path) != Identity then final == cls(path)
      else
        && final in {Identity, Pkg, Stale}
        && (final != Identity <==> Excused(dec, cls, ev, p))
        && (final == Pkg <==>
            exists pkg :: pkg != "" && OwnedBy(cls, p, ev.owned, pkg) && InstalledThen(dec, ev, p, pkg))
  {
    if cls(path) == Identity {
      var p := dec(path);
      var pkg := PkgOf(cls, p, ev.owned);
      forall x ensures pkg == Some(x) <==> OwnedBy(cls, p, ev.owned, x) {
        PkgIsOwner(cls, p, ev.owned, x);
      }
      if pkg.Some? {
        assert OwnedBy(cls, p, ev.owned, pkg.value);
        InstalledThenIs(dec, ev, pkg.value, p);
      }
    }
  }

  /** An identity path that nothing excuses. */
  ghost predicate Unexcused(dec: string -> string, cls: string -> Class, ev: Evidence, p: string) {
    cls(p) == Identity && !Excused(dec, cls, ev, dec(p))
  }

  lemma NearIsOwn(ev: Evidence, other: Evidence, pkg: string, at: int)
    requires forall ts :: Event(ts, pkg) in ev.events <==> Event(ts, pkg) in other.events
    ensures Near(ev, pkg, at) <==> Near(other, pkg, at)
  {
    if e :| e in ev.events && e.pkg == pkg && e.ts - 86400 <= at <= e.ts + 86400 {
      assert e == Event(e.ts, pkg) && Event(e.ts, pkg) in other.events;
    }
    if e :| e in other.events && e.pkg == pkg && e.ts - 86400 <= at <= e.ts + 86400 {
      assert e == Event(e.ts, pkg) && Event(e.ts, pkg) in ev.events;
    }
  }

  lemma InstalledThenIsOwn(dec: string -> string, ev: Evidence, events: seq<Event>, p: string, pkg: string)
    requires forall ts :: Event(ts, pkg) in ev.events <==> Event(ts, pkg) in events
    ensures InstalledThen(dec, ev.(events := events), p, pkg) <==> InstalledThen(dec, ev, p, pkg)
  {
    var other := ev.(events := events);
    forall at ensures Near(ev, pkg, at) <==> Near(other, pkg, at) {
      NearIsOwn(ev, other, pkg, at);
    }
    assert forall t :: ChangedAt(dec, other, p, t) <==> ChangedAt(dec, ev, p, t);
  }

  /** Only events of the path's own package matter to it; without an owner, none does. */
  lemma OtherEventsDoNotMatter(dec: string -> string, cls: string -> Class, ev: Evidence, events: seq<Event>,
                               path: string)
    requires forall ts, pkg :: pkg != "" && OwnedBy(cls, dec(path), ev.owned, pkg) ==>
      (Event(ts, pkg) in ev.events <==> Event(ts, pkg) in events)
    ensures FinalClass(dec, cls, ev.(events := events), path) == FinalClass(dec, cls, ev, path)
  {
    var p, other := dec(path), ev.(events := events);
    FinalClassIs(dec, cls, ev, path);
    FinalClassIs(dec, cls, other, path);
    forall pkg | pkg != "" && OwnedBy(cls, p, ev.owned, pkg)
      ensures InstalledThen(dec, other, p, pkg) <==> InstalledThen(dec, ev, p, pkg)
    {
      InstalledThenIsOwn(dec, ev, events, p, pkg);
    }
    assert SumsMatch(other, p) <==> SumsMatch(ev, p);
  }

  function Alerts(fs: seq<Finding>): seq<Finding> {
    Filter((f: Finding) => f.Sev() == ALERT, fs)
  }

  function IdentityAlert(hard: seq<string>): seq<Finding> {
    if hard == [] then [] else [Finding(Identity, hard)]
  }

  /** The freeze overlay has no say on identity paths. */
  lemma OnlyUnexcusedIdentityIsAlert(dec: string -> string, cls: string -> Class, ev: Evidence,
                                     frozen: string -> Verdict, p: string)
    ensures Placing(dec, cls, ev, frozen)(p) == In(Identity) <==> Unexcused(dec, cls, ev, p)
  {
    FinalClassIs(dec, cls, ev, p);
  }

  lemma {:induction false} IdentityBucket(dec: string -> string, cls: string -> Class, ev: Evidence,
                                          frozen: string -> Verdict, paths: seq<string>)
    ensures At(Placing(dec, cls, ev, frozen), In(Identity), paths)
      == Filter((p: string) => Unexcused(dec, cls, ev, p), paths)
  {
    if paths != [] {
      IdentityBucket(dec, cls, ev, frozen, paths[..|paths| - 1]);
      OnlyUnexcusedIdentityIsAlert(dec, cls, ev, frozen, paths[|paths| - 1]);
    }
  }

  lemma AlertOf(place: string -> Place, c: Class, paths: seq<string>)
    ensures Alerts(FindingFor(place, c, paths)) == if c == Identity then IdentityAlert(At(place, In(c), paths)) else []
  {
    var none: seq<Finding> := [];
    var f := Finding(c, At(place, In(c), paths));
    FilterSnoc((x: Finding) => x.Sev() == ALERT, none, f);
    assert none + [f] == [f];
  }

  lemma {:induction false} NoAlertAmong(place: string -> Place, order: seq<Class>, paths: seq<string>)
    requires Identity !in order
    ensures Alerts(InOrder(place, order, paths)) == []
  {
    if order != [] {
      var init, c := order[..|order| - 1], order[|order| - 1];
      assert order == init + [c];
      NoAlertAmong(place, init, paths);
      AlertOf(place, c, paths);
      FilterConcat((x: Finding) => x.Sev() == ALERT, InOrder(place, init, paths), FindingFor(place, c, paths));
    }
  }

  lemma OnlyTheFirstAlerts(place: string -> Place, rest: seq<Class>, paths: seq<string>)
    requires Identity !in rest
    ensures Alerts(InOrder(place, [Identity] + rest, paths)) == IdentityAlert(At(place, In(Identity), paths))
  {
    var each := (c: Class) => FindingFor(place, c, paths);
    FlatMapConcat(each, [Identity], rest);
    FlatMapOne(each, Identity);
    FilterConcat((x: Finding) => x.Sev() == ALERT, FindingFor(place, Identity, paths), InOrder(place, rest, paths));
    AlertOf(place, Identity, paths);
    NoAlertAmong(place, rest, paths);
  }

  /** Whatever the freeze scope says: if the run ends, its ALERT finding holds exactly the identity
      paths that nothing excuses, in report order, and there is none when there are no such paths. */
  lemma AlertIsUnexcusedIdentity(dec: string -> string, cls: string -> Class, ev: Evidence,
                                 frozen: string -> Verdict, report: Report)
    requires !report.noDifferences && Findings(dec, cls, ev, frozen, report).Some?
    ensures Alerts(Findings(dec, cls, ev, frozen, report).value)
      == IdentityAlert(Filter((p: string) => Unexcused(dec, cls, ev, p), ReportPaths(dec, cls, report)))
  {
    IdentityBucket(dec, cls, ev, frozen, ReportPaths(dec, cls, report));
    OnlyTheFirstAlerts(Placing(dec, cls, ev, frozen), ORDER[1..], ReportPaths(dec, cls, report));
    assert [Identity] + ORDER[1..] == ORDER;
  }

  /** Runs that end give one ALERT, whatever their overlays say. */
  lemma EndingRunsShareTheAlert(dec: string -> string, cls: string -> Class, ev: Evidence,
                                frozen: string -> Verdict, other: string -> Verdict, report: Report)
    requires Findings(dec, cls, ev, frozen, report).Some? && Findings(dec, cls, ev, other, report).Some?
    ensures Alerts(Findings(dec, cls, ev, frozen, report).value) == Alerts(Findings(dec, cls, ev, other, report).value)
  {
    if !report.noDifferences {
      AlertIsUnexcusedIdentity(dec, cls, ev, frozen, report);
      AlertIsUnexcusedIdentity(dec, cls, ev, other, report);
    }
  }

  // ----- The findings, class by class

  /** The path belongs to the class after the package evidence, and is not frozen if the class may be. */
  predicate Shows(dec: string -> string, cls: string -> Class, ev: Evidence, frozen: string -> Verdict,
                        c: Class, p: string) {
    FinalClass(dec, cls, ev, p) == c && (c in {SelfSudoers, SelfHelper, Stale} ==> frozen(p) != Frozen)
  }

  /** The order of the findings. */
  function Position(c: Class): nat {
    match c
    case Identity => 0 case Stale => 1 case Pkg => 2 case SelfSudoers => 3
    case SnapProton => 4 case SnapOther => 5 case Other => 6 case SelfHelper => 7
  }

  lemma LostAt(dec: string -> string, cls: string -> Class, ev: Evidence, frozen: string -> Verdict, p: string)
    ensures Placing(dec, cls, ev, frozen)(p) == Unreadable
      <==> FinalClass(dec, cls, ev, p) in FREEZABLE && frozen(p) == Raises
  {
  }

  lemma {:induction false} BucketShows(dec: string -> string, cls: string -> Class, ev: Evidence,
                                       frozen: string -> Verdict, c: Class, paths: seq<string>)
    requires At(Placing(dec, cls, ev, frozen), Unreadable, paths) == []
    ensures At(Placing(dec, cls, ev, frozen), In(c), paths)
      == Filter((p: string) => Shows(dec, cls, ev, frozen, c, p), paths)
  {
    if paths != [] {
      var init, p := paths[..|paths| - 1], paths[|paths| - 1];
      BucketShows(dec, cls, ev, frozen, c, init);
      LostAt(dec, cls, ev, frozen, p);
    }
  }

  ghost predicate IsBucket(place: string -> Place, f: Finding, paths: seq<string>) {
    f.Finding? && f.paths != [] && f.paths == At(place, In(f.cls), paths)
  }

  /** The findings for the nonempty buckets of the first `n` classes. */
  ghost predicate UpTo(place: string -> Place, n: nat, paths: seq<string>, fs: seq<Finding>) {
    && (forall i :: 0 <= i < |fs| ==> IsBucket(place, fs[i], paths) && Position(fs[i].cls) < n)
    && (forall i, j :: 0 <= i < j < |fs| ==> Position(fs[i].cls) < Position(fs[j].cls))
    && (forall c: Class :: Position(c) < n && At(place, In(c), paths) != [] ==>
        Finding(c, At(place, In(c), paths)) in fs)
  }

  lemma NextClass(place: string -> Place, paths: seq<string>, fs: seq<Finding>, c: Class)
    requires UpTo(place, Position(c), paths, fs)
    ensures UpTo(place, Position(c) + 1, paths, fs + FindingFor(place, c, paths))
  {
    PositionsAreDistinct(c);
  }

  lemma PositionsAreDistinct(c: Class)
    ensures Position(c) < |ORDER| && ORDER[Position(c)] == c
    ensures forall d: Class :: Position(d) == Position(c) ==> d == c
  {
  }

  lemma OrderAt(k: nat)
    requires k < |ORDER|
    ensures Position(ORDER[k]) == k
  {
  }

  lemma InOrderSnoc(place: string -> Place, order: seq<Class>, c: Class, paths: seq<string>)
    ensures InOrder(place, order + [c], paths) == InOrder(place, order, paths) + FindingFor(place, c, paths)
  {
    FlatMapSnoc((x: Class) => FindingFor(place, x, paths), order, c);
  }

  lemma {:induction false} FindingsInOrder(place: string -> Place, order: seq<Class>, paths: seq<string>)
    requires forall k :: 0 <= k < |order| ==> Position(order[k]) == k
    ensures UpTo(place, |order|, paths, InOrder(place, order, paths))
  {
    if order != [] {
      var init, c := order[..|order| - 1], order[|order| - 1];
      assert order == init + [c];
      FindingsInOrder(place, init, paths);
      InOrderSnoc(place, init, c, paths);
      NextClass(place, paths, InOrder(place, init, paths), c);
    }
  }

  /** One finding for each class with a path to show, in a fixed order, with exactly those paths in report order. */
  ghost predicate TellsAll(shows: (Class, string) -> bool, paths: seq<string>, fs: seq<Finding>) {
    && (forall f :: f in fs ==> f.Finding? && f.paths != [])
    && (forall f :: f in fs ==> f.paths == Filter((p: string) => shows(f.cls, p), paths))
    && (forall c: Class, p :: p in paths && shows(c, p) ==> exists f :: f in fs && f.cls == c)
    && (forall i, j :: 0 <= i < j < |fs| ==> Position(fs[i].cls) < Position(fs[j].cls))
  }

  lemma BucketsTellAll(place: string -> Place, shows: (Class, string) -> bool, paths: seq<string>, fs: seq<Finding>)
    requires UpTo(place, |ORDER|, paths, fs)
    requires forall c: Class :: At(place, In(c), paths) == Filter((p: string) => shows(c, p), paths)
    ensures TellsAll(shows, paths, fs)
  {
    forall c: Class, p | p in paths && shows(c, p) ensures exists f :: f in fs && f.cls == c {
      PositionsAreDistinct(c);
      FilterIn((q: string) => shows(c, q), paths);
      assert p in At(place, In(c), paths);
      assert Finding(c, At(place, In(c), paths)) in fs;
    }
  }

  /** A run that ends shows each class its paths. */
  lemma FindingsAre(dec: string -> string, cls: string -> Class, ev: Evidence, frozen: string -> Verdict,
                    report: Report)
    requires !report.noDifferences && Findings(dec, cls, ev, frozen, report).Some?
    ensures TellsAll((c: Class, p: string) => Shows(dec, cls, ev, frozen, c, p), ReportPaths(dec, cls, report),
                     Findings(dec, cls, ev, frozen, report).value)
  {
    var place, paths := Placing(dec, cls, ev, frozen), ReportPaths(dec, cls, report);
    var shows := (c: Class, p: string) => Shows(dec, cls, ev, frozen, c, p);
    forall k | 0 <= k < |ORDER| ensures Position(ORDER[k]) == k {
      OrderAt(k);
    }
    FindingsInOrder(place, ORDER, paths);
    forall c: Class ensures At(place, In(c), paths) == Filter((p: string) => shows(c, p), paths) {
      BucketShows(dec, cls, ev, frozen, c, paths);
      SameFilter((p: string) => Shows(dec, cls, ev, frozen, c, p), (p: string) => shows(c, p), paths);
    }
    BucketsTellAll(place, shows, paths, Findings(dec, cls, ev, frozen, report).value);
  }

  /** A report without differences: the only finding is that the database is missing. */
  lemma NoDifferencesSays(dec: string -> string, cls: string -> Class, ev: Evidence, frozen: string -> Verdict,
                          report: Report)
    requires report.noDifferences
    ensures var r := Findings(dec, cls, ev, frozen, report);
      && r.Some? && (report.failedToOpen <==> r.value != []) && (forall f :: f in r.value ==> f.DatabaseMissing?)
      && |r.value| <= 1
  {
  }

  /** Severity and id of a finding. */
  lemma SeverityAndId(f: Finding)
    ensures f.DatabaseMissing? ==> f.Sev() == INFO && f.Id() == "FIM-AIDE"
    ensures f.Finding? ==>
      && (f.Sev() == ALERT <==> f.cls == Identity) && (f.Sev() == INFO <==> f.cls == SelfHelper)
      && (f.Id() == "FIM-AIDE-STALE" <==> f.cls == Stale) && (f.Id() == "FIM-AIDE-PKG" <==> f.cls == Pkg)
      && (f.Id() == "FIM-AIDE" <==> f.cls != Stale && f.cls != Pkg)
  {
  }

  // ----- The run on a scope and a disk

  function Overlay(scope: Option<Scope>, disk: Disk): string -> Verdict {
    (p: string) => IsFrozen(p, scope, disk)
  }

  function Triage(ev: Evidence, scope: Option<Scope>, disk: Disk, report: Report): Option<seq<Finding>> {
    Findings(Decode, Classify, ev, Overlay(scope, disk), report)
  }

  /** The run as the source makes it: its own decoder and classes, and the freeze overlay on disk. */
  method TriageReport(ev: Evidence, scope: Option<Scope>, disk: Disk, report: Report) returns (r: Option<seq<Finding>>)
    ensures r == Triage(ev, scope, disk, report)
    ensures !report.noDifferences && r.Some? ==>
      Alerts(r.value) == IdentityAlert(Filter((p: string) => Unexcused(Decode, Classify, ev, p),
                                              ReportPaths(Decode, Classify, report)))
  {
    r := FindingsFromReport(Decode, Classify, ev, Overlay(scope, disk), report);
    if !report.noDifferences && r.Some? {
      AlertIsUnexcusedIdentity(Decode, Classify, ev, Overlay(scope, disk), report);
    }
  }

  /** Some reported path of a class that may be frozen has a digest and cannot be read. */
  ghost predicate Stops(ev: Evidence, scope: Option<Scope>, disk: Disk, report: Report) {
    !report.noDifferences && exists p ::
      p in ReportPaths(Decode, Classify, report) && FinalClass(Decode, Classify, ev, p) in FREEZABLE
      && CannotCompare(p, scope, disk)
  }

  lemma LostIff(dec: string -> string, cls: string -> Class, ev: Evidence, frozen: string -> Verdict, report: Report)
    ensures Findings(dec, cls, ev, frozen, report).None? <==> !report.noDifferences && exists p ::
      p in ReportPaths(dec, cls, report) && FinalClass(dec, cls, ev, p) in FREEZABLE && frozen(p) == Raises
  {
    var place, paths := Placing(dec, cls, ev, frozen), ReportPaths(dec, cls, report);
    var lost := At(place, Unreadable, paths);
    FilterIn((p: string) => place(p) == Unreadable, paths);
    forall p ensures p in lost <==> p in paths && FinalClass(dec, cls, ev, p) in FREEZABLE && frozen(p) == Raises {
      LostAt(dec, cls, ev, frozen, p);
    }
    if lost != [] {
      assert lost[0] in lost;
    }
  }

  /** A run is lost, every finding of it, exactly when such a path is reported. */
  lemma TriageIsLostIff(ev: Evidence, scope: Option<Scope>, disk: Disk, report: Report)
    ensures Triage(ev, scope, disk, report).None? <==> Stops(ev, scope, disk, report)
  {
    LostIff(Decode, Classify, ev, Overlay(scope, disk), report);
    forall p ensures Overlay(scope, disk)(p) == Raises <==> CannotCompare(p, scope, disk) {
      RaisesIffCannotCompare(p, scope, disk);
    }
  }

  /** A scope keeps the ALERT of the run without one, which always ends, exactly when no such path is reported. */
  lemma ScopeKeepsAlertIff(ev: Evidence, scope: Option<Scope>, disk: Disk, report: Report)
    ensures var (plain, scoped) := (Triage(ev, None, disk, report), Triage(ev, scope, disk, report));
      && plain.Some?
      && (scoped.Some? && Alerts(scoped.value) == Alerts(plain.value) <==> !Stops(ev, scope, disk, report))
  {
    TriageIsLostIff(ev, None, disk, report);
    TriageIsLostIff(ev, scope, disk, report);
    if Triage(ev, scope, disk, report).Some? {
      EndingRunsShareTheAlert(Decode, Classify, ev, Overlay(None, disk), Overlay(scope, disk), report);
    }
  }

  const ACCOUNTS := "/etc/passwd"
  const SUDO_RULES := "/etc/sudoers.d/kalived"
  const BOTH := [Entry(RegularFile, false, ACCOUNTS), Entry(RegularFile, false, SUDO_RULES)]
  const NOTHING_OWNED := Evidence([], [], None, map[], map[], map[], map[], (p: string) => None)

  lemma AccountsAreIdentity()
    ensures Decode(ACCOUNTS) == ACCOUNTS && Classify(ACCOUNTS) == Identity
  {
    PlainIsStable(ACCOUNTS);
  }

  lemma SudoRulesAreOurs()
    ensures Decode(SUDO_RULES) == SUDO_RULES && Classify(SUDO_RULES) == SelfSudoers
  {
    PlainIsStable(SUDO_RULES);
  }

  lemma BothAreStable()
    ensures Decode(ACCOUNTS) == ACCOUNTS && Decode(SUDO_RULES) == SUDO_RULES
    ensures Classify(ACCOUNTS) == Identity && Classify(SUDO_RULES) == SelfSudoers
  {
    AccountsAreIdentity();
    SudoRulesAreOurs();
  }

  lemma FileIsListed(dec: string -> string, cls: string -> Class, lines: seq<Line>, a: string)
    requires dec(a) == a && a !in PathsOf(Unrepeated(Listings(dec, cls, lines)))
    ensures PathsOf(Unrepeated(Listings(dec, cls, lines + [Entry(RegularFile, false, a)])))
      == PathsOf(Unrepeated(Listings(dec, cls, lines))) + [a]
  {
    ListingsSnoc(dec, cls, lines, Entry(RegularFile, false, a));
    MapSnoc(PathOf, Unrepeated(Listings(dec, cls, lines)), Reported(RegularFile, a));
  }

  /** Two regular files under different names are listed as they come. */
  lemma TwoListings(dec: string -> string, cls: string -> Class, a: string, b: string)
    requires dec(a) == a && dec(b) == b && a != b
    ensures var lines := [Entry(RegularFile, false, a), Entry(RegularFile, false, b)];
      PathsOf(Unrepeated(Listings(dec, cls, lines))) == [a, b]
  {
    var none: seq<Line> := [];
    var x, y := Entry(RegularFile, false, a), Entry(RegularFile, false, b);
    assert PathsOf(Unrepeated(Listings(dec, cls, none))) == [];
    FileIsListed(dec, cls, none, a);
    FileIsListed(dec, cls, none + [x], b);
    assert none + [x] + [y] == [x, y] && [] + [a] + [b] == [a, b];
  }

  lemma UnownedIsUnexcused(dec: string -> string, cls: string -> Class, ev: Evidence, p: string)
    requires ev.owned == []
    ensures Unexcused(dec, cls, ev, p) <==> cls(p) == Identity
    ensures FinalClass(dec, cls, ev, p) == cls(p)
  {
  }

  lemma OnlyTheFirst(p: string -> bool, a: string, b: string)
    requires p(a) && !p(b)
    ensures Filter(p, [a, b]) == [a]
  {
    var none: seq<string> := [];
    FilterSnoc(p, none, a);
    FilterSnoc(p, none + [a], b);
    assert none + [a] + [b] == [a, b];
  }

  lemma AlertOfBoth()
    ensures var report := Report(false, false, BOTH);
      && ReportPaths(Decode, Classify, report) == [ACCOUNTS, SUDO_RULES]
      && Filter((p: string) => Unexcused(Decode, Classify, NOTHING_OWNED, p), [ACCOUNTS, SUDO_RULES]) == [ACCOUNTS]
      && FinalClass(Decode, Classify, NOTHING_OWNED, SUDO_RULES) == SelfSudoers
  {
    BothAreStable();
    TwoListings(Decode, Classify, ACCOUNTS, SUDO_RULES);
    UnownedIsUnexcused(Decode, Classify, NOTHING_OWNED, ACCOUNTS);
    UnownedIsUnexcused(Decode, Classify, NOTHING_OWNED, SUDO_RULES);
    OnlyTheFirst((p: string) => Unexcused(Decode, Classify, NOTHING_OWNED, p), ACCOUNTS, SUDO_RULES);
  }

  /** The default scope, written while the project's own sudo rules can be read, records their digest. */
  lemma DefaultScopeWatches(disk: Disk, later: Disk)
    requires SUDO_RULES in disk && disk[SUDO_RULES].readable && disk[SUDO_RULES].digest != ""
    requires SUDO_RULES in later && !later[SUDO_RULES].readable
    ensures CannotCompare(SUDO_RULES, Some(WrittenScope(None, [], true, disk)), later)
  {
    var scope := WrittenScope(None, [], true, disk);
    BothAreStable();
    assert DEFAULT_SCOPE[0] == SUDO_RULES;
    KeptIsListed(Decode, KeepPrefix, [] + Requested([]), SUDO_RULES);
    ListedUnfreezesIffChanged(SUDO_RULES, scope, later);
    RaisesIffCannotCompare(SUDO_RULES, Some(scope), later);
  }

  lemma ScopeStops(scope: Option<Scope>, disk: Disk)
    requires CannotCompare(SUDO_RULES, scope, disk)
    ensures Stops(NOTHING_OWNED, scope, disk, Report(false, false, BOTH))
  {
    AlertOfBoth();
    assert SUDO_RULES in [ACCOUNTS, SUDO_RULES];
  }

  lemma PlainAlert(disk: Disk)
    ensures var plain := Triage(NOTHING_OWNED, None, disk, Report(false, false, BOTH));
      plain.Some? && Alerts(plain.value) == [Finding(Identity, [ACCOUNTS])]
  {
    AlertOfBoth();
    ScopeKeepsAlertIff(NOTHING_OWNED, None, disk, Report(false, false, BOTH));
    AlertIsUnexcusedIdentity(Decode, Classify, NOTHING_OWNED, Overlay(None, disk), Report(false, false, BOTH));
  }

  /** The run without a scope raises an ALERT, and the run with it is lost. */
  ghost predicate LosesAlert(ev: Evidence, report: Report, scope: Scope, disk: Disk) {
    var plain := Triage(ev, None, disk, report);
    plain.Some? && Alerts(plain.value) == [Finding(Identity, [ACCOUNTS])] && Triage(ev, Some(scope), disk, report).None?
  }

  lemma UnreadableLosesAlert(scope: Scope, disk: Disk)
    requires CannotCompare(SUDO_RULES, Some(scope), disk)
    ensures LosesAlert(NOTHING_OWNED, Report(false, false, BOTH), scope, disk)
  {
    ScopeStops(Some(scope), disk);
    PlainAlert(disk);
    TriageIsLostIff(NOTHING_OWNED, Some(scope), disk, Report(false, false, BOTH));
  }

  /** The default scope, and a report of the accounts file together with the project's own sudo rules: once
      these cannot be read any more, the ALERT of the run without a scope is lost. */
  lemma UnreadableFileLosesAlert() returns (ev: Evidence, report: Report, disk: Disk, later: Disk)
    ensures LosesAlert(ev, report, WrittenScope(None, [], true, disk), later)
  {
    ev, report := NOTHING_OWNED, Report(false, false, BOTH);
    disk, later := map[SUDO_RULES := File("before", true)], map[SUDO_RULES := File("before", false)];
    DefaultScopeWatches(disk, later);
    UnreadableLosesAlert(WrittenScope(None, [], true, disk), later);
  }
}
