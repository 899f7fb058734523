/** AIDE report triage and the freeze overlay: `scripts/lib/aide_classify.py`. */
module AidePaths {
  import opened Strings

  const IDENTITY_EXACT := {
    "/etc/passwd", "/etc/shadow", "/etc/group", "/etc/gshadow", "/etc/sudoers", "/etc/ld.so.preload",
    "/usr/bin/sudo", "/usr/bin/su", "/usr/bin/passwd", "/usr/bin/pkexec"}

  datatype Class = SelfSudoers | SelfHelper | SnapProton | SnapOther | Identity | Stale | Pkg | Other

  predicate IsHex(c: char) {
    '0' <= c <= '9' || 'A' <= c <= 'F' || 'a' <= c <= 'f'
  }

  function HexValue(c: char): nat
    requires IsHex(c)
  {
    if c <= '9' then (c - '0') as nat else if c <= 'F' then (c - 'A') as nat + 10 else (c - 'a') as nat + 10
  }

  /** Replaces every `\xHH` by its character, left to right. */
  function Unescape(s: string): string {
    if |s| >= 4 && s[0] == '\\' && s[1] == 'x' && IsHex(s[2]) && IsHex(s[3])
    then [(16 * HexValue(s[2]) + HexValue(s[3])) as char] + Unescape(s[4..])
    else if s == "" then "" else [s[0]] + Unescape(s[1..])
  }

  function Decode(raw: string): string {
    Unescape(Strip(raw))
  }

  /** Under a directory, or the path itself: trailing slashes of the prefix do not matter. */
  predicate Covers(prefix: string, p: string) {
    p == prefix || StartsWith(p, TrimSlashes(prefix) + "/")
  }

  function TrimSlashes(s: string): string {
    if s != "" && s[|s| - 1] == '/' then TrimSlashes(s[..|s| - 1]) else s
  }

  function Slashes(n: nat): string {
    if n == 0 then "" else Slashes(n - 1) + "/"
  }

  lemma {:induction false} TrimIsUnique(q: string, n: nat)
    requires q == "" || q[|q| - 1] != '/'
    ensures TrimSlashes(q + Slashes(n)) == q
  {
    if n == 0 {
      assert q + "" == q;
    } else {
      TrimIsUnique(q, n - 1);
      assert (q + Slashes(n))[..|q + Slashes(n)| - 1] == q + Slashes(n - 1);
    }
  }

  lemma {:induction false} TrimTakesSlashes(s: string) returns (n: nat)
    ensures s == TrimSlashes(s) + Slashes(n)
    ensures TrimSlashes(s) == "" || TrimSlashes(s)[|TrimSlashes(s)| - 1] != '/'
  {
    if s != "" && s[|s| - 1] == '/' {
      var m := TrimTakesSlashes(s[..|s| - 1]);
      n := m + 1;
      assert s == s[..|s| - 1] + "/";
    } else {
      n := 0;
    }
  }

  /** The path lies in the directory that is named, with any number of closing slashes. */
  ghost predicate LiesUnder(dir: string, p: string) {
    exists q, n: nat, rest :: dir == q + Slashes(n) && (q == "" || q[|q| - 1] != '/') && p == q + "/" + rest
  }

  /** A prefix covers itself and what lies under it, and no longer name that merely begins alike. */
  lemma CoversIff(prefix: string, p: string)
    ensures Covers(prefix, p) <==> p == prefix || LiesUnder(prefix, p)
  {
    var n := TrimTakesSlashes(prefix);
    var t := TrimSlashes(prefix);
    if StartsWith(p, t + "/") {
      assert p == t + "/" + p[|t| + 1..];
    }
    if q, m: nat, rest :| prefix == q + Slashes(m) && (q == "" || q[|q| - 1] != '/') && p == q + "/" + rest {
      TrimIsUnique(q, m);
    }
  }

  function Classify(path: string): Class {
    var p := Decode(path);
    var low := Lower(p);
    if p == "/etc/sudoers.d/kalived" || StartsWith(p, "/etc/sudoers.d/kalived/") then SelfSudoers
    else if StartsWith(p, "/etc/sudoers.d/") then Identity
    else if p in IDENTITY_EXACT || p == "/etc/ssh" || StartsWith(p, "/etc/ssh/") then Identity
    else if Contains(low, "proton-vpn") || Contains(low, "proton_vpn") then SnapProton
    else if Contains(low, "snap-snapd-")
      || (Contains(low, "snap-") && EndsWith(low, ".mount") && !Contains(low, "proton")) then SnapOther
    else if Contains(low, "snapd.mounts.target") && !Contains(low, "proton") then SnapOther
    else if StartsWith(p, "/usr/local/lib/kalived") || p == "/usr/sbin/kalived-ctl" then SelfHelper
    else if Contains(p, "kalived-watch.service") || Contains(p, "kalived-watch.timer") then SelfHelper
    else Other
  }

  predicate OwnSudoers(p: string) {
    p == "/etc/sudoers.d/kalived" || "/etc/sudoers.d/kalived/" <= p
  }

  predicate IdentityFile(p: string) {
    || "/etc/sudoers.d/" <= p || p == "/etc/ssh" || "/etc/ssh/" <= p
    || p == "/etc/passwd" || p == "/etc/shadow" || p == "/etc/group" || p == "/etc/gshadow" || p == "/etc/sudoers"
    || p == "/etc/ld.so.preload"
    || p == "/usr/bin/sudo" || p == "/usr/bin/su" || p == "/usr/bin/passwd" || p == "/usr/bin/pkexec"
  }

  predicate NamesProton(p: string) {
    Contains(Lower(p), "proton-vpn") || Contains(Lower(p), "proton_vpn")
  }

  predicate NamesSnap(p: string) {
    || Contains(Lower(p), "snap-snapd-")
    || (!Contains(Lower(p), "proton")
        && (Contains(Lower(p), "snapd.mounts.target")
            || (Contains(Lower(p), "snap-") && EndsWith(Lower(p), ".mount"))))
  }

  predicate OwnHelper(p: string) {
    || "/usr/local/lib/kalived" <= p || p == "/usr/sbin/kalived-ctl"
    || Contains(p, "kalived-watch.service") || Contains(p, "kalived-watch.timer")
  }

  /** Which paths belong to which class: our own sudo rules come before the identity files, and these before
      anything that a name merely contains. */
  lemma ClassesAre(path: string)
    ensures var (p, c) := (Decode(path), Classify(path));
      && c != Stale && c != Pkg
      && (c == SelfSudoers <==> OwnSudoers(p))
      && (c == Identity <==> IdentityFile(p) && !OwnSudoers(p))
      && (c == SnapProton <==> NamesProton(p) && !IdentityFile(p))
      && (c == SnapOther <==> NamesSnap(p) && !NamesProton(p) && !IdentityFile(p))
      && (c == SelfHelper <==> OwnHelper(p) && !NamesSnap(p) && !NamesProton(p) && !IdentityFile(p))
  {
    if OwnSudoers(Decode(path)) {
      assert "/etc/sudoers.d/kalived/"[..15] == "/etc/sudoers.d/";
      assert "/etc/sudoers.d/kalived"[..15] == "/etc/sudoers.d/";
    }
  }
}

/** The freeze overlay: a list of prefixes, some bound to the content they had when written. */
module AideScope {
  import opened Lists
  import opened Strings
  import opened AidePaths

  const DEFAULT_SCOPE := [
    "/etc/sudoers.d/kalived", "/usr/local/lib/kalived", "/usr/sbin/kalived-ctl",
    "/etc/systemd/system/kalived-watch.service", "/etc/systemd/system/kalived-watch.timer",
    "/etc/systemd/system/timers.target.wants/kalived-watch.timer"]

  /** A regular file by its digest; an unreadable one raises when it is read. */
  datatype File = File(digest: string, readable: bool)
  type Disk = map<string, File>

  datatype Scope = Scope(mode: string, prefixes: seq<string>, hashes: map<string, string>)

  predicate KeepPrefix(path: string) {
    StartsWith(Decode(path), "/") && Classify(Decode(path)) !in {SnapProton, SnapOther}
  }

  /** Stable union: first occurrence of every kept, decoded path. */
  function Union(dec: string -> string, keep: string -> bool, raws: seq<string>): seq<string> {
    if raws == [] then [] else
      var out, p := Union(dec, keep, raws[..|raws| - 1]), dec(raws[|raws| - 1]);
      if !keep(p) || p in out then out else out + [p]
  }

  function Flatten(groups: seq<seq<string>>): seq<string> {
    FlatMap((group: seq<string>) => group, groups)
  }

  /** The loop of `union_prefixes`, for any decoding and any filter. */
  method UnionPrefixes(dec: string -> string, keep: string -> bool, groups: seq<seq<string>>) returns (out: seq<string>)
    ensures out == Union(dec, keep, Flatten(groups))
  {
    out := [];
    for g := 0 to |groups|
      invariant out == Union(dec, keep, Flatten(groups[..g]))
    {
      Snoc(groups, g);
      out := AddGroup(dec, keep, out, groups[g], Flatten(groups[..g]));
    }
    Whole(groups);
  }

  method AddGroup(dec: string -> string, keep: string -> bool, before: seq<string>, group: seq<string>,
                  ghost raws: seq<string>)
    returns (out: seq<string>)
    requires before == Union(dec, keep, raws)
    ensures out == Union(dec, keep, raws + group)
  {
    out := before;
    assert raws + group[..0] == raws;
    for k := 0 to |group|
      invariant out == Union(dec, keep, raws + group[..k])
    {
      UnionSnoc(dec, keep, raws + group[..k], group[k]);
      assert raws + group[..k] + [group[k]] == raws + group[..k + 1];
      var p := dec(group[k]);
      if keep(p) && p !in out {
        out := out + [p];
      }
    }
    Whole(group);
  }

  lemma UnionSnoc(dec: string -> string, keep: string -> bool, raws: seq<string>, r: string)
    ensures Union(dec, keep, raws + [r]) == Grown(Union(dec, keep, raws), dec(r), keep)
  {
    assert (raws + [r])[..|raws + [r]| - 1] == raws;
  }

  function Grown(out: seq<string>, p: string, keep: string -> bool): seq<string> {
    if !keep(p) || p in out then out else out + [p]
  }

  /** Digests of the prefixes that are readable regular files now. */
  function HashesOf(prefixes: seq<string>, disk: Disk): map<string, string> {
    map p | p in prefixes && p in disk && disk[p].readable :: disk[p].digest
  }

  function Requested(prefixes: seq<string>): seq<string> {
    if prefixes == [] then DEFAULT_SCOPE else prefixes
  }

  function PrefixesOf(scope: Option<Scope>): seq<string> {
    if scope.Some? then scope.value.prefixes else []
  }

  /** The scope that a write leaves. */
  function WrittenScope(before: Option<Scope>, prefixes: seq<string>, unionExisting: bool, disk: Disk): Scope {
    var prefs := Union(Decode, KeepPrefix, (if unionExisting then PrefixesOf(before) else []) + Requested(prefixes));
    Scope("scoped", prefs, HashesOf(prefs, disk))
  }

  /** What a written scope lists: of the old and the new prefixes, decoded, those that are absolute and neither
      Proton's nor snap's. */
  lemma ScopeLists(before: Option<Scope>, prefixes: seq<string>, unionExisting: bool, disk: Disk, p: string)
    ensures p in WrittenScope(before, prefixes, unionExisting, disk).prefixes <==>
      && (exists r :: r in (if unionExisting then PrefixesOf(before) else []) + Requested(prefixes) && Decode(r) == p)
      && "/" <= Decode(p) && Classify(Decode(p)) != SnapProton && Classify(Decode(p)) != SnapOther
  {
    var raws := (if unionExisting then PrefixesOf(before) else []) + Requested(prefixes);
    UnionAre(Decode, KeepPrefix, raws);
    if r :| r in raws && Decode(r) == p && KeepPrefix(p) {
      KeptIsListed(Decode, KeepPrefix, raws, r);
    }
  }

  class ScopeFile {
    var doc: Option<Scope>  // the file, if it exists

    method WriteScope(prefixes: seq<string>, unionExisting: bool, disk: Disk) returns (written: Scope)
      modifies this
      ensures doc == Some(written) && written == WrittenScope(old(doc), prefixes, unionExisting, disk)
    {
      var prefs := if prefixes == [] then DEFAULT_SCOPE else prefixes;
      if unionExisting && doc.Some? {
        FlattenTwo(doc.value.prefixes, prefs);
        prefs := UnionPrefixes(Decode, KeepPrefix, [doc.value.prefixes, prefs]);
      } else {
        FlattenTwo([], prefs);
        prefs := UnionPrefixes(Decode, KeepPrefix, [prefs]);
      }
      var hashes := HashPrefixes(prefs, disk);
      written := Scope("scoped", prefs, hashes);
      doc := Some(written);
    }
  }

  method HashPrefixes(prefs: seq<string>, disk: Disk) returns (hashes: map<string, string>)
    ensures hashes == HashesOf(prefs, disk)
  {
    hashes := map[];
    for k := 0 to |prefs|
      invariant hashes == HashesOf(prefs[..k], disk)
    {
      Snoc(prefs, k);
      var p := prefs[k];
      if p in disk && disk[p].readable {
        hashes := hashes[p := disk[p].digest];
      }
    }
    Whole(prefs);
  }

  lemma FlattenTwo(a: seq<string>, b: seq<string>)
    ensures Flatten([a, b]) == a + b && Flatten([b]) == [] + b
  {
    var same := (group: seq<string>) => group;
    FlatMapOne(same, a);
    FlatMapOne(same, b);
    FlatMapSnoc(same, [a], b);
    assert [a] + [b] == [a, b];
  }

  // ----- Runs of writes

  /** The stored prefixes after a run of writes with union on, from a missing file. */
  function Stored(dec: string -> string, keep: string -> bool, requests: seq<seq<string>>): seq<string> {
    if requests == [] then [] else
      Union(dec, keep, Stored(dec, keep, requests[..|requests| - 1]) + requests[|requests| - 1])
  }

  ghost predicate RequestedAs(dec: string -> string, raws: seq<string>, p: string) {
    exists r :: r in raws && dec(r) == p
  }

  lemma {:induction false} UnionAre(dec: string -> string, keep: string -> bool, raws: seq<string>)
    ensures Distinct(Union(dec, keep, raws))
    ensures forall p :: p in Union(dec, keep, raws) ==> keep(p) && RequestedAs(dec, raws, p)
  {
    if raws != [] {
      var init, r := raws[..|raws| - 1], raws[|raws| - 1];
      assert raws == init + [r];
      UnionAre(dec, keep, init);
      forall p | p in Union(dec, keep, init) ensures RequestedAs(dec, raws, p) {
        var x :| x in init && dec(x) == p;
        assert x in raws;
      }
      assert r in raws;
    }
  }

  /** The union is the deduplicated list of the kept decoded requests. */
  lemma {:induction false} UnionIsFirstOccurrences(dec: string -> string, keep: string -> bool, raws: seq<string>)
    ensures Union(dec, keep, raws) == Dedup(Filter(keep, Map(dec, raws)))
  {
    if raws != [] {
      var init, r := raws[..|raws| - 1], raws[|raws| - 1];
      UnionIsFirstOccurrences(dec, keep, init);
      var decoded := Map(dec, init);
      assert Map(dec, raws) == decoded + [dec(r)];
      FilterSnoc(keep, decoded, dec(r));
      DedupSnoc(Filter(keep, decoded), dec(r));
      assert Filter(keep, decoded) + [] == Filter(keep, decoded);
    }
  }

  /** Nothing kept is left out. */
  lemma KeptIsListed(dec: string -> string, keep: string -> bool, raws: seq<string>, r: string)
    requires r in raws && keep(dec(r))
    ensures dec(r) in Union(dec, keep, raws)
  {
    UnionIsFirstOccurrences(dec, keep, raws);
    FilterIn(keep, Map(dec, raws));
    var k :| 0 <= k < |raws| && raws[k] == r;
    assert Map(dec, raws)[k] == dec(r);
  }

  lemma {:induction false} UnionOfStable(dec: string -> string, keep: string -> bool, ps: seq<string>)
    requires Distinct(ps) && forall p :: p in ps ==> dec(p) == p && keep(p)
    ensures Union(dec, keep, ps) == ps
  {
    if ps != [] {
      var init := ps[..|ps| - 1];
      UnionOfStable(dec, keep, init);
      assert ps == init + [ps[|ps| - 1]] && ps[|ps| - 1] !in init;
    }
  }

  /** Stored stable prefixes stand for everything requested before. */
  lemma {:induction false} UnionAbsorbs(dec: string -> string, keep: string -> bool, raws: seq<string>,
                                        more: seq<string>)
    requires forall p :: p in Union(dec, keep, raws) ==> dec(p) == p
    ensures Union(dec, keep, Union(dec, keep, raws) + more) == Union(dec, keep, raws + more)
  {
    var stored := Union(dec, keep, raws);
    if more == [] {
      UnionAre(dec, keep, raws);
      UnionOfStable(dec, keep, stored);
      assert stored + [] == stored && raws + [] == raws;
    } else {
      var init, r := more[..|more| - 1], more[|more| - 1];
      UnionAbsorbs(dec, keep, raws, init);
      UnionSnoc(dec, keep, stored + init, r);
      UnionSnoc(dec, keep, raws + init, r);
      assert stored + more == stored + init + [r] && raws + more == raws + init + [r];
    }
  }

  lemma {:induction false} StoredIsUnion(dec: string -> string, keep: string -> bool, requests: seq<seq<string>>)
    requires forall r :: r in Flatten(requests) && keep(dec(r)) ==> dec(dec(r)) == dec(r)
    ensures Stored(dec, keep, requests) == Union(dec, keep, Flatten(requests))
  {
    if requests != [] {
      var init, last := requests[..|requests| - 1], requests[|requests| - 1];
      StoredIsUnion(dec, keep, init);
      UnionAre(dec, keep, Flatten(init));
      UnionAbsorbs(dec, keep, Flatten(init), last);
    }
  }

  datatype Write = Write(prefixes: seq<string>, disk: Disk)

  /** The file after a run of writes with union on, from a missing file. */
  function RunWrites(writes: seq<Write>): Option<Scope> {
    if writes == [] then None else
      var w := writes[|writes| - 1];
      Some(WrittenScope(RunWrites(writes[..|writes| - 1]), w.prefixes, true, w.disk))
  }

  function Requests(writes: seq<Write>): seq<seq<string>> {
    Map((w: Write) => Requested(w.prefixes), writes)
  }

  lemma WriteAdds(init: seq<Write>, w: Write)
    ensures PrefixesOf(RunWrites(init + [w]))
      == Union(Decode, KeepPrefix, PrefixesOf(RunWrites(init)) + Requested(w.prefixes))
    ensures Requests(init + [w]) == Requests(init) + [Requested(w.prefixes)]
  {
    assert (init + [w])[..|init|] == init;
    MapSnoc((x: Write) => Requested(x.prefixes), init, w);
  }

  lemma StoredSnoc(dec: string -> string, keep: string -> bool, requests: seq<seq<string>>,
                   request: seq<string>)
    ensures Stored(dec, keep, requests + [request]) == Union(dec, keep, Stored(dec, keep, requests) + request)
  {
    assert (requests + [request])[..|requests|] == requests;
  }

  lemma RunIsStoredStep(init: seq<Write>, w: Write)
    requires PrefixesOf(RunWrites(init)) == Stored(Decode, KeepPrefix, Requests(init))
    ensures PrefixesOf(RunWrites(init + [w])) == Stored(Decode, KeepPrefix, Requests(init + [w]))
  {
    WriteAdds(init, w);
    StoredSnoc(Decode, KeepPrefix, Requests(init), Requested(w.prefixes));
  }

  lemma {:induction false} OverRuns(p: seq<Write> -> bool, writes: seq<Write>)
    requires p([]) && forall init, w :: p(init) ==> p(init + [w])
    ensures p(writes)
  {
    if writes != [] {
      OverRuns(p, writes[..|writes| - 1]);
      assert writes == writes[..|writes| - 1] + [writes[|writes| - 1]];
    }
  }

  lemma RunIsStored(writes: seq<Write>)
    ensures PrefixesOf(RunWrites(writes)) == Stored(Decode, KeepPrefix, Requests(writes))
  {
    var p := (ws: seq<Write>) => PrefixesOf(RunWrites(ws)) == Stored(Decode, KeepPrefix, Requests(ws));
    forall init, w | p(init) ensures p(init + [w]) {
      RunIsStoredStep(init, w);
    }
    OverRuns(p, writes);
  }

  /** Over any run of writes whose kept requests are decode-stable, the file holds the first-occurrence
      union of everything ever requested, the default scope standing for an empty request. */
  lemma StoredIsUnionOfAll(writes: seq<Write>)
    requires forall r :: r in Flatten(Requests(writes)) && KeepPrefix(Decode(r)) ==> Decode(Decode(r)) == Decode(r)
    ensures PrefixesOf(RunWrites(writes)) == Union(Decode, KeepPrefix, Flatten(Requests(writes)))
  {
    RunIsStored(writes);
    StoredIsUnion(Decode, KeepPrefix, Requests(writes));
  }

  lemma {:induction false} UnionLength(dec: string -> string, keep: string -> bool, ps: seq<string>)
    ensures |Union(dec, keep, ps)| <= |ps|
    ensures |Union(dec, keep, ps)| == |ps| ==> forall i :: 0 <= i < |ps| ==> Union(dec, keep, ps)[i] == dec(ps[i])
  {
    if ps != [] {
      UnionLength(dec, keep, ps[..|ps| - 1]);
    }
  }

  /** Exactly when a rewrite leaves the stored prefixes alone: when each of them is decode-stable. */
  lemma RewriteKeepsIffStable(dec: string -> string, keep: string -> bool, ps: seq<string>)
    requires Distinct(ps) && forall p :: p in ps ==> keep(p)
    ensures Union(dec, keep, ps) == ps <==> forall p :: p in ps ==> dec(p) == p
  {
    UnionLength(dec, keep, ps);
    if Union(dec, keep, ps) == ps {
      forall p | p in ps ensures dec(p) == p {
        var i :| 0 <= i < |ps| && ps[i] == p;
      }
    } else if forall p :: p in ps ==> dec(p) == p {
      UnionOfStable(dec, keep, ps);
    }
  }

  lemma UnescapePlain(c: char, rest: string)
    requires c != '\\'
    ensures Unescape([c] + rest) == [c] + Unescape(rest)
  {
    assert ([c] + rest)[1..] == rest;
  }

  lemma UnescapeStep(c: char, tail: string, rest: string)
    requires c != '\\' && Unescape(tail + rest) == tail + Unescape(rest)
    ensures Unescape([c] + tail + rest) == [c] + tail + Unescape(rest)
  {
    UnescapePlain(c, tail + rest);
    assert [c] + tail + rest == [c] + (tail + rest);
    assert [c] + tail + Unescape(rest) == [c] + (tail + Unescape(rest));
  }

  /** Escapes behind a plain text are replaced one after the other. */
  lemma {:induction false} UnescapeAfter(plain: string, rest: string)
    requires '\\' !in plain
    ensures Unescape(plain + rest) == plain + Unescape(rest)
  {
    if plain == "" {
      assert plain + rest == rest;
    } else {
      var c, tail := plain[0], plain[1..];
      assert plain == [c] + tail && c in plain;
      UnescapeAfter(tail, rest);
      UnescapeStep(c, tail, rest);
    }
  }

  function Escape(h: char, l: char): string {
    ['\\', 'x', h, l]
  }

  function Escaped(h: char, l: char): char
    requires IsHex(h) && IsHex(l)
  {
    (16 * HexValue(h) + HexValue(l)) as char
  }

  lemma UnescapeFirst(h: char, l: char, tail: string)
    requires '\\' !in tail && IsHex(h) && IsHex(l)
    ensures Unescape(Escape(h, l) + tail) == [Escaped(h, l)] + tail
  {
    UnescapeAfter(tail, "");
    assert (Escape(h, l) + tail)[4..] == tail && tail + "" == tail;
  }

  /** A path with a single escape between plain text. */
  lemma DecodeOneEscape(plain: string, h: char, l: char, tail: string)
    requires '\\' !in plain && '\\' !in tail && IsHex(h) && IsHex(l)
    requires plain != "" && !IsSpace(plain[0])
    requires if tail == "" then !IsSpace(l) else !IsSpace(tail[|tail| - 1])
    ensures Decode(plain + (Escape(h, l) + tail)) == plain + ([Escaped(h, l)] + tail)
  {
    var path := plain + (Escape(h, l) + tail);
    assert path[|path| - 1] == if tail == "" then l else tail[|tail| - 1];
    StripIsIdentity(path);
    UnescapeAfter(plain, Escape(h, l) + tail);
    UnescapeFirst(h, l, tail);
  }

  /** A doubly escaped path is not stable: `/a\x5cx41` is stored as `/a\x41`, and a second write stores `/aA`. */
  lemma DoublyEscapedPathDrifts()
    ensures Decode("/a" + (Escape('5', 'c') + "x41")) == "/a" + ("\\" + "x41")
    ensures "/a" + ("\\" + "x41") == "/a" + (Escape('4', '1') + "")
    ensures Decode("/a" + (Escape('4', '1') + "")) == "/a" + ("A" + "")
  {
    DecodeOneEscape("/a", '5', 'c', "x41");
    DecodeOneEscape("/a", '4', '1', "");
    assert Escaped('5', 'c') == '\\' && Escaped('4', '1') == 'A';
  }

  // ----- Frozen paths

  datatype Verdict = Frozen | Changed | Raises

  function IsFrozen(path: string, scope: Option<Scope>, disk: Disk): Verdict {
    if scope.None? || scope.value.mode == "all" then Changed
    else FrozenBy(Decode(path), Map(Decode, scope.value.prefixes), scope.value.hashes, disk)
  }

  /** The first covering prefix decides; a digest of the path itself goes before one of that prefix. */
  function FrozenBy(p: string, prefixes: seq<string>, hashes: map<string, string>, disk: Disk): Verdict {
    var k := FirstIndex((pre: string) => Covers(pre, p), prefixes);
    if k == |prefixes| then Changed else
      var want := if Recorded(hashes, p) then hashes[p]
        else if Recorded(hashes, prefixes[k]) then hashes[prefixes[k]] else "";
      if want == "" || p !in disk then Frozen
      else if !disk[p].readable then Raises
      else if disk[p].digest == want then Frozen else Changed
  }

  predicate Recorded(hashes: map<string, string>, p: string) {
    p in hashes && hashes[p] != ""
  }

  /** The prefix at which the search for a cover stops. */
  ghost predicate FirstCovers(prefixes: seq<string>, p: string, k: nat) {
    k < |prefixes| && Covers(prefixes[k], p) && forall j :: 0 <= j < k ==> !Covers(prefixes[j], p)
  }

  /** A digest is recorded for the path or for its first covering prefix. */
  ghost predicate HasDigest(p: string, prefixes: seq<string>, hashes: map<string, string>) {
    exists k: nat :: FirstCovers(prefixes, p, k) && (Recorded(hashes, p) || Recorded(hashes, prefixes[k]))
  }

  /** There is a digest to compare with, and the file cannot be read. */
  ghost predicate CannotCompare(path: string, scope: Option<Scope>, disk: Disk) {
    && scope.Some? && scope.value.mode != "all"
    && Decode(path) in disk && !disk[Decode(path)].readable
    && HasDigest(Decode(path), Map(Decode, scope.value.prefixes), scope.value.hashes)
  }

  lemma RaisesIffCannotCompare(path: string, scope: Option<Scope>, disk: Disk)
    ensures IsFrozen(path, scope, disk) == Raises <==> CannotCompare(path, scope, disk)
  {
    if scope.Some? && scope.value.mode != "all" {
      var p, prefixes, hashes := Decode(path), Map(Decode, scope.value.prefixes), scope.value.hashes;
      var m := FirstIndex((pre: string) => Covers(pre, p), prefixes);
      if k: nat :| FirstCovers(prefixes, p, k) {
        assert k == m;
      }
      if m < |prefixes| {
        assert FirstCovers(prefixes, p, m);
      }
    }
  }

  /** The content is known to differ: covered, with a digest that a readable file does not have. */
  ghost predicate KnownToDiffer(path: string, scope: Scope, disk: Disk) {
    var p, prefixes := Decode(path), Map(Decode, scope.prefixes);
    p in disk && disk[p].readable
    && exists k: nat :: FirstCovers(prefixes, p, k) && Differs(p, prefixes[k], scope.hashes, disk[p].digest)
  }

  /** The path's own digest, else that of the prefix, is another one. */
  predicate Differs(p: string, prefix: string, hashes: map<string, string>, digest: string) {
    if Recorded(hashes, p) then hashes[p] != digest else Recorded(hashes, prefix) && hashes[prefix] != digest
  }

  /** The overlay lets a path show exactly when there is no scope, or the path is outside it, or its content is
      known to differ. */
  lemma ChangedIff(path: string, scope: Option<Scope>, disk: Disk)
    ensures IsFrozen(path, scope, disk) == Changed
      <==> scope.None? || scope.value.mode == "all"
           || (forall pre :: pre in Map(Decode, scope.value.prefixes) ==> !Covers(pre, Decode(path)))
           || KnownToDiffer(path, scope.value, disk)
  {
    if scope.Some? && scope.value.mode != "all" {
      var p, prefixes := Decode(path), Map(Decode, scope.value.prefixes);
      var m := FirstIndex((pre: string) => Covers(pre, p), prefixes);
      if k: nat :| FirstCovers(prefixes, p, k) {
        assert k == m;
      }
      if m < |prefixes| {
        assert FirstCovers(prefixes, p, m) && prefixes[m] in prefixes;
      }
    }
  }

  /** Below a regular file there is nothing; a path with further slashes names the file itself. */
  ghost predicate NothingBelowFiles(disk: Disk) {
    forall q, p :: q in disk && p in disk && Covers(q, p) ==> disk[p] == disk[q]
  }

  lemma CoveredIsFrozen(p: string, prefixes: seq<string>, listed: seq<string>, disk: Disk, k: nat)
    requires NothingBelowFiles(disk) && k < |prefixes| && Covers(prefixes[k], p)
    ensures FrozenBy(p, prefixes, HashesOf(listed, disk), disk) == Frozen
  {
    var m := FirstIndex((pre: string) => Covers(pre, p), prefixes);
    assert m <= k;
    if p in disk && prefixes[m] in disk {
      assert disk[p] == disk[prefixes[m]];
    }
  }

  /** Right after a write every listed path is frozen, whatever was stored before. */
  lemma ListedIsFrozenAfterWrite(before: Option<Scope>, prefixes: seq<string>, unionExisting: bool, disk: Disk,
                                 p: string)
    requires NothingBelowFiles(disk) && p in WrittenScope(before, prefixes, unionExisting, disk).prefixes
    ensures IsFrozen(p, Some(WrittenScope(before, prefixes, unionExisting, disk)), disk) == Frozen
  {
    var listed := WrittenScope(before, prefixes, unionExisting, disk).prefixes;
    var k :| 0 <= k < |listed| && listed[k] == p;
    CoveredIsFrozen(Decode(p), Map(Decode, listed), listed, disk, k);
  }

  lemma StableIsFirst(p: string, prefixes: seq<string>, hashes: map<string, string>, later: Disk)
    requires p in prefixes && Recorded(hashes, p)
    ensures FrozenBy(p, prefixes, hashes, later) ==
      if p !in later then Frozen else if !later[p].readable then Raises
      else if later[p].digest == hashes[p] then Frozen else Changed
  {
    var k :| 0 <= k < |prefixes| && prefixes[k] == p;
    assert Covers(prefixes[k], p);
  }

  /** A listed, decode-stable path with a recorded digest unfreezes exactly when it still is a file with
      another digest, and raises exactly when it is a file that cannot be read. */
  lemma ListedUnfreezesIffChanged(p: string, scope: Scope, later: Disk)
    requires scope.mode != "all" && p in scope.prefixes && Recorded(scope.hashes, p) && Decode(p) == p
    ensures IsFrozen(p, Some(scope), later) == Changed
      <==> p in later && later[p].readable && later[p].digest != scope.hashes[p]
    ensures IsFrozen(p, Some(scope), later) == Raises <==> p in later && !later[p].readable
  {
    DecodedIsListed(p, scope.prefixes);
    StableIsFirst(p, Map(Decode, scope.prefixes), scope.hashes, later);
  }

  lemma DecodedIsListed(p: string, prefixes: seq<string>)
    requires p in prefixes
    ensures Decode(p) in Map(Decode, prefixes)
  {
    var k :| 0 <= k < |prefixes| && prefixes[k] == p;
    assert Map(Decode, prefixes)[k] == Decode(p);
  }

  /** The overlay notices every later change of the listed file, and nothing else. */
  ghost predicate NoticesChanges(p: string, scope: Scope)
    requires p in scope.hashes
  {
    forall later: Disk :: IsFrozen(p, Some(scope), later) == Changed
      <==> p in later && later[p].readable && later[p].digest != scope.hashes[p]
  }

  /** Exactly when a listed path with a recorded digest is watched as promised: when it is decode-stable. */
  lemma NoticesChangesIffStable(p: string, scope: Scope)
    requires scope.mode != "all" && p in scope.prefixes && Recorded(scope.hashes, p)
    ensures NoticesChanges(p, scope) <==> Decode(p) == p
  {
    if Decode(p) == p {
      forall later: Disk ensures IsFrozen(p, Some(scope), later) == Changed
        <==> p in later && later[p].readable && later[p].digest != scope.hashes[p]
      {
        ListedUnfreezesIffChanged(p, scope, later);
      }
    } else {
      UnstableGoesUnnoticed(p, scope, File(scope.hashes[p] + "x", true));
    }
  }

  /** A listed path that decodes to another one stays frozen when its own file changes. */
  lemma UnstableGoesUnnoticed(p: string, scope: Scope, file: File)
    requires scope.mode != "all" && p in scope.prefixes && Decode(p) != p
    ensures IsFrozen(p, Some(scope), map[p := file]) == Frozen
  {
    var decoded := Map(Decode, scope.prefixes);
    DecodedIsListed(p, scope.prefixes);
    var k :| 0 <= k < |decoded| && decoded[k] == Decode(p);
    assert Covers(decoded[k], Decode(p));
  }

  /** Short paths are neither Proton's nor snap's. */
  lemma ShortIsNoSnap(p: string)
    requires Decode(p) == p && |p| < 5
    ensures Classify(p) !in {SnapProton, SnapOther}
  {
  }

  lemma PlainIsStable(p: string)
    requires '\\' !in p && p != "" && !IsSpace(p[0]) && !IsSpace(p[|p| - 1])
    ensures Decode(p) == p
  {
    StripIsIdentity(p);
    UnescapeAfter(p, "");
    assert p + "" == p;
  }

  /** Such a scope comes from one write of the request `/a\x5cx41`: it lists `/a\x41` with the digest of that
      file, and the path stays frozen when the file gets another digest. */
  lemma EscapedPathGoesUnnoticed() returns (scope: Scope, p: string, later: Disk)
    ensures exists disk: Disk :: scope == WrittenScope(None, ["/a" + (Escape('5', 'c') + "x41")], true, disk)
    ensures p in scope.prefixes && Recorded(scope.hashes, p) && p in later && later[p].readable
    ensures later[p].digest != scope.hashes[p] && IsFrozen(p, Some(scope), later) == Frozen
  {
    var raw := "/a" + (Escape('5', 'c') + "x41");
    p := "/a" + (Escape('4', '1') + "");
    var disk: Disk := map[p := File("before", true)];
    DoublyEscapedPathDrifts();
    var twice := "/a" + ("A" + "");
    PlainIsStable(twice);
    ShortIsNoSnap(twice);
    assert KeepPrefix(p);
    OneRequest(raw);
    scope := WrittenScope(None, [raw], true, disk);
    later := map[p := File("after", true)];
    UnstableGoesUnnoticed(p, scope, File("after", true));
  }

  lemma OneRequest(raw: string)
    requires KeepPrefix(Decode(raw))
    ensures Union(Decode, KeepPrefix, [] + Requested([raw])) == [Decode(raw)]
  {
    var none: seq<string> := [];
    UnionSnoc(Decode, KeepPrefix, none, raw);
    assert none + [raw] == [] + Requested([raw]);
  }
}
